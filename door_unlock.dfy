/** The door-unlock rule of the message controller.

    A user's `doorStatus` is a table indexed by door number. Doors 1..14 are
    earned in blocks of eight paid payment requests: door `i` opens once the
    user's paid count reaches `8 * i`. Opening is one-way: the rule only ever
    writes `true`, and only into slots 1..14.
 */
module DoorUnlock {

  /** Number of doors the unlock loop visits (1..DoorCount). */
  const DoorCount := 14

  /** Paid requests needed per door. */
  const PaymentsPerDoor := 8

  /** A user's door table. A missing slot reads as `undefined`, i.e. locked. */
  type DoorTable = map<int, bool>

  /** The truthiness of `doorStatus[i]`. */
  predicate Unlocked(doors: DoorTable, i: int) {
    i in doors && doors[i]
  }

  /** Door `i` is one of 1..DoorCount and `paidCount` reaches its threshold. */
  predicate Earned(paidCount: nat, i: int) {
    1 <= i <= DoorCount && paidCount >= PaymentsPerDoor * i
  }

  /** The set of doors `paidCount` paid requests earn. */
  function EarnedDoors(paidCount: nat): (doors: set<int>) {
    set i | 1 <= i <= DoorCount && Earned(paidCount, i)
  }

  /** The door table after the unlock loop of `markAsPaid` has run with `paidCount`:
      every earned door reads `true`, every other slot is exactly as before. */
  function UnlockDoors(doors: DoorTable, paidCount: nat): (r: DoorTable)
    ensures forall i :: Earned(paidCount, i) ==> Unlocked(r, i)
    ensures forall i :: !Earned(paidCount, i) ==> (i in r <==> i in doors) && (i in doors ==> r[i] == doors[i])
  {
    map i | i in doors.Keys + EarnedDoors(paidCount) :: if i in EarnedDoors(paidCount) then true else doors[i]
  }

  function Min(a: int, b: int): (m: int) {
    if a < b then a else b
  }

  /** The unlock rule door by door: afterwards door `i` in 1..14 is open iff it was
      open before or the paid count reaches `8 * i`. */
  lemma DoorRule(doors: DoorTable, paidCount: nat, i: int)
    requires 1 <= i <= DoorCount
    ensures Unlocked(UnlockDoors(doors, paidCount), i) <==> Unlocked(doors, i) || paidCount >= PaymentsPerDoor * i
  {
  }

  /** Unlocking is monotone: no open door is closed, and slots outside 1..14 are untouched. */
  lemma UnlockIsMonotone(doors: DoorTable, paidCount: nat)
    ensures forall i :: Unlocked(doors, i) ==> Unlocked(UnlockDoors(doors, paidCount), i)
    ensures forall i :: !(1 <= i <= DoorCount) ==> (i in UnlockDoors(doors, paidCount) <==> i in doors)
    ensures forall i :: !(1 <= i <= DoorCount) && i in doors ==> UnlockDoors(doors, paidCount)[i] == doors[i]
  {
  }

  /** The doors a call opens form the prefix 1..min(14, paidCount / 8): each of them
      is open afterwards, and a door that was closed and is open afterwards lies in it. */
  lemma UnlockedPrefix(doors: DoorTable, paidCount: nat)
    ensures forall i :: 1 <= i <= Min(DoorCount, paidCount / PaymentsPerDoor) ==> Unlocked(UnlockDoors(doors, paidCount), i)
    ensures forall i :: Unlocked(UnlockDoors(doors, paidCount), i) && !Unlocked(doors, i) ==>
      1 <= i <= Min(DoorCount, paidCount / PaymentsPerDoor)
  {
  }

  /** Running the rule again with the same paid count changes nothing: the table is a
      recomputation from the count, not an incremental counter. */
  lemma UnlockIsIdempotent(doors: DoorTable, paidCount: nat)
    ensures UnlockDoors(UnlockDoors(doors, paidCount), paidCount) == UnlockDoors(doors, paidCount)
  {
  }

  /** A larger paid count opens at least the doors a smaller one opens. */
  lemma UnlockGrowsWithCount(doors: DoorTable, fewer: nat, more: nat)
    requires fewer <= more
    ensures forall i :: Unlocked(UnlockDoors(doors, fewer), i) ==> Unlocked(UnlockDoors(doors, more), i)
  {
  }
}
