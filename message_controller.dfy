/** The payment-request handlers of the message controller, over a store of
    user records.

    A handler loads one user record (as `findById` returns a copy of the
    document), edits that copy, and writes it back (as `save` does). Each
    handler is one atomic step on the store: it either answers 404 and
    leaves every record as it was, or replaces exactly the requester's record.
 */
module MessageController {
  import opened DoorUnlock
  import opened PaymentLedger

  /** The part of a user document the handlers read and write. */
  datatype User = User(paymentRequests: seq<PaymentRequest>, doorStatus: DoorTable)

  /** Which lookup failed, one per 404 message of the controller. */
  datatype Missing =
    | NoRequesterOrRecipient  // "Requester or recipient not found"
    | NoUser                  // "User not found"
    | NoRequester             // "Requester not found"
    | NoPendingRequest        // "Pending payment request not found"
    | NoPaymentRequest        // "Payment request not found"

  /** The response a handler sends. */
  datatype Reply =
    | Created(saved: User)                   // 201 with the saved requester document
    | Listed(requests: seq<PaymentRequest>)  // 200 with the user's list
    | MarkedPaid(doorStatus: DoorTable)      // 200 with the updated door table
    | Deleted                                // 200
    | NotFound(missing: Missing)             // 404
  {
    function Code(): int {
      match this
      case Created(_) => 201
      case NotFound(_) => 404
      case _ => 200
    }
  }

  /** Every door the user's current paid count earns is open. */
  ghost predicate DoorsCoverPaid(u: User) {
    forall i :: Earned(PaidCount(u.paymentRequests), i) ==> Unlocked(u.doorStatus, i)
  }

  /** Every record of the collection satisfies DoorsCoverPaid. */
  ghost predicate AllDoorsCoverPaid(users: map<UserId, User>) {
    forall v :: v in users ==> DoorsCoverPaid(users[v])
  }

  class UserStore {
    /** The user collection, by user id. */
    var users: map<UserId, User>

    /** Subdocument ids are unique within each user's list. */
    ghost predicate Valid()
      reads this
    {
      forall u :: u in users ==> UniqueIds(users[u].paymentRequests)
    }

    /** Every record of the store satisfies DoorsCoverPaid. */
    ghost predicate DoorsCoverPayments()
      reads this
    {
      AllDoorsCoverPaid(users)
    }

    constructor (initial: map<UserId, User>)
      requires forall u :: u in initial ==> UniqueIds(initial[u].paymentRequests)
      ensures Valid() && users == initial
    {
      users := initial;
    }

    /** `paymentRequest`: both users must exist; then a pending entry for the
        recipient is pushed onto the requester's list. `newId` is the fresh
        subdocument id the database assigns to the pushed entry. */
    method RequestPayment(requesterId: UserId, recipientId: UserId, amount: int, newId: RequestId) returns (reply: Reply)
      requires Valid()
      requires requesterId in users ==> !HasRequest(users[requesterId].paymentRequests, newId)
      modifies this
      ensures Valid()
      ensures requesterId !in old(users) || recipientId !in old(users) ==>
        reply == NotFound(NoRequesterOrRecipient) && users == old(users)
      ensures requesterId in old(users) && recipientId in old(users) ==>
        var before := old(users)[requesterId];
        var entry := PaymentRequest(newId, recipientId, amount, Pending);
        && users == old(users)[requesterId := before.(paymentRequests := before.paymentRequests + [entry])]
        && reply == Created(users[requesterId])
      ensures requesterId in old(users) ==>
        PaidCount(users[requesterId].paymentRequests) == PaidCount(old(users)[requesterId].paymentRequests)
      ensures old(DoorsCoverPayments()) ==> DoorsCoverPayments()
    {
      if requesterId !in users || recipientId !in users {
        return NotFound(NoRequesterOrRecipient);
      }
      var requester := users[requesterId];
      var entry := PaymentRequest(newId, recipientId, amount, Pending);
      AppendFreshKeepsUniqueIds(requester.paymentRequests, entry);
      AppendPendingKeepsPaidCount(requester.paymentRequests, entry);
      requester := requester.(paymentRequests := requester.paymentRequests + [entry]);
      users := users[requesterId := requester];
      reply := Created(requester);
    }

    /** `getPayment`: the stored list of the user, or 404 for an unknown user. */
    function GetPayment(id: UserId): (reply: Reply)
      reads this
      ensures id !in users ==> reply == NotFound(NoUser)
      ensures id in users ==> reply == Listed(users[id].paymentRequests)
      ensures reply.Code() == (if id in users then 200 else 404)
    {
      if id in users then Listed(users[id].paymentRequests) else NotFound(NoUser)
    }

    /** `markAsPaid`: the first entry pending for the recipient becomes paid;
        then every door in 1..14 whose threshold the requester's total paid
        count reaches is opened. */
    method MarkAsPaid(requesterId: UserId, recipientId: UserId) returns (reply: Reply)
      requires Valid()
      modifies this
      ensures Valid()
      ensures requesterId !in old(users) ==> reply == NotFound(NoRequester) && users == old(users)
      ensures requesterId in old(users) && FindPending(old(users)[requesterId].paymentRequests, recipientId).None? ==>
        reply == NotFound(NoPendingRequest) && users == old(users)
      ensures requesterId in old(users) && FindPending(old(users)[requesterId].paymentRequests, recipientId).Some? ==>
        var before := old(users)[requesterId];
        var requests := Settle(before.paymentRequests, FindPending(before.paymentRequests, recipientId).value);
        var doors := UnlockDoors(before.doorStatus, PaidCount(requests));
        && users == old(users)[requesterId := User(requests, doors)]
        && reply == MarkedPaid(doors)
      ensures reply.MarkedPaid? ==>
        PaidCount(users[requesterId].paymentRequests) == PaidCount(old(users)[requesterId].paymentRequests) + 1
      ensures reply.MarkedPaid? ==> DoorsCoverPaid(users[requesterId])
      ensures old(DoorsCoverPayments()) ==> DoorsCoverPayments()
    {
      if requesterId !in users {
        return NotFound(NoRequester);
      }
      var requester := users[requesterId];
      var found := FindPending(requester.paymentRequests, recipientId);
      if found.None? {
        return NotFound(NoPendingRequest);
      }
      var requests := Settle(requester.paymentRequests, found.value);
      SettleAddsOnePaid(requester.paymentRequests, found.value);
      var paidCount := PaidCount(requests);
      var doors := requester.doorStatus;
      for i := 1 to DoorCount + 1
        invariant forall d :: 1 <= d < i && Earned(paidCount, d) ==> Unlocked(doors, d)
        invariant forall d :: !(1 <= d < i && Earned(paidCount, d)) ==>
          (d in doors <==> d in requester.doorStatus) && (d in doors ==> doors[d] == requester.doorStatus[d])
      {
        if paidCount >= i * PaymentsPerDoor && !Unlocked(doors, i) {
          doors := doors[i := true];
        }
      }
      assert doors == UnlockDoors(requester.doorStatus, paidCount) by {
        var spec := UnlockDoors(requester.doorStatus, paidCount);
        assert forall d :: d in doors <==> d in spec;
        assert forall d :: d in doors ==> doors[d] == spec[d];
      }
      var updated := User(requests, doors);
      assert UniqueIds(requests) by {
        assert forall j :: 0 <= j < |requests| ==> requests[j].id == requester.paymentRequests[j].id;
      }
      users := users[requesterId := updated];
      reply := MarkedPaid(doors);
    }

    /** `deletePaymentRequest`: the requester's list loses the entries whose id
        is `requestId`; 404 when nothing would be removed. */
    method DeletePaymentRequest(requesterId: UserId, requestId: RequestId) returns (reply: Reply)
      requires Valid()
      modifies this
      ensures Valid()
      ensures requesterId !in old(users) ==> reply == NotFound(NoRequester) && users == old(users)
      ensures requesterId in old(users) && !HasRequest(old(users)[requesterId].paymentRequests, requestId) ==>
        reply == NotFound(NoPaymentRequest) && users == old(users)
      ensures requesterId in old(users) && HasRequest(old(users)[requesterId].paymentRequests, requestId) ==>
        var before := old(users)[requesterId];
        && users == old(users)[requesterId := before.(paymentRequests := WithoutRequest(before.paymentRequests, requestId))]
        && reply == Deleted
      ensures reply == Deleted ==>
        |users[requesterId].paymentRequests| == |old(users)[requesterId].paymentRequests| - 1
      ensures old(DoorsCoverPayments()) ==> DoorsCoverPayments()
    {
      if requesterId !in users {
        return NotFound(NoRequester);
      }
      var requester := users[requesterId];
      var updatedRequests := WithoutRequest(requester.paymentRequests, requestId);
      if |updatedRequests| == |requester.paymentRequests| {
        return NotFound(NoPaymentRequest);
      }
      ghost var k :| 0 <= k < |requester.paymentRequests| && requester.paymentRequests[k].id == requestId;
      WithoutUniqueRequest(requester.paymentRequests, k);
      DropKeepsUniqueIds(requester.paymentRequests, k);
      WithoutRequestPaidCount(requester.paymentRequests, requestId);
      requester := requester.(paymentRequests := updatedRequests);
      users := users[requesterId := requester];
      reply := Deleted;
    }
  }

  /** A request, its listing, its settlement and two deletions of it, in a row. */
  method Walkthrough()
  {
    var store := new UserStore(map[1 := User([], map[]), 2 := User([], map[])]);
    var reply := store.RequestPayment(1, 2, 50, 7);
    assert reply.Code() == 201;
    assert store.GetPayment(1) == Listed([PaymentRequest(7, 2, 50, Pending)]);
    reply := store.RequestPayment(1, 3, 50, 8);
    assert reply == NotFound(NoRequesterOrRecipient);
    reply := store.MarkAsPaid(1, 2);
    assert store.users[1].paymentRequests == [PaymentRequest(7, 2, 50, Paid)];
    assert !Unlocked(store.users[1].doorStatus, 1);
    reply := store.MarkAsPaid(1, 2);
    assert reply == NotFound(NoPendingRequest);
    reply := store.DeletePaymentRequest(1, 7);
    assert reply == Deleted && store.users[1].paymentRequests == [];
    reply := store.DeletePaymentRequest(1, 7);
    assert reply == NotFound(NoPaymentRequest);
  }
}
