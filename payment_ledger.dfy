/** The `paymentRequests` list a user holds as requester, and the pure list
    operations the message controller runs over it: the `find` that picks the
    entry to settle, the paid count, and the delete filter.
 */
module PaymentLedger {

  type UserId = nat
  type RequestId = nat

  datatype Option<T> = None | Some(value: T)

  /** The statuses the controller writes. */
  datatype PaymentStatus = Pending | Paid

  /** One entry of a requester's list: its subdocument id, who is asked to pay,
      how much, and how far it has got. */
  datatype PaymentRequest = PaymentRequest(id: RequestId, recipient: UserId, amount: int, status: PaymentStatus)

  /** The test `markAsPaid` passes to `find`. */
  predicate IsPendingFor(r: PaymentRequest, recipientId: UserId) {
    r.recipient == recipientId && r.status == Pending
  }

  /** Some entry of the list carries subdocument id `requestId`. */
  predicate HasRequest(requests: seq<PaymentRequest>, requestId: RequestId) {
    exists j :: 0 <= j < |requests| && requests[j].id == requestId
  }

  /** Subdocument ids are unique within one user's list. */
  predicate UniqueIds(requests: seq<PaymentRequest>) {
    forall i, j :: 0 <= i < j < |requests| ==> requests[i].id != requests[j].id
  }

  /** The position `find` stops at: the first entry pending for `recipientId`,
      or None when there is no such entry. */
  function FindPending(requests: seq<PaymentRequest>, recipientId: UserId): (k: Option<nat>)
    ensures k.Some? ==> k.value < |requests| && IsPendingFor(requests[k.value], recipientId)
    ensures k.Some? ==> forall j :: 0 <= j < k.value ==> !IsPendingFor(requests[j], recipientId)
    ensures k.None? ==> forall j :: 0 <= j < |requests| ==> !IsPendingFor(requests[j], recipientId)
  {
    if |requests| == 0 then None
    else if IsPendingFor(requests[0], recipientId) then Some(0)
    else match FindPending(requests[1..], recipientId)
      case None => None
      case Some(k) => Some(k + 1)
  }

  /** `request.status = "paid"` on the entry `find` returned: entry `k` becomes paid,
      keeping its id, recipient and amount; every other entry, the length and the
      order stay as they were. */
  function Settle(requests: seq<PaymentRequest>, k: nat): (r: seq<PaymentRequest>)
    requires k < |requests|
    ensures |r| == |requests|
    ensures r[k].status == Paid
    ensures r[k].id == requests[k].id && r[k].recipient == requests[k].recipient && r[k].amount == requests[k].amount
    ensures forall j :: 0 <= j < |r| && j != k ==> r[j] == requests[j]
  {
    requests[k := requests[k].(status := Paid)]
  }

  /** `filter(status === "paid").length`: how many entries are paid, whoever the recipient. */
  function PaidCount(requests: seq<PaymentRequest>): (n: nat)
    ensures n <= |requests|
  {
    if |requests| == 0 then 0
    else (if requests[0].status == Paid then 1 else 0) + PaidCount(requests[1..])
  }

  /** `filter(r => r._id !== requestId)`: the list without the entries whose id is `requestId`.
      The result is shorter exactly when such an entry existed; WithoutRequestMembers
      says which entries it keeps. */
  function WithoutRequest(requests: seq<PaymentRequest>, requestId: RequestId): (r: seq<PaymentRequest>)
    ensures |r| <= |requests|
    ensures |r| == |requests| <==> !HasRequest(requests, requestId)
  {
    if |requests| == 0 then []
    else if requests[0].id == requestId then WithoutRequest(requests[1..], requestId)
    else [requests[0]] + WithoutRequest(requests[1..], requestId)
  }

  /** The delete filter keeps exactly the entries whose id is not `requestId`. */
  lemma {:induction false} WithoutRequestMembers(requests: seq<PaymentRequest>, requestId: RequestId)
    ensures forall x :: x in WithoutRequest(requests, requestId) <==> x in requests && x.id != requestId
  {
    if |requests| > 0 {
      WithoutRequestMembers(requests[1..], requestId);
      assert forall x :: x in requests <==> x == requests[0] || x in requests[1..];
    }
  }

  /** The paid count of a concatenation is the sum of the parts' counts. */
  lemma {:induction false} PaidCountConcat(a: seq<PaymentRequest>, b: seq<PaymentRequest>)
    ensures PaidCount(a + b) == PaidCount(a) + PaidCount(b)
  {
    if |a| == 0 {
      assert a + b == b;
    } else {
      assert (a + b)[1..] == a[1..] + b;
      PaidCountConcat(a[1..], b);
    }
  }

  /** Appending a pending entry leaves the paid count as it was. */
  lemma AppendPendingKeepsPaidCount(requests: seq<PaymentRequest>, entry: PaymentRequest)
    requires entry.status == Pending
    ensures PaidCount(requests + [entry]) == PaidCount(requests)
  {
    PaidCountConcat(requests, [entry]);
    assert PaidCount([entry]) == 0 by {
      assert [entry][1..] == [];
    }
  }

  /** Settling one pending entry raises the paid count by exactly one. */
  lemma {:induction false} SettleAddsOnePaid(requests: seq<PaymentRequest>, k: nat)
    requires k < |requests| && requests[k].status == Pending
    ensures PaidCount(Settle(requests, k)) == PaidCount(requests) + 1
  {
    var settled := Settle(requests, k);
    if k > 0 {
      assert settled[1..] == Settle(requests[1..], k - 1);
      SettleAddsOnePaid(requests[1..], k - 1);
    } else {
      assert settled[1..] == requests[1..];
    }
  }

  /** Deleting entries never raises the paid count. */
  lemma {:induction false} WithoutRequestPaidCount(requests: seq<PaymentRequest>, requestId: RequestId)
    ensures PaidCount(WithoutRequest(requests, requestId)) <= PaidCount(requests)
  {
    if |requests| > 0 {
      WithoutRequestPaidCount(requests[1..], requestId);
      if requests[0].id != requestId {
        var rest := WithoutRequest(requests[1..], requestId);
        assert ([requests[0]] + rest)[1..] == rest;
      }
    }
  }

  /** The delete filter keeps relative order: filtering a concatenation filters each part
      and puts the survivors of the first part before those of the second. */
  lemma {:induction false} WithoutRequestConcat(a: seq<PaymentRequest>, b: seq<PaymentRequest>, requestId: RequestId)
    ensures WithoutRequest(a + b, requestId) == WithoutRequest(a, requestId) + WithoutRequest(b, requestId)
  {
    if |a| == 0 {
      assert a + b == b;
    } else {
      assert (a + b)[1..] == a[1..] + b;
      WithoutRequestConcat(a[1..], b, requestId);
    }
  }

  /** With no entry carrying `requestId`, the delete filter returns the list itself. */
  lemma {:induction false} WithoutAbsentRequest(requests: seq<PaymentRequest>, requestId: RequestId)
    requires !HasRequest(requests, requestId)
    ensures WithoutRequest(requests, requestId) == requests
  {
    if |requests| > 0 {
      assert !HasRequest(requests[1..], requestId) by {
        forall j | 0 <= j < |requests[1..]|
          ensures requests[1..][j].id != requestId
        {
          assert requests[1..][j] == requests[j + 1];
        }
      }
      WithoutAbsentRequest(requests[1..], requestId);
      assert requests == [requests[0]] + requests[1..];
    }
  }

  /** With unique ids, the id of the first entry occurs nowhere else. */
  lemma UniqueHeadId(requests: seq<PaymentRequest>)
    requires UniqueIds(requests) && |requests| > 0
    ensures !HasRequest(requests[1..], requests[0].id)
    ensures UniqueIds(requests[1..])
  {
  }

  /** With unique ids, deleting the id of entry `k` removes that entry and nothing else;
      the entries before and after it keep their order. */
  lemma {:induction false} WithoutUniqueRequest(requests: seq<PaymentRequest>, k: nat)
    requires UniqueIds(requests) && k < |requests|
    ensures WithoutRequest(requests, requests[k].id) == requests[..k] + requests[k + 1..]
  {
    var id := requests[k].id;
    UniqueHeadId(requests);
    if k == 0 {
      WithoutAbsentRequest(requests[1..], id);
    } else {
      assert requests[0].id != id by {
        assert requests[0].id != requests[k].id;
      }
      var tail := requests[1..];
      WithoutUniqueRequest(tail, k - 1);
      assert tail[k - 1] == requests[k];
      assert tail[..k - 1] + tail[k..] == requests[1..k] + requests[k + 1..];
      assert [requests[0]] + requests[1..k] == requests[..k];
    }
  }

  /** Dropping one entry from a list with unique ids keeps the ids unique. */
  lemma DropKeepsUniqueIds(requests: seq<PaymentRequest>, k: nat)
    requires UniqueIds(requests) && k < |requests|
    ensures UniqueIds(requests[..k] + requests[k + 1..])
  {
  }

  /** Appending an entry with an unused id keeps the ids unique. */
  lemma AppendFreshKeepsUniqueIds(requests: seq<PaymentRequest>, entry: PaymentRequest)
    requires UniqueIds(requests) && !HasRequest(requests, entry.id)
    ensures UniqueIds(requests + [entry])
  {
  }
}
