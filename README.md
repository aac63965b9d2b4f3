# Payment requests and door unlocking (door2life backend)

This project models the payment-request handlers of the door2life backend's
message controller. A resident (the requester) asks another resident (the
recipient) for a payment. The request is kept on the requester's user
document as an entry of `paymentRequests`, with an id, the recipient, an
amount and a status (`pending` or `paid`). Marking a request paid counts
every paid entry of the requester, across all recipients. For each door `i`
in 1..14 whose threshold `8 * i` that count reaches, it opens
`doorStatus[i]`.

The model has three modules:

- `DoorUnlock` (`door_unlock.dfy`): the door table and the unlock rule.
  `UnlockDoors` is the table the unlock loop leaves behind. Lemmas state the
  per-door rule, that no door closes, that the opened doors form the prefix
  1..min(14, paidCount / 8), and that recomputing is idempotent.
- `PaymentLedger` (`payment_ledger.dfy`): the entries of `paymentRequests`
  and the list operations the handlers use. These are the `find` that picks
  the entry to settle, the paid count and the delete filter. Lemmas state
  how these interact.
- `MessageController` (`message_controller.dfy`): the user store as a class
  over `map<UserId, User>`, with one method per handler. A handler loads the
  requester's record, edits the loaded copy and writes it back. Each method
  states the 404 cases, where nothing changes, and the exact new record in
  the success case. Each method keeps two store invariants:
  - `Valid`: request ids are unique within a user.
  - `DoorsCoverPayments`: every door earned by a user's current paid count is open.

The controller has no acknowledgement step, no mirror list on the
recipient's record, no per-request door, no check for a duplicate active
request and no validation of the amount. The model has none of these either.
The paid count covers all recipients, and deleting a request changes only the
requester's list.

## Model

| member | source | states |
|---|---|---|
| `DoorUnlock.UnlockDoors` | Controllers/message-Controller/messageController.js:92-97 | every door in 1..14 whose threshold the paid count reaches reads open; every other slot (not earned, or outside 1..14) keeps its presence and value |
| `DoorUnlock.DoorRule` | Controllers/message-Controller/messageController.js:93-97 | for door `i` in 1..14: open afterwards iff open before or `paidCount >= 8 * i` |
| `DoorUnlock.UnlockIsMonotone` | Controllers/message-Controller/messageController.js:93-97 | no open door is closed; slots outside 1..14 are untouched |
| `DoorUnlock.UnlockedPrefix` | Controllers/message-Controller/messageController.js:93-97 | doors 1..min(14, paidCount / 8) are open afterwards; any door that opens lies in that prefix |
| `DoorUnlock.UnlockIsIdempotent` | Controllers/message-Controller/messageController.js:88-97 | running the rule twice with the same count equals running it once (the table is recomputed from the count) |
| `DoorUnlock.UnlockGrowsWithCount` | Controllers/message-Controller/messageController.js:93-97 | a larger paid count opens at least the doors a smaller one opens |
| `PaymentLedger.FindPending` | Controllers/message-Controller/messageController.js:71-79 | the result is the first index whose entry passes the `find` test `IsPendingFor` (names the recipient and is pending); None iff no entry does |
| `PaymentLedger.Settle` | Controllers/message-Controller/messageController.js:82 | entry `k` becomes paid with its id, recipient and amount kept; the length and every other entry are unchanged |
| `PaymentLedger.PaidCount` | Controllers/message-Controller/messageController.js:88-90 | the paid count never exceeds the list length |
| `PaymentLedger.WithoutRequest` | Controllers/message-Controller/messageController.js:122-128 | the filtered list is never longer than the list, and is shorter iff some entry had id `requestId` (the 404 test of the handler) |
| `PaymentLedger.WithoutRequestMembers` | Controllers/message-Controller/messageController.js:122-124 | the filtered list holds exactly the entries whose id differs from `requestId` |
| `PaymentLedger.PaidCountConcat` | Controllers/message-Controller/messageController.js:88-90 | the paid count of a concatenation is the sum of the counts of its parts |
| `PaymentLedger.AppendPendingKeepsPaidCount` | Controllers/message-Controller/messageController.js:20-24 | pushing a pending entry leaves the paid count unchanged |
| `PaymentLedger.AppendFreshKeepsUniqueIds` | Controllers/message-Controller/messageController.js:20-24 | pushing an entry with an unused id keeps ids unique |
| `PaymentLedger.SettleAddsOnePaid` | Controllers/message-Controller/messageController.js:82-90 | setting one pending entry to paid raises the paid count by exactly one |
| `PaymentLedger.WithoutRequestPaidCount` | Controllers/message-Controller/messageController.js:122-124 | deleting entries never raises the paid count |
| `PaymentLedger.WithoutRequestConcat` | Controllers/message-Controller/messageController.js:122-124 | the delete filter keeps relative order: it distributes over concatenation |
| `PaymentLedger.WithoutAbsentRequest` | Controllers/message-Controller/messageController.js:122-128 | when no entry has the id, the filter returns the list itself |
| `PaymentLedger.WithoutUniqueRequest` | Controllers/message-Controller/messageController.js:122-131 | with unique ids, deleting entry `k`'s id yields exactly the list without position `k`, the rest in order |
| `PaymentLedger.DropKeepsUniqueIds` | Controllers/message-Controller/messageController.js:131 | removing one position from a list with unique ids keeps them unique |
| `MessageController.UserStore.RequestPayment` | Controllers/message-Controller/messageController.js:10-32 | missing requester or recipient: 404 and the store unchanged; otherwise only the requester's record changes, by appending `{newId, recipient, amount, pending}` after the unchanged old entries; reply 201 with the saved record; paid count and the two invariants kept |
| `MessageController.UserStore.GetPayment` | Controllers/message-Controller/messageController.js:43-52 | 404 iff the user is unknown; otherwise 200 with the user's stored list |
| `MessageController.UserStore.MarkAsPaid` | Controllers/message-Controller/messageController.js:64-105 | missing requester, or no entry pending for the recipient: 404 and the store unchanged; otherwise `Settle` applies to the entry `FindPending` returns, the first one passing `IsPendingFor` (length, order and other entries kept), the paid count rises by one, the door table becomes `UnlockDoors` of the old table and the new count, the reply carries that table, and every earned door is open |
| `MessageController.UserStore.DeletePaymentRequest` | Controllers/message-Controller/messageController.js:116-135 | missing requester, or no entry with that id: 404 and the store unchanged; otherwise the requester's list becomes the filtered list (door table kept), exactly one entry shorter; the two invariants are kept |

## Left out

- Controllers/User-controller/userController.js and Routes/User-router/userRouter.js: profile CRUD, password hashing and routing are not part of this model.
- The user schema (`models/user-model`) is not part of this model. User fields other than `paymentRequests` and `doorStatus` are left out. `doorStatus` is modelled as a table from integer to boolean, where a missing slot reads as locked.
- `populate("paymentRequests.recipient", …)` in `getPayment` is a database join. `GetPayment` returns the stored list with recipient ids.
- The `try/catch` paths that answer 500, and the console logging.
- The two `save` calls in `markAsPaid` are modelled as one atomic step. A crash between them, and concurrent handlers on the same user, are not modelled.
- Id comparisons through `toString()` are plain equality of integer ids. The subdocument id the database assigns on `push` is a parameter of `RequestPayment`. It must be unused in that requester's list, because the database generates fresh ids.
- `amount` is an unbounded integer. It is stored without validation, as in the controller. JavaScript numbers that are fractional or not numbers at all are not modelled.
- `RequestPayment`: when requester and recipient are the same user, that one record is the one that changes. The model allows this, as the controller does.
