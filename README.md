# Delivery-partner order assignment, modelled in Dafny

This project models the delivery-partner controller of a food/goods delivery
backend: how a courier ("delivery partner") changes presence, edits the
profile, pulls a batch of ready orders, and accepts or rejects an order bound
to it. The MongoDB store is modelled as a class `Controller.DeliveryStore`
holding two in-memory tables, `partners: map<PartnerId, Partner>` and
`orders: map<OrderId, Order>`, plus `storageOrder`, the natural order in
which the order collection yields documents. Each request handler is one
method of that class, run as one sequential step.

Files:

- `wrappers.dfy` (module `Wrappers`): `Option`, `Result`.
- `records.dfy` (module `Records`): the Partner and Order records, presence
  and order statuses, the error answers. An order's `deliveryPartner` is
  three-valued: `Absent` (field missing), `Null` (what a rejection writes) or
  `Bound(pid)`.
- `queries.dfy` (module `Queries`): the store queries as functions. The
  assignment filter (`Eligible`), the `find(filter).limit(n)` scan
  (`Candidates`) with its reference definition (`EligibleIds`, first `n`),
  the `$pull` list update (`Pull`), the same-day count (`TodayOrders`) and the
  phone lookup (`PhoneHeldByOther`).
- `linkage.dfy` (module `Linkage`): `Linked`, the agreement between the two
  tables. A partner's `assignedOrders` lists exactly the orders bound to it,
  each once. Lemmas show which updates keep it.
- `controller.dfy` (module `Controller`): the class and its handlers.

Every handler's `ensures` states the whole new state of both tables, on
every path. It also states `old(Valid()) ==> Valid()`, where `Valid` is the
store invariant: storage order without repeats and matching the order table,
and `Linked`.

Behaviour kept as the code has it, including where it looks unintended:

- A rejected order gets `deliveryPartner: null`. The assignment query asks for
  the field to be missing (`$exists: false`), which a null does not satisfy.
  So a rejected order is NOT offered again by `assignAvailableOrders`
  (`RespondToOrder` ensures `!Eligible(orders[oid])`).
- `updateLastActive`, `toggleOnlineStatus` and `updateDeliveryPartnerProfile`
  do not answer not-found for an unknown partner. `findByIdAndUpdate` matches
  nothing and the handler answers success with a null record. The model
  returns `None` inside a success and changes nothing.
- Rejecting leaves `currentOrder` as it was, even when it named the rejected
  order. Accepting does not look at the order's status, so accepting an order
  twice counts it twice.
- In `updateLastActive`, the status name is applied after the boolean. Online
  or offline overrides `isOnline`; `busy` leaves `isOnline` as the boolean
  (or the record) had it. When both are given and disagree, both
  `lastOnlineAt` and `lastOfflineAt` can end up set to now.

## Model

| member | source | states |
|---|---|---|
| Records.ParseOnlineStatus | src/controllers/deliveryPartner/deliveryPartner.controller.js:159 | only the names online, offline and busy are recognised, each as its own status; any other string is ignored |
| Records.Supplied | src/controllers/deliveryPartner/deliveryPartner.controller.js:31-42 | a name or phone counts as supplied only when present and non-empty (JavaScript truthiness): a missing field and the empty string are both "not supplied" |
| Queries.Eligible | src/controllers/deliveryPartner/deliveryPartner.controller.js:295-298 | the assignment filter: an order whose `deliveryPartner` is null or a partner id is never eligible (`$exists: false`, which a null does not satisfy), nor one that is not ready or is urgent |
| Queries.Candidates | src/controllers/deliveryPartner/deliveryPartner.controller.js:295-299 | the scan returns at most `n` ids, each in the collection, present in the order table, with status ready, no `deliveryPartner` field and not urgent |
| Queries.EligibleIdsMembers | src/controllers/deliveryPartner/deliveryPartner.controller.js:295-298 | an id passes the filter exactly when it is in the collection and its order is ready, unbound (field missing) and not urgent |
| Queries.CandidatesAreFirstEligible | src/controllers/deliveryPartner/deliveryPartner.controller.js:295-299 | `find(...).limit(n)` returns exactly the first `n` eligible orders in the collection's natural order |
| Queries.CandidatesCap | src/controllers/deliveryPartner/deliveryPartner.controller.js:299 | the batch has size min(n, number of eligible orders); a batch shorter than `n` leaves no eligible order behind (8 eligible gives exactly 5) |
| Queries.CandidatesEmpty | src/controllers/deliveryPartner/deliveryPartner.controller.js:301-305 | the batch is empty if and only if the limit is zero or no order in the collection is eligible |
| Queries.CandidatesDistinct | src/controllers/deliveryPartner/deliveryPartner.controller.js:308 | a collection without repeated ids gives a batch without repeated ids |
| Queries.Pull | src/controllers/deliveryPartner/deliveryPartner.controller.js:390 | `$pull` removes every occurrence of the id and nothing else: the multiset of the result is the old one with that id's count set to zero |
| Queries.PullAbsent | src/controllers/deliveryPartner/deliveryPartner.controller.js:390 | pulling an id the list does not hold leaves the list unchanged |
| Queries.PullAppend | src/controllers/deliveryPartner/deliveryPartner.controller.js:390 | pulling distributes over concatenation, so the survivors keep their relative order |
| Queries.PullDistinct | src/controllers/deliveryPartner/deliveryPartner.controller.js:390 | pulling keeps a list free of repeated ids |
| Queries.TodayOrders | src/controllers/deliveryPartner/deliveryPartner.controller.js:259-262 | the count is the number of orders bound to the partner and created at or after the day start, and never exceeds the number of orders |
| Queries.TodayOrdersAdd | src/controllers/deliveryPartner/deliveryPartner.controller.js:256-262 | one more order raises the count by one exactly when it is bound to the partner and created on or after the day start; orders of the day before, or of another partner, are not counted |
| Queries.PhoneUpdateKeepsUnique | src/controllers/deliveryPartner/deliveryPartner.controller.js:41-58 | a profile update that passed the "phone held by another partner" check keeps phone numbers unique across partners |
| Queries.PhoneHeldByOther | src/controllers/deliveryPartner/deliveryPartner.controller.js:43-46 | the phone lookup with `_id: {$ne: pid}` excludes the caller only: a partner keeping its own phone never clashes (when phones are unique), and an unknown caller clashes with any partner holding the phone |
| Controller.Claimed | src/controllers/deliveryPartner/deliveryPartner.controller.js:310-317 | the `updateMany` update document: binds the order to the caller, marks it assigned and stamps `assignedAt`, changes no other field, and leaves the order no longer eligible for assignment |
| Linkage.PartnerUpdateKeepsLinked | src/controllers/deliveryPartner/deliveryPartner.controller.js:211-215 | rewriting presence, profile or counters of a partner without touching `assignedOrders` keeps the two tables linked |
| Linkage.OrderUpdateKeepsLinked | src/controllers/deliveryPartner/deliveryPartner.controller.js:366-369 | rewriting an order's status or timestamps without touching its `deliveryPartner` keeps the tables linked |
| Linkage.AssignKeepsLinked | src/controllers/deliveryPartner/deliveryPartner.controller.js:308-326 | binding distinct, previously unbound orders to one partner and appending exactly those ids to its list keeps the tables linked, with no id listed twice |
| Linkage.RejectKeepsLinked | src/controllers/deliveryPartner/deliveryPartner.controller.js:382-392 | writing a null partner into an order and pulling its id from its partner's list keeps the tables linked |
| Controller.DeliveryStore.UpdateProfile | src/controllers/deliveryPartner/deliveryPartner.controller.js:26-63 | fails with no change when neither name nor phone is supplied (empty strings count as not supplied) or when another partner holds the phone; otherwise sets exactly the supplied fields; an unknown partner gives success with no record; keeps phone numbers unique and the store valid |
| Controller.DeliveryStore.UpdateLastActive | src/controllers/deliveryPartner/deliveryPartner.controller.js:136-179 | stamps lastActive; the boolean sets isOnline, status and the online/offline timestamps; a recognised status name then overrides the status, and for online/offline also isOnline and its own timestamp; busy keeps isOnline; no other field changes; an unknown partner changes nothing |
| Controller.DeliveryStore.ToggleOnlineStatus | src/controllers/deliveryPartner/deliveryPartner.controller.js:182-220 | any action other than go_online/go_offline fails with no change; go_online gives isOnline, status online, lastOnlineAt now, lastOfflineAt null; go_offline gives the opposite and clears currentOrder; nothing else changes |
| Controller.DeliveryStore.AssignAvailableOrders | src/controllers/deliveryPartner/deliveryPartner.controller.js:283-339 | fails with MustBeOnline and no change when the partner is missing or offline; an empty batch changes nothing; otherwise each chosen order is bound to the caller, assigned and stamped, other orders are unchanged, the batch is appended to assignedOrders in order and its first id becomes currentOrder; the store stays valid |
| Controller.DeliveryStore.RespondToOrder | src/controllers/deliveryPartner/deliveryPartner.controller.js:342-398 | a bad action fails before any lookup; a missing order and one bound to someone else give the same NotFound, with no change; accept marks the order accepted, adds exactly 1 to totalAccepted and sets currentOrder, leaving the list and totalRejected; reject writes a null partner, status ready and a null assignedAt, pulls the id, adds exactly 1 to totalRejected and leaves currentOrder; the store stays valid |
| Controller.DeliveryStore.DashboardData | src/controllers/deliveryPartner/deliveryPartner.controller.js:242-280 | NotFound exactly when the partner is missing; otherwise the partner's presence, current order and counters, and the number of its orders created at or after the day start |

## Left out

- HTTP plumbing: `asyncHandler`, response envelopes and status codes (kept only as the `Error` cases), and `.select` / `.populate` projections. `DashboardData` reports the current order's id, not the expanded order.
- The read-only getters `getDeliveryPartnerProfile`, `getDocumentStatus`, `getDeliveryStatistics`, `getOnlineStatus` and `getAssignedOrders`: they only read one record through a projection.
- `uploadDocument`: it checks its two fields and the document type but stores nothing.
- Request validation schemas, route wiring and authentication (JWT, role check). The handlers take the caller's partner id as a parameter. A request field of the wrong JavaScript type is modelled as absent (`None`).
- Mongoose schema validators run by `runValidators` on the profile update: the schema is not part of this model.
- The clock: each `new Date()` is the parameter `now`, one value per request. The source reads the clock several times per request, and the readings may differ by milliseconds.
- Local-midnight computation for the dashboard (`setHours`): the day start is the parameter `dayStart`.
- Concurrency and atomicity: two concurrent assignment calls can claim the same order, and a failure between the order update and the partner update leaves them out of step. Each handler is modelled as one uninterrupted step.
- MongoDB's natural result order is the `storageOrder` field. No sort order is modelled.
- Store failures (the generic 500 answer) are not modelled.
- Controller.DeliveryStore.RespondToOrder: an `orderId` that is not a well-formed ObjectId makes the store's lookup fail with a cast error, which goes to the generic error answer; the model treats ids as plain strings, so it answers NotFound for such an id, as for an unknown one.
- Controller.DeliveryStore.AssignAvailableOrders: answers with the claimed ids, not the re-read, projected order documents. Its ensures states what the store then holds for those ids.
