# Proofs about the Composery control plane

A Dafny 4.11 model of the Convex control plane in `packages/web/convex`, and proofs
of what it keeps. `dafny verify dfyconfig.toml` checks everything.

## How the program is modelled

Every `internalMutation` is one atomic step over tables. A table is the sequence of
its rows in creation order, an id is a position, a removed row leaves a hole, and an
index read is a selection in that order (or, where the index is ordered by something
else, in any order that lists every row once). Actions, crons and webhooks become
arbitrary interleavings of steps: `Exec` runs any sequence of actions, and an action
that is not possible changes nothing. Theorems are about every such sequence.

Where the source changes rows in place, a class holds the tables as fields and its
methods patch them one row at a time, with the source's loops and early returns; each
method is proved to do exactly what the step's function says, and the theorems are
about the functions.

| file | what it models |
|---|---|
| `Tables`, `Vocabulary`, `Store` | index reads; plans, statuses and operations; the rows of the checkout protocol |
| `SlugAvailability`, `Capacity`, `Operations` | who holds a slug, what one more box costs, operations as far as both depend on them |
| `Checkout`, `CheckoutInvariant`, `CheckoutSteps` | reserve, attach, release, record, convert - and what each keeps |
| `CapacityDeltas` | what conversions and snapshot transactions do to the snapshot commitments |
| `Admission`, `CheckoutAnswers`, `OperationAnswers`, `OrderAnswers` | what each transaction answers and writes, told from the tables before and after |
| `Webhooks`, `CheckoutRuns`, `OrderVerdicts`, `CheckoutFinality` | the whole protocol as one machine, and the theorems over its runs |
| `LateAttach`, `OrderScenarios` | exactly when a late session changes a verdict, and concrete runs |
| `CheckoutTables`, `WebhookHandlers` | the same mutations and handlers as the program performs them |
| `CapacityAlert` | the alert stored on the settings row |
| `Snapshots`, `SnapshotEviction`, `SnapshotRetention`, `SnapshotSupersede`, `SnapshotAnswers`, `SnapshotTable` | admission and eviction, the retention sweep, the supersede pass |
| `AutoRepair`, `RepairDecisions` | the automatic repair limiter, and exactly when it repairs |
| `Drains`, `LegalNotice`, `AccountDeletion`, `BoxCleanup` | walks and drains that schedule themselves again |
| `Configuration`, `InstanceAuth` | the configuration round trip; one-time codes, grants and passwords |

## What the proofs found

Some things one would expect do not hold of the code. For each there is a lemma with a
concrete run or step, and a lemma that says exactly when it does hold.

- A Polar session attached to a reservation after an order of it arrived can make the
  next delivery of that order refuse and refund, though its box already exists
  (`LateAttachRefundsADeliveredBox`); if and only if the attach does not stand clear of
  the order, which for a recorded order means another session
  (`LateAttachFlipsTheVerdict`, `AttachMovesAnOrderExactly`).
- `account/deletion.ts:139-141` says a payment completing after an account deletion must
  not become a box. It does become one when the reservation had lapsed before the
  deletion (`DeletedAccountGetsABox`, `AccountDeletionStopsConversionExactly`); the
  same is true of a full refund (`RefundedOrderGetsABox`,
  `FullRefundStopsConversionExactly`).
- A capture that goes on after it was marked failed adds a snapshot that no admission
  made room for (`RevivedCaptureBreaksTheCap`); the cap holds all through a run if and
  only if no such capture goes on while its box stands at the cap (`CapHoldsExactly`).
- A retention sweep that stops after its claim and before scheduling the deletes leaves
  rows no later sweep looks at (`StoppedSweepStrands`); they stay so exactly until
  something else schedules their delete (`StrandedExactly`).
- `notice/legal.ts:171` tells the reader to re-run the sweep for recipients whose mail
  failed. A finished notice does nothing, and failed recipients already have their row,
  so no re-run ever sends to them (`ReRunsTellNobody`); an account can still be told if
  and only if its mail has not failed (`ReRunsReachExactly`).
- An automatic repair can start inside the quiet window of a person whose operation
  began after the sweep had read its facts and settled before it started
  (`RepairOnTopOfTheOwner`, `QuietWindowExactly`).
- A password accepted while an operation applying an older one is open is overwritten
  when that operation ends (`NewerPasswordIsLost`, `SurvivesExactly`).
- The bound the snapshot plan puts on its own evictions never decides
  (`AutomaticAdmission`), and the two alert branches marked unreachable are
  (`DeadBranches`).

## Assumptions

Mutations are serialisable and ids are never reused. Ids, digests and URLs are numbers.
The clock that stamps `created_at` does not run backwards, so creation order is
`created_at` order. Polar delivers an order with the same facts each time, names no
reservation that does not exist yet, and sends the orders of one checkout with the same
metadata, so they name the same reservation; `Orderly` states this, and the one thing
the program does not see to: that an attach stands clear of the orders that arrived
before it, as one made before any of them does.
Steps of an operation's workflow run only while the operation is open. Sweeps of one
box do not overlap. A Clerk id is not issued twice. No box that starts out deleted has
a password stored.

## Model

| member | source | states |
|---|---|---|
| Vocabulary.LiveStatusesListed | packages/web/convex/boxes/slugAvailability.ts:12-13 | the statuses that occupy a slug are all but `deleted`, each listed once |
| Vocabulary.ValidSlugExactly | packages/web/convex/model/box/slug.ts:64-78 | a slug is valid exactly when it has 3 to 63 lower-case letters, digits and hyphens, no hyphen at either end, no punycode prefix, and is not kept back |
| SlugAvailability.TakeTwoFindsAnother | packages/web/convex/boxes/slugAvailability.ts:26-28 | reading two rows and skipping the ignored one misses nobody: it finds no one exactly when every match is the ignored row |
| SlugAvailability.BoxLookupExact | packages/web/convex/boxes/slugAvailability.ts:15-32 | the bounded box lookup finds nobody exactly when no live box but the ignored one has the slug |
| SlugAvailability.OperationLookupExact | packages/web/convex/boxes/slugAvailability.ts:49-72 | the same of operations that reserve the slug |
| SlugAvailability.AvailableExactly | packages/web/convex/boxes/slugAvailability.ts:92-102 | while no slug has two owners, the bounded lookups together answer exactly: valid, and held by nobody but the ignored ones |
| CheckoutRuns.SlugsAreExclusive | packages/web/convex/boxes/slugAvailability.ts:74-102 | in every reachable state a slug has one owner at most among live boxes, active reservations and renames, and the lookups decide availability exactly |
| Capacity.AvailableExactlyWhenOneFits | packages/web/convex/boxes/capacity.ts:137-214 | checkout is available exactly when it is enabled, configured and at least one more box fits; a limit blocks exactly when configured and none fits |
| Capacity.AdmissionLeavesRoom | packages/web/convex/boxes/capacity.ts:128-214 | an admitted box fits the server, snapshot and certificate allowances at once, whichever plan is then bought, the recovery reserve untouched |
| Capacity.ReservedSnapshotCommitments | packages/web/convex/boxes/capacity.ts:240-279 | the loop over rows with its map and counter computes the specified commitments |
| Capacity.CommitmentsClosedForm | packages/web/convex/boxes/capacity.ts:240-279 | commitments are, over live boxes, the larger of slots and active rows, plus inactive rows holding an image, plus active rows of other boxes, plus the slots of open checkouts |
| CapacityDeltas.CommitmentsByTable | packages/web/convex/boxes/capacity.ts:240-318 | the commitments the capacity check reads are sums over the rows, the live boxes and the open reservations, the same in whatever order the index reads list them and at whatever time |
| CapacityDeltas.PatchedRowCost | packages/web/convex/boxes/capacity.ts:240-279 | what the change or removal of any one snapshot row costs: what it counts, and what it leaves of its box's slots, for live boxes and boxes that are gone |
| CapacityDeltas.BeginCost | packages/web/convex/boxes/snapshots.ts:327-355 | on the snapshot table, beginning a capture inside its box's slots leaves commitments unchanged, beyond them it costs one; the evictions it schedules cost nothing yet |
| CapacityDeltas.ProgressCost | packages/web/convex/boxes/snapshots.ts:357-414 | announcing an image and completing a capture leave commitments unchanged, for any box |
| CapacityDeltas.RevivalCost | packages/web/convex/boxes/snapshots.ts:357-373 | going on with a failed capture costs one exactly when its box has no slot left, less the image it still counted |
| CapacityDeltas.FailCost | packages/web/convex/boxes/snapshots.ts:416-429 | a failing capture costs the image it had announced, less one when its box was beyond its slots |
| CapacityDeltas.ClaimThenRemoveCost | packages/web/convex/boxes/snapshots.ts:607-639 | claiming a row costs its image while the provider still has it and removing it gives that back; together nothing inside the box's slots, minus one beyond them |
| CapacityDeltas.ConversionMovesSlots | packages/web/convex/checkout/checkoutConversion.ts:171-195 | the commitments after a conversion that makes a box are those before it, less the slots the reservation held if it was active, plus the slots of the plan sold |
| CapacityDeltas.ConversionKeepsCommitments | packages/web/convex/checkout/checkoutConversion.ts:171-195 | an active reservation sold as the plan it reserved changes no commitment |
| Capacity.LiveBoxListing | packages/web/convex/boxes/capacity.ts:285-292 | reading the boxes status by status lists every live box exactly once |
| Capacity.AdmissionBound | packages/web/convex/boxes/capacity.ts:281-328 | when the tables say checkout is available, one more promised server is within the limit |
| Admission.CertificatesCounted | packages/web/convex/boxes/capacity.ts:216-238 | on the tables, the certificate count is of the create, reset, rename and restore operations of the seven days up to now, each once |
| Admission.StartCounts | packages/web/convex/boxes/operation/start.ts:193-212 | starting an operation raises that count by one exactly if it needs a certificate and until a week has passed |
| Admission.AdmitsExactly | packages/web/convex/boxes/capacity.ts:137-214 | on the tables: a box is admitted if and only if checkout is on, all limits are set, and one more server, the slots of either plan, and a certificate for it and for each open reservation beside the reserve of ten are within them |
| Admission.BlockedExactly | packages/web/convex/boxes/capacity.ts:182-200 | on the tables, each block reason by its own cause: a pause, a limit not set, then servers, snapshots and certificates in that order |
| Admission.AvailableCountExactly | packages/web/convex/boxes/capacity.ts:171-180 | the number of boxes reported is the most that fit all three limits at once as the largest plan; recovery may go into the reserve |
| CapacityAlert.ReconcileSettles | packages/web/convex/boxes/capacity.ts:336-410 | after a reconcile the stored reason is the current block, and repeating it changes nothing and raises nothing |
| CapacityAlert.ReconcilesExactly | packages/web/convex/boxes/capacity.ts:344-410 | what a reconcile makes of the row, case by case: the same block is silent, a new one is alerted from now, an end is alerted with its reason and start unless a limit was taken away while checkout is on |
| CapacityAlert.RecoveriesAnswerTheirBlock | packages/web/convex/boxes/capacity.ts:358-410 | in every trace each recovered alert carries the reason and start of the blocked alert just before it |
| CapacityAlert.DeadBranches | packages/web/convex/boxes/capacity.ts:344-373 | the two branches kept for the type checker cannot be reached |
| CapacityAlert.SettingsTable.ReconcileCapacityAlert | packages/web/convex/boxes/capacity.ts:358-410 | patching the settings row in place performs exactly the specified transition, its unreachable branches asserted so |
| CheckoutInvariant.ReserveUnfolds | packages/web/convex/checkout/checkoutIntents.ts:192-280 | under the maximum, a reservation is refused or resumed without a trace, or releases exactly the oldest rows in its way and appends one |
| CheckoutInvariant.ReleasingOldest | packages/web/convex/checkout/checkoutIntents.ts:249-265 | releasing the oldest n of a user's active reservations leaves exactly the rest |
| CheckoutInvariant.ReservationKeepsTheCap | packages/web/convex/checkout/checkoutIntents.ts:79-95 | a new reservation leaves its user within the cap and the range error is not thrown |
| CheckoutAnswers.ReserveAnswersExactly | packages/web/convex/checkout/checkoutIntents.ts:192-247 | which way a reservation goes: its holder is handed it back; otherwise refused exactly when the slug is invalid or held, then exactly when no box fits |
| CheckoutAnswers.ReservedRowIsAsked | packages/web/convex/checkout/checkoutIntents.ts:248-279 | the new row is the asked user, slug and plan, active, unpaid and unattached for an hour; its user now holds the slug by it; exactly the oldest in its way end |
| CheckoutAnswers.NewRowIsNotSwept | packages/web/convex/checkout/checkoutIntents.ts:46 | no expiry sweep takes a new reservation before its grace is over |
| CheckoutAnswers.ReservationCommits | packages/web/convex/checkout/checkoutIntents.ts:248-279 | a reservation raises the snapshot commitments by the slots of the plan asked for, less those of the reservations that yield |
| CheckoutInvariant.ReserveKeepsSound | packages/web/convex/checkout/checkoutIntents.ts:192-280 | a reservation keeps the checkout invariant |
| CheckoutInvariant.QuietKeepsSound | packages/web/convex/checkout/checkoutIntents.ts:101-120 | any patch that holds nothing new, every kind of release among them, keeps the checkout invariant |
| CheckoutSteps.StartOperationKeepsSound | packages/web/convex/boxes/operation/start.ts:141-212 | starting an operation keeps one operation a box and one owner a slug |
| CheckoutSteps.SwapSlugKeepsSound | packages/web/convex/boxes/operation/record.ts:381-423 | committing a rename, with its own reservation not in its way, gives no slug a second owner |
| OperationAnswers.RenamesExactly | packages/web/convex/boxes/operation/record.ts:381-423 | a rename is committed exactly when its operation is open and the slug is valid and held by nobody but its box and itself |
| CheckoutSteps.ConversionUnfolds | packages/web/convex/checkout/checkoutConversion.ts:113-217 | a conversion that makes a box makes it at the next id, only if active or admitted again and the slug is free, with its create operation; "operation already exists" is never reached |
| CheckoutAnswers.ConversionAnswersExactly | packages/web/convex/checkout/checkoutConversion.ts:113-217 | which way a conversion goes: one decided before answers as before; else refused for capacity exactly when neither active nor admitted, for the slug exactly when admitted and somebody else holds it or it is invalid, and a box otherwise |
| CheckoutAnswers.RefundNamesTheSale | packages/web/convex/checkout/checkoutConversion.ts:49-111 | a refusal hands back the order and subscription it was made for, under the row's own reason and id; nothing exactly when the row was refunded in full |
| CheckoutAnswers.BoxIsMade | packages/web/convex/checkout/checkoutConversion.ts:171-217 | the box is of the plan sold, on the subscription sold, for the account and slug reserved, its create operation open and stamped now; the row is closed on it |
| CheckoutSteps.ConvertKeepsSound | packages/web/convex/checkout/checkoutConversion.ts:113-217 | a conversion keeps the checkout invariant, refusals included |
| CheckoutSteps.GrantCompKeepsSound | packages/web/convex/staff/boxes.ts:411-447 | a granted box keeps the checkout invariant |
| CheckoutAnswers.GrantWrites | packages/web/convex/staff/boxes.ts:411-447 | staff grant a box exactly when the slug is valid and free, a box fits and the key is not in use; it is the account's, of that plan, without a subscription |
| CheckoutRuns.ApplyKeepsSound | packages/web/convex/checkout/checkoutIntents.ts:192-460 | every transaction on these tables keeps the checkout invariant |
| CheckoutRuns.RunsStaySound | packages/web/convex/checkout/checkoutIntents.ts:192-460 | the invariant holds after every run from a new deployment |
| CheckoutRuns.ReservationIsAPromise | packages/web/convex/checkout/checkoutConversion.ts:133-195 | in every run, paying for a reservation that is still active makes a box, whatever happened since it was made |
| CheckoutRuns.BoxesAreCounted | packages/web/convex/boxes/counts.ts:26-43 | in every run the counter equals the boxes inserted, no two reservations share a box, and only converted ones have one |
| CheckoutRuns.ReservationsStayUnderTheCap | packages/web/convex/checkout/checkoutIntents.ts:248-279 | in every run, caps lowered included, a reservation releases exactly the user's oldest, leaves at most the cap, and throws no range error |
| CheckoutRuns.StepPromises | packages/web/convex/boxes/capacity.ts:137-214 | no step promises a server unless admission says one is left, and then one only |
| CheckoutRuns.ServersStayWithinTheLimit | packages/web/convex/boxes/capacity.ts:137-214 | with a fixed server limit, live boxes and open reservations never exceed it in any run |
| CheckoutRuns.ResumableExactlyUntilSwept | packages/web/convex/checkout/checkoutIntents.ts:122-160 | an attached reservation is sent back to its session exactly while it is unpaid and the expiry sweep would not take it |
| CheckoutAnswers.AttachedIsResumed | packages/web/convex/checkout/checkoutIntents.ts:122-160 | a reservation attached to a session is sent back to exactly that session and link until it expires, unless it is paid |
| CheckoutAnswers.ReleaseByCheckoutEnds | packages/web/convex/checkout/checkoutIntents.ts:372-398 | a release by checkout ends the oldest reservation of it, if open, and no other |
| CheckoutAnswers.SweepEnds | packages/web/convex/checkout/checkoutIntents.ts:479-510 | the sweep ends as expired a hundred active reservations past a set time, or all there are, and no other |
| OrderVerdicts.OneVerdictPerOrder | packages/web/convex/billing/webhooks.ts:104-197 | in every orderly run, interleaved and re-delivered at will, several orders to a checkout or not, every delivery of an order ends in the same verdict: the same box or the same refund key |
| OrderAnswers.VerdictExactly | packages/web/convex/billing/webhooks.ts:104-197 | from the order and the tables: each verdict if and only if its own facts - no sale, no subscription, product not sold, no reservation, no terms, reservation taken - and a conversion's answer exactly otherwise |
| OrderAnswers.DeliveryStands | packages/web/convex/billing/webhooks.ts:104-197 | what a converted delivery answers is what the reservation paid for then says: its box, its refund reason, or that the money is back |
| OrderAnswers.DeliveryMakes | packages/web/convex/billing/webhooks.ts:152-197 | a box a delivery makes is of the plan and on the subscription of the order, for the account that reserved it, and the row keeps order, customer, checkout and terms |
| OrderAnswers.DeliveryRefuses | packages/web/convex/billing/webhooks.ts:152-197 | a refused delivery leaves the payment and the reason on the row and moves nothing else |
| OrderAnswers.EveryVerdictFits | packages/web/convex/billing/webhooks.ts:104-197 | in every run, late sessions included: no sale, no subscription and not sold each if and only if the order says so, a box only for an order with plan, checkout and terms and bound to a reservation to this day, refunds under their own order and facts |
| OrderAnswers.EveryDeliveryAnswers | packages/web/convex/billing/webhooks.ts:98-103 | no delivery is ignored: each is answered or put under way for the reservation it pays for, recorded or answered, and answered when converted |
| OrderAnswers.StepsWriteTheirOrder | packages/web/convex/billing/webhooks.ts:152-190 | in pieces, too, each step writes the payment of its own order and makes the box that order is for |
| OrderVerdicts.OneOrderPerReservation | packages/web/convex/checkout/checkoutIntents.ts:48-75 | in every orderly run a reservation is recorded for one order, subscription and checkout, whatever other orders its checkout delivers |
| OrderScenarios.SaleSucceeds | packages/web/convex/billing/webhooks.ts:104-197 | a concrete orderly run: reserve, pay, and the box is there |
| OrderScenarios.SecondOrderIsRefunded | packages/web/convex/checkout/checkoutIntents.ts:65-71 | a concrete orderly run: a second order of the same checkout is refunded as a mismatch, and the first keeps its box |
| OrderVerdicts.OrderlyRunsStaySound | packages/web/convex/billing/webhooks.ts:104-197 | every verdict given so far is explained by the row it was given of, and stays so |
| OrderVerdicts.AttachMovesAnOrderExactly | packages/web/convex/checkout/checkoutIntents.ts:285-311 | attaching a session leaves what a delivery of a sellable order comes to as it is if and only if it stands clear of that order: no match of checkouts made or unmade, no lookup redirected |
| OrderVerdicts.TimelyIsUndisturbing | packages/web/convex/checkout/checkoutIntents.ts:285-311 | a session attached before any order of its reservation or checkout arrived disturbs none |
| LateAttach.LateAttachFlipsTheVerdict | packages/web/convex/checkout/checkoutIntents.ts:285-311 | in every orderly run, a session attached after something came of an order makes its next delivery end differently if and only if the attach does not stand clear of it; of an order recorded on the reservation, if and only if the session is another one |
| OrderScenarios.LateAttachRefundsADeliveredBox | packages/web/convex/checkout/checkoutIntents.ts:285-311 | a concrete run: the box is delivered, another session is attached, and the same order delivered again is refunded |
| CheckoutFinality.DecisionsAreFinal | packages/web/convex/checkout/checkoutConversion.ts:133-141 | in every run from any reachable state no reservation becomes active again, a bound box stays bound, and an unfulfillable sale keeps its reason and gets no box |
| CheckoutFinality.RefusedForGood | packages/web/convex/checkout/checkoutConversion.ts:137-141 | a reservation refused for a reason the program refunds on answers every conversion after every further run with that reason, whoever pays, and nothing moves |
| CheckoutFinality.FullRefundStopsConversionExactly | packages/web/convex/billing/webhooks.ts:203-231 | after the release behind a full refund a conversion still makes a box if and only if the reservation had lapsed for another reason and still fits |
| OrderScenarios.RefundedOrderGetsABox | packages/web/convex/billing/webhooks.ts:203-231 | a concrete run: lapsed, paid late, refunded in full before the delivery converts - and the box is made |
| CheckoutFinality.AccountDeletionStopsConversionExactly | packages/web/convex/account/deletion.ts:139-154 | after an account deletion a payment still makes a box of that account if and only if the reservation had lapsed before and still fits |
| CheckoutFinality.DeletedAccountGetsABox | packages/web/convex/account/deletion.ts:139-154 | a concrete run: reserve, lapse, delete the account, pay - and a live box of the deleted account |
| CheckoutTables.Mutations.ReserveCheckoutIntent | packages/web/convex/checkout/checkoutIntents.ts:192-280 | lookups, releases in a loop and the insert perform exactly the specified transaction and keep the invariant |
| CheckoutTables.Mutations.ReleaseEach | packages/web/convex/checkout/checkoutIntents.ts:257-265 | patching listed rows one by one releases exactly those rows |
| CheckoutTables.Mutations.AttachPolarCheckout | packages/web/convex/checkout/checkoutIntents.ts:285-311 | one patch binds the session and its plan and keeps the invariant |
| CheckoutTables.Mutations.RecordPlan | packages/web/convex/checkout/checkoutIntents.ts:170-178 | a plan is written only on an open reservation, and nothing else moves |
| CheckoutTables.Mutations.ReleaseByCheckout | packages/web/convex/checkout/checkoutIntents.ts:372-398 | releases the oldest reservation of the checkout with the caller's status, and says so, if and only if it is open; otherwise nothing moves |
| CheckoutTables.Mutations.RecordInitialPaidOrder | packages/web/convex/checkout/checkoutIntents.ts:429-460 | records the order once, refuses mismatches without a trace, keeps the invariant |
| CheckoutTables.Mutations.MarkAccountDeletionPending | packages/web/convex/account/deletion.ts:120-159 | the loop releases every active reservation of the account and leaves none |
| CheckoutTables.Mutations.InsertBox | packages/web/convex/boxes/counts.ts:32-43 | row and counter rise together, the counter row created with the first box |
| CheckoutSteps.StartedIsAlone | packages/web/convex/boxes/operation/start.ts:141-212 | a started operation is the only one open on its box, and whoever holds the slug it reserves is that box |
| OperationAnswers.StartsExactly | packages/web/convex/boxes/operation/start.ts:141-180 | whether an operation starts, and the first thing in its way otherwise: no box, the same request open, another operation open, a status it may not begin from, a slug held by another |
| OperationAnswers.SettlesExactly | packages/web/convex/boxes/operation/record.ts:188-220 | an open operation ends once, as it went, and leaves its box in the status its outcome says, `deleted` only for a deletion that succeeded; one that is not open does not end again |
| OperationAnswers.NothingElseMeanwhile | packages/web/convex/model/box/operation.ts:75-260 | in the status an operation leaves a box in while it runs, nothing may begin but a deletion |
| CheckoutTables.Mutations.StartBoxOperation | packages/web/convex/boxes/operation/start.ts:141-212 | keeps the invariant; started, the operation is the only one open on its box and its slug the box's alone; refused, nothing moved |
| CheckoutTables.Mutations.RefuseSale | packages/web/convex/checkout/checkoutConversion.ts:84-111 | keeps the invariant; refused for a reason the program refunds on, the row answers every conversion after every further run the same way |
| CheckoutTables.Mutations.ConvertCheckoutIntentToBox | packages/web/convex/checkout/checkoutConversion.ts:113-217 | insert, patch and start in sequence perform exactly the specified conversion; its unreachable failure asserted so |
| WebhookHandlers.HandlePaidOrder | packages/web/convex/billing/webhooks.ts:104-197 | the handler with its early returns performs exactly decide, record, convert |
| WebhookHandlers.RedeliveryAgrees | packages/web/convex/billing/webhooks.ts:104-197 | delivering any order again, at any time, ends the same way and changes nothing |
| WebhookHandlers.HandleRefundedOrder | packages/web/convex/billing/webhooks.ts:203-231 | a full refund releases the reservation it finds and revokes exactly when it finds a reservation or a box |
| OrderAnswers.FullRefundEnds | packages/web/convex/billing/webhooks.ts:203-231 | a refund ends a reservation exactly when it is in full and of a subscription: the one the order names, or the oldest of its checkout, if open |
| WebhookHandlers.HandleUpdatedCheckout | packages/web/convex/billing/webhooks.ts:251-316 | an ending releases with its own reason and status, anything else moves the plan |
| OrderAnswers.UpdateMeans | packages/web/convex/billing/webhooks.ts:251-316 | what an update makes of the oldest reservation of the checkout, open or not: expired, released as failed, or moved to the plan now sold |
| OrderAnswers.UnknownUpdate | packages/web/convex/billing/webhooks.ts:251-316 | an update of a checkout nobody reserved moves nothing |
| Snapshots.ResolveSnapshotSplit | packages/web/convex/model/box/plan.ts:119-130 | the two halves of a split always make up the plan's whole allowance |
| SnapshotAnswers.SplitExactly | packages/web/convex/model/box/plan.ts:48-130 | Air keeps three daily snapshots; Pro has five slots and gives its owner two, or the number nearest to what they stored |
| SnapshotEviction.ValidCapsAreFollowed | packages/web/convex/model/box/plan.ts:144-148 | the manual caps an owner may store are exactly the ones the split follows as they are |
| SnapshotTable.CountActiveSnapshotsByClass | packages/web/convex/boxes/snapshots.ts:85-116 | the truncated count is the smaller of total and limit, and exact if and only if the total is below the limit |
| SnapshotTable.SnapshotCapacityPlanFor | packages/web/convex/boxes/snapshots.ts:152-209 | the plan is computed by the class's own allowance through the truncated count |
| SnapshotEviction.AutomaticAdmission | packages/web/convex/boxes/snapshots.ts:183-208 | a daily snapshot is admitted exactly when at most twice the cap are active and enough are complete; the bound on the evictions never decides |
| SnapshotEviction.NoSlotsNoSnapshot | packages/web/convex/boxes/snapshots.ts:183-208 | a cap of zero never inserts |
| SnapshotEviction.ManualAdmission | packages/web/convex/boxes/snapshots.ts:168-181 | manual admission refuses at the cap and evicts nothing |
| SnapshotAnswers.ReservedAdmission | packages/web/convex/boxes/snapshots.ts:152-167 | undo points and duplicates are always admitted and nothing gives way to them |
| SnapshotEviction.EvictionsAreOldest | packages/web/convex/boxes/snapshots.ts:118-137 | what is evicted is complete, of the inserted class and box, and older than every complete row that stays |
| SnapshotEviction.BeginLeavesTheCap | packages/web/convex/boxes/snapshots.ts:224-241 | one admission leaves at most the cap standing, whatever deletes are still pending |
| SnapshotEviction.StandingWithinTheCap | packages/web/convex/boxes/snapshots.ts:327-429 | in every run, standing daily snapshots are within the cap plus one for each failed capture that went on |
| SnapshotEviction.RollingEvictionHolds | packages/web/convex/boxes/snapshots.ts:327-429 | with each capture settling once, the cap itself holds in every run |
| SnapshotEviction.StepLeavesTheCapExactly | packages/web/convex/boxes/snapshots.ts:327-429 | from within the cap a step leaves it if and only if it goes on with a failed capture, nothing having scheduled its delete, of a box standing at its cap |
| SnapshotEviction.CapHoldsExactly | packages/web/convex/boxes/snapshots.ts:327-429 | a box stays within its cap all through a run if and only if no step of the run is such a revival |
| SnapshotEviction.RevivalAddsOne | packages/web/convex/boxes/snapshots.ts:357-414 | a capture that goes on after it failed adds exactly one, whatever its retention |
| SnapshotEviction.RevivedCaptureBreaksTheCap | packages/web/convex/boxes/snapshots.ts:357-373 | a concrete run in which it leaves two standing under a cap of one |
| SnapshotRetention.ClaimIsExact | packages/web/convex/boxes/snapshots.ts:698-736 | a claim holds at most its limit, each row once, each past a set expiry; reporting no more, it held every such row |
| SnapshotAnswers.ClaimExactly | packages/web/convex/boxes/snapshots.ts:698-736 | a claim marks exactly the rows it names and moves nothing else; those are expired, and all that are when it says there is no more |
| SnapshotAnswers.RoundStrandsNone | packages/web/convex/boxes/snapshots.ts:738-750 | a round that nothing interrupts schedules the delete of every row it claimed, and of no other |
| SnapshotAnswers.OnlyItsRow | packages/web/convex/boxes/snapshots.ts:357-429 | no capture step moves a row other than its own, nor its own once that is being deleted or gone |
| SnapshotAnswers.DeleteRuns | packages/web/convex/boxes/snapshots.ts:607-661 | a scheduled delete that runs to its end removes its row alone; one nothing scheduled does nothing |
| SnapshotRetention.SweepLeavesNone | packages/web/convex/boxes/snapshots.ts:731-734 | no more means none left |
| SnapshotRetention.DriveEnds | packages/web/convex/boxes/snapshots.ts:738-758 | the re-driven sweep ends with nothing left that had expired by its last round, whatever the clock does |
| SnapshotRetention.DriveIsShort | packages/web/convex/boxes/snapshots.ts:738-758 | it takes at most one more round for each full batch of rows |
| SnapshotRetention.SweepEndsAmidOthers | packages/web/convex/boxes/snapshots.ts:738-758 | with anything between its rounds, if the others only add so many rows, some round is the last, within one for each batch there was or came, and leaves nothing that had expired |
| SnapshotRetention.StrandedExactly | packages/web/convex/boxes/snapshots.ts:738-750 | a row claimed by a sweep that stopped before scheduling its delete stays deleting, through any number of further sweeps, if and only if nothing else that schedules deletes reaches it |
| SnapshotRetention.StoppedSweepStrands | packages/web/convex/boxes/snapshots.ts:738-750 | a concrete run in which a sweep stops there and no number of further sweeps schedules the delete |
| SnapshotRetention.ClaimedAtMostOnce | packages/web/convex/boxes/snapshots.ts:698-736 | in every run the sweep claims each row at most once |
| SnapshotRetention.KeptForGoodIsNeverClaimed | packages/web/convex/boxes/snapshotPolicy.ts:102-109 | in every run a claimed row has an expiry past, and is no completed snapshot of a class that does not expire |
| SnapshotRetention.KeptForItsTime | packages/web/convex/boxes/snapshotPolicy.ts:83-109 | a completed snapshot is not claimed before its retention is over, a failed one not for a day |
| SnapshotRetention.DeletingIsFinal | packages/web/convex/boxes/snapshots.ts:357-429 | in every run a row being deleted stays so until it is gone, whatever capture step comes late |
| SnapshotSupersede.UndoPointIsKept | packages/web/convex/boxes/snapshots.ts:577-605 | the newest complete rollback snapshot is never scheduled, in the page or beyond it |
| SnapshotSupersede.PassSchedulesExactly | packages/web/convex/boxes/snapshots.ts:577-605 | with no more rows than the page of fifty, a pass schedules every rollback row of the box but its undo point |
| SnapshotSupersede.PassesConverge | packages/web/convex/boxes/snapshots.ts:568-605 | repeated with its deletes applied, the pass leaves exactly that row, however many there were |
| SnapshotSupersede.OneUndoPointIsLeft | packages/web/convex/boxes/snapshots.ts:568-605 | so any box with a complete rollback snapshot ends with its newest one and no other |
| SnapshotSupersede.PassAgainAddsOnlyOlder | packages/web/convex/boxes/snapshots.ts:574-605 | run again with any of its deletes applied, the pass adds only rows that lay beyond its first page |
| SnapshotSupersede.PassIsIdempotent | packages/web/convex/boxes/snapshots.ts:574-605 | run again with any of its deletes applied, on no more rows than a page, it schedules exactly those of its deletes that have not finished |
| SnapshotTable.Mutations.BeginSnapshot | packages/web/convex/boxes/snapshots.ts:327-355 | schedules the evictions one by one, inserts, or refuses without a trace; a daily one leaves at most the cap standing |
| SnapshotTable.Mutations.CompleteSnapshot | packages/web/convex/boxes/snapshots.ts:384-414 | leaves a row being deleted alone, keeps for good what does not expire, and adds to no box's standing snapshots unless it revives a failed capture |
| SnapshotTable.Mutations.ClaimExpiredSnapshots | packages/web/convex/boxes/snapshots.ts:698-736 | four statuses in turn, each up to what remains, patch row by row exactly the first `limit` expired rows |
| SnapshotTable.Mutations.DeleteExpiredSnapshots | packages/web/convex/boxes/snapshots.ts:738-758 | claims, then schedules, until a claim of 200 comes back short; leaves nothing expired at its last round, after at most one round for each 200 rows |
| SnapshotTable.Mutations.SupersedeRollbackSnapshots | packages/web/convex/boxes/snapshots.ts:577-605 | the loop schedules every row of the page but the newest complete one |
| AutoRepairRuns.AtMostTwoInAnyWindow | packages/web/convex/boxes/autoRepair.ts:44-56 | in every trace any half-open 24 hours hold at most two automatic repairs of a box |
| RepairDecisions.SweepDecidesExactly | packages/web/convex/boxes/autoRepair.ts:108-240 | in every run, whatever others do between reading and deciding: a repair is approved if and only if three probes in a row failed, the status read allows it, no owner or staff operation read is under two hours old and fewer than two automatic repairs under a day; each refusal has its own cause |
| RepairDecisions.ApprovedStartsExactly | packages/web/convex/boxes/autoRepair.ts:300-320 | an approved repair starts if and only if the box is then idle and in a repairable status |
| RepairDecisions.TwoRepairsInADay | packages/web/convex/boxes/autoRepair.ts:44-56 | a concrete trace: two automatic repairs in one day, and no third |
| AutoRepairRuns.FailuresAreTrailing | packages/web/convex/boxes/autoRepair.ts:145-179 | in every trace the stored count is the run of failed probes at the end |
| AutoRepairRuns.RepairsFollowSustainedFailure | packages/web/convex/boxes/autoRepair.ts:145-179 | in every trace a repair starts only after at least three failed probes in a row |
| AutoRepairRuns.QuietWindowExactly | packages/web/convex/boxes/autoRepair.ts:189-236 | in every trace a repair falls into a person's quiet window if and only if that operation was started after the sweep read its facts |
| AutoRepairRuns.QuietWindowKept | packages/web/convex/boxes/autoRepair.ts:35-42 | where nobody starts an operation between a sweep's reading and its start, no repair starts within two hours of a person's operation |
| AutoRepairRuns.RepairOnTopOfTheOwner | packages/web/convex/boxes/autoRepair.ts:290-320 | a concrete trace in which one does |
| AutoRepairRuns.RunsStayGated | packages/web/convex/boxes/autoRepair.ts:108-328 | every step of probing, reading, deciding, starting and settling keeps the limiter's invariant |
| AutoRepairRuns.HealthTable.RecordProbe | packages/web/convex/boxes/autoRepair.ts:145-179 | patches or inserts the health row of its box alone; a failure adds one, a success resets |
| LegalNoticeRuns.OneRowPerAccount | packages/web/convex/notice/legal.ts:82-146 | in every run of overlapping chains: one row at most an account and notice, none for an account created at or after the start, and the count equals the rows queued |
| LegalNoticeRuns.FinishedMeansEveryone | packages/web/convex/notice/legal.ts:181-241 | once finished, every older account that can still be reached has a row |
| LegalNoticeRuns.SendsMakeProgress | packages/web/convex/notice/legal.ts:206-235 | each send finishes the notice or moves its cursor within a cohort that no longer grows |
| LegalNoticeRuns.SendAnswersExactly | packages/web/convex/notice/legal.ts:181-241 | a send answers and moves by its case: no sender or finished moves nothing; else at most fifty accounts on, the start kept, the cursor at the page's end or, on the last page, finished now |
| LegalNoticeRuns.FailedIsNeverRetried | packages/web/convex/notice/legal.ts:148-173 | in every run, an account whose mail could not be queued is never sent that notice in any continuation |
| LegalNoticeRuns.ReRunsTellNobody | packages/web/convex/notice/legal.ts:168-173 | a concrete run: one account, its mail failing, and no re-run of the finished notice ever queues it |
| LegalNoticeRuns.ReRunsReachExactly | packages/web/convex/notice/legal.ts:168-241 | in every run, going on can still queue the notice for a reachable account of its cohort if and only if its mail has not failed before |
| LegalNoticeRuns.MailPageMails | packages/web/convex/notice/legal.ts:213-220 | mailing a page adds one row for each reachable account of it and for nobody else |
| LegalNoticeRuns.NoticeTables.SendLegalNotice | packages/web/convex/notice/legal.ts:181-241 | lookup or insert, the page loop and the patch perform exactly the specified send and keep the invariant |
| LegalNoticeRuns.NoticeTables.MailRecipient | packages/web/convex/notice/legal.ts:97-146 | the account has its row afterwards, one row an account is kept, and the count says whether it was queued |
| AccountDeletion.DrainRewritesAll | packages/web/convex/account/deletion.ts:300-354 | the re-driven rewrite ends with every record of the old id under the new one, every other record as it was, none lost |
| AccountDeletion.DrainEndsAmidOthers | packages/web/convex/account/deletion.ts:342-352 | with anything between its pages, if the others only add so many records, some page is the last and leaves none under the old id |
| AccountDeletion.RecordsAfterDrain | packages/web/convex/account/deletion.ts:300-354 | record by record: the old id becomes the new one, notices take the replacement address, boxes and events keep what they hold |
| AccountDeletion.DeletionTables.PseudonymizeDeletedAccountRecords | packages/web/convex/account/deletion.ts:300-354 | one page of each table is rewritten row by row, again exactly after a full page |
| AccountDeletion.DeletionTables.DrainDeletedAccount | packages/web/convex/account/deletion.ts:342-352 | driven on, it ends with nothing under the old id and as many rows |
| AccountDeletion.PurgeIsSafe | packages/web/convex/account/deletion.ts:238-288 | a tombstone goes only when finished, due and pointed at by none of the four tables; a row not due is untouched |
| AccountDeletion.PurgeExactly | packages/web/convex/account/deletion.ts:224-298 | what becomes of each row: of a page of a hundred due ones or all, cleared if not deleted after all, put off a day while any of the four tables points at it, removed otherwise; untouched outside the page |
| AccountDeletion.PurgeDriveEnds | packages/web/convex/account/deletion.ts:224-298 | the re-driven purge ends, its clock anywhere within a day, with no row due and only such tombstones gone |
| AccountDeletion.PurgeEndsAmidOthers | packages/web/convex/account/deletion.ts:224-298 | the same end with anything between its pages, as long as the others make only so many more rows due that day |
| AccountDeletion.DeletionTables.PurgeExpiredDeletedAccounts | packages/web/convex/account/deletion.ts:224-298 | the loop clears, postpones or deletes each row of its page as specified |
| BoxCleanup.PurgedBoxIsUnreferenced | packages/web/convex/boxes/cleanup.ts:407-499 | the box row goes only when none of the eleven tables refers to it |
| BoxCleanup.PurgeExactly | packages/web/convex/boxes/cleanup.ts:407-499 | what one purge does: nothing unless due; else the batches of nine tables, the scrubbed reservations and the scheduled snapshots, and the box row exactly when nothing referred to it |
| BoxCleanup.BatchIsAHundred | packages/web/convex/boxes/cleanup.ts:420-463 | a batch is the oldest hundred rows of the box, or all there are |
| BoxCleanup.DeletedThenDue | packages/web/convex/boxes/retention.ts:9-61 | a box just deleted is due for its purge from the time on its tombstone, and not before |
| BoxCleanup.RuntimeExactly | packages/web/convex/boxes/cleanup.ts:198-255 | what goes with the runtime and what stays: operations, events and flags are untouched |
| BoxCleanup.NothingEverDangles | packages/web/convex/boxes/cleanup.ts:407-499 | over any run that makes, deletes and purges boxes and writes rows, none ever refers to a box that is gone if and only if no step writes one for such a box |
| BoxCleanup.IntentsAreKept | packages/web/convex/boxes/cleanup.ts:476-481 | over any run, a reservation not bound again keeps its account, customer, order, subscription, reason and terms; a purge takes its link and its slug, together |
| BoxCleanup.RedrivesShrink | packages/web/convex/boxes/cleanup.ts:488-497 | with its snapshot deletes done, each re-drive leaves fewer rows, and with none left deletes the box |
| BoxCleanup.PurgeDriveEnds | packages/web/convex/boxes/cleanup.ts:407-499 | driven on, the purge ends with the box gone, nothing referring to it, and nothing of any other box changed |
| BoxCleanup.PurgeEndsAmidOthers | packages/web/convex/boxes/cleanup.ts:488-499 | with anything between the re-drives, if the others only add so many rows, some re-drive finds none left and is the one that deletes the box |
| BoxCleanup.RuntimeDriveEnds | packages/web/convex/boxes/cleanup.ts:198-255 | the re-driven runtime delete ends with the six tables empty of the box and nothing else changed |
| BoxCleanup.RuntimeEndsAmidOthers | packages/web/convex/boxes/cleanup.ts:198-255 | it ends so with anything between its rounds, if the others only add so many rows |
| BoxCleanupTables.CleanupTables.PurgeBox | packages/web/convex/boxes/cleanup.ts:407-499 | row-by-row deletes, patches and schedules perform exactly one purge and leave nothing dangling |
| BoxCleanupTables.CleanupTables.DeleteRuntimeData | packages/web/convex/boxes/cleanup.ts:198-255 | deletes a batch of six tables, again exactly after a full one |
| ConfigurationRoundTrip.ParsePrintWhole | packages/web/convex/boxes/configuration.ts:314-325 | printing any integer and parsing it gives it back |
| ConfigurationRoundTrip.WholeExactly | packages/web/convex/boxes/configuration.ts:314-316 | a whole number is one or more digits with or without a minus |
| ConfigurationRoundTrip.NumberAcceptedExactly | packages/web/convex/boxes/configuration.ts:314-325 | a number is accepted exactly when it is a whole number in range, and stored as the shortest way to write the same number |
| ConfigurationRoundTrip.BooleanAcceptedExactly | packages/web/convex/boxes/configuration.ts:304-312 | on in two words, off in two or blank, anything else refused |
| ConfigurationRoundTrip.RejectedExactly | packages/web/convex/boxes/configuration.ts:301-353 | each refusal if and only if its own fault: not a word, not whole, out of range, not an option, too long in UTF-16 units, quote or line break |
| ConfigurationRoundTrip.TrimExactly | packages/web/convex/boxes/configuration.ts:301-302 | trimming gives the one text without white space at its ends that white space surrounds |
| ConfigurationRoundTrip.SpacesListed | packages/web/convex/boxes/configuration.ts:302 | what counts as white space, code point by code point, as ECMA-262 lists it |
| ConfigurationRoundTrip.Utf16Exactly | packages/web/convex/boxes/configuration.ts:327-352 | length counts the characters beyond the sixteen-bit plane twice |
| ConfigurationRoundTrip.TextAcceptedExactly | packages/web/convex/boxes/configuration.ts:327-352 | text or a choice is stored as a value if and only if what was written is that value with white space around it, and the value is trimmed and fits and cannot end its quotes, or is an option |
| ConfigurationRoundTrip.NormalFormIsFixed | packages/web/convex/boxes/configuration.ts:301-353 | a normal form is trimmed, free of quotes and line breaks, and its own normal form |
| ConfigurationRoundTrip.NormalizationIsIdempotent | packages/web/convex/boxes/configuration.ts:358-377 | normalising a whole submission is idempotent and yields allow-listed keys only |
| ConfigurationRoundTrip.NormalizeEntries | packages/web/convex/boxes/configuration.ts:358-377 | the loop accepts exactly what has a normal form, and otherwise names an entry at fault |
| ConfigurationRoundTrip.KeepSecrets | packages/web/convex/boxes/configuration.ts:274-293 | the loop keeps exactly the stored secrets the submission says nothing about |
| ConfigurationRoundTrip.SecretsListed | packages/web/convex/boxes/configuration.ts:253-256 | the listed secret keys are the fields declared secret |
| ConfigurationRoundTrip.KeptAreSet | packages/web/convex/boxes/configuration.ts:274-293 | a secret is kept exactly when one is stored, is not blank, and the submission is silent about it |
| ConfigurationRoundTrip.RunsStayNormal | packages/web/convex/owner/boxConfig.ts:54-107 | over every run of saves, what is stored and what is being applied is a fixed point of normalisation |
| ConfigurationRoundTrip.SavingBackChangesNothing | packages/web/convex/owner/boxConfig.ts:33-86 | in every run, saving back what the page was given without its blank secrets stores exactly what was stored |
| ConfigurationRoundTrip.StoredIsLastApplied | packages/web/convex/boxes/operation/record.ts:496-521 | in every run what is stored is the last configuration the box answered on, whatever saves failed or are under way |
| ConfigurationRoundTrip.PageSeesNoSecret | packages/web/convex/owner/boxConfig.ts:22-52 | the page is given every variable as stored but the secret, which is blank |
| ConfigurationRoundTrip.BlanksClearTheSecrets | packages/web/convex/owner/boxConfig.ts:33-86 | in every run, saving back the blanks too clears exactly the secrets |
| ConfigurationRoundTrip.SaveMeans | packages/web/convex/boxes/configuration.ts:258-293 | key by key: a silent secret is kept, a silent variable unset, a submitted value takes its normal form or is unset by a blank |
| ConfigurationRoundTrip.BoxConfig.Save | packages/web/convex/owner/boxConfig.ts:68-101 | normalise, merge the secrets, start applying; what is stored and what is applying stay in normal form |
| ConfigurationRoundTrip.BoxConfig.MarkConfigApplied | packages/web/convex/boxes/operation/record.ts:496-521 | what is stored afterwards is a fixed point of normalisation, and saving it back without its secrets stores it again |
| InstanceAuth.Unique | packages/web/convex/instance/auth.ts:263-266 | a unique read finds a row only when it is the one match |
| InstanceAuthRuns.CodesAreExchangedOnce | packages/web/convex/instance/auth.ts:253-299 | in every run each code is exchanged at most once and no two codes share a grant (section 4.1.2 of RFC 6749) |
| InstanceAuthRuns.GrantsAreBoughtOnce | packages/web/convex/instance/auth.ts:288-297 | in every run every grant was bought by exactly one exchange |
| InstanceAuthRuns.ExchangeConsumes | packages/web/convex/instance/auth.ts:268-291 | a code once exchanged cannot be exchanged again, whatever is presented with it |
| InstanceAuthRuns.SecretsAreShortLived | packages/web/convex/instance/auth.ts:18-19 | a stored code can be exchanged for two minutes, only with what it was stored with, and the grant it buys claimed for ten |
| InstanceAuthRuns.ExchangedExactly | packages/web/convex/instance/auth.ts:231-297 | a fresh code is exchanged if and only if it is back within two minutes for the same box, purpose and redirect with its own verifier and a fitting capability |
| InstanceAuthRuns.ClaimedExactly | packages/web/convex/instance/auth.ts:292-328 | the grant it buys is claimed if and only if within ten minutes, for that box, while the box is there |
| InstanceAuthRuns.ClaimWrites | packages/web/convex/instance/auth.ts:301-350 | a claim installs the password, marks the setup pending and starts a chain; claimed again the grant takes that password and no other |
| InstanceAuthRuns.SweepTakesExpired | packages/web/convex/instance/auth.ts:396-425 | the sweep removes codes and grants past their time only |
| InstanceAuthRuns.ClaimsAgree | packages/web/convex/instance/auth.ts:301-350 | in every run all successful claims of a grant install the same password hash |
| InstanceAuthRuns.ChainsAreBounded | packages/web/convex/instance/auth.ts:352-392 | in every run a reconcile chain makes at most twenty attempts |
| InstanceAuthRuns.AttemptEnds | packages/web/convex/instance/auth.ts:371-391 | a start that throws is the next attempt of its chain up to the twentieth; one that begins or is already there ends it |
| InstanceAuthRuns.AttemptsActOnlyForTheCurrent | packages/web/convex/instance/auth.ts:352-392 | in every run each password operation an attempt started carries a hash that was the box's stored one, the box still there, when an attempt had read it |
| InstanceAuthRuns.RunsKeepDeletedIdle | packages/web/convex/boxes/retention.ts:45-61 | in every run a deleted box has no password stored and no password operation open |
| InstanceAuthRuns.SurvivesExactly | packages/web/convex/boxes/operation/record.ts:351-379 | in every reachable state the stored password survives everything but another one or the deletion of its box if and only if no open operation and no attempt past its reading carries another |
| InstanceAuthRuns.NewerPasswordIsLost | packages/web/convex/boxes/operation/record.ts:351-379 | a concrete run in which an older operation ends over a newer accepted password |
| InstanceAuthRuns.AuthTables.ExchangeCode | packages/web/convex/instance/auth.ts:253-299 | accepts exactly a matching, unexpired, unconsumed code with a fitting capability (the verifier check of section 4.6 of RFC 7636), and consumes it |
| InstanceAuthRuns.AuthTables.ClaimGrantForPassword | packages/web/convex/instance/auth.ts:301-350 | installs the hash, the same one on a repeated claim, and starts a chain |
| InstanceAuthRuns.AuthTables.ApplyPasswordChange | packages/web/convex/instance/auth.ts:185-224 | records a change exactly when the current hash matches |

## Left out

- Purges of reservations, and the rewriting of a deleted account's reservations by
  `finishAccountDeletion`: both erase what the checkout theorems are about, so runs of
  the checkout machine contain neither.
- The capacity reconcile at the end of each checkout transaction: it reads what the
  transaction wrote and patches only the alert columns, and is modelled on its own in
  `CapacityAlert`.
- A bound on snapshot commitments: plan changes on open reservations are not admitted
  again and failed captures add to them, so the closed form and what each transaction
  does to it are proved instead.
- The order in which one webhook delivery's queries read: a delivery decides in one
  step, records in another and converts in a third, with anything in between.
- WebhookHandlers.HandlePaidOrder: states a delivery nothing interleaves with; deliveries
  in pieces are the steps of `Webhooks` and the subject of `OrderVerdicts`.
- BoxCleanup.PurgeEndsAmidOthers: like the other results about drains amid others, ends a
  drive only if the others add so many rows in all; one fed for ever need not end.
- AutoRepairRuns.AtMostTwoInAnyWindow: speaks of one box; the sweep's loop over boxes and the
  probe over the network are not modelled, every read being keyed by box.
- InstanceAuthRuns.SurvivesExactly: covers the stored hash only, not the env file on the host.
- The listing of a range as `Ranged`: that an index sorts by expiry or purge time is not
  used, so claims are proved for every order.
- Polar, Hetzner, Cloudflare, Resend, SSH and Clerk: outcomes of their calls are
  parameters of the steps. Refunds are the keys they are made with.
- The alert that a box's automatic repairs are used up, which variables the configuration
  table lists and which slugs are kept back: constants the theorems hold for as they are.
- Alert and log prose, including the label that calls a certificate block "snapshot".
- The cooldown and in-flight checks of `startManualSnapshot`, restores, `hetzner_action_id`,
  sizes and events.
- `sanitizeOperations`, `sanitizeEvents`, `startCheckoutRetention` and the retry of failed
  deletions: easy walks beside the purge.
- Strings with unpaired surrogates; lengths are UTF-16 code units as in the program.
- The interface, metrics, usage meters, the runtime floor and version comparison.
