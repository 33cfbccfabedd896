# BizBot OS: what the backend guarantees

A Dafny model of the commerce and booking core of BizBot OS, with proofs of what it promises. It
verifies with `dafny verify dfyconfig.toml`.

| file | models |
|---|---|
| `Time`, `Availability`, `Bookings`, `BookingProtocol` | wall-clock time, the slot generator, what `create` accepts, and concurrent bookings |
| `Money`, `MoneyText`, `MoneyTyped`, `Pricing` | proportional distribution, amounts printed, read back and typed, the receipt |
| `Payments`, `PaymentRuns` | the webhook pipeline and the payment state machine, and runs of deliveries that read before they write |
| `TenantGuard`, `TenantStamp` | the query rewriter, with a meaning for queries, and the stamping of nested creates |
| `Loyalty`, `LoyaltyProtocol` | the loyalty ledger and its concurrent transactions |
| `Stock`, `OrdersService`, `StockRuns`, `StockCancels` | reserving and releasing stock, and runs of checkouts and status changes statement by statement |
| `Tokens`, `TokenRuns` | refresh-token families, atomic and statement by statement |
| `Modules` | module dependencies and switching modules on and off |
| `Calendar`, `Segments` | the UTC calendar with its weekdays, and the customer-segment compiler |
| `Wrappers`, `Arithmetic`, `Digits`, `Sums`, `Sorting` | shared vocabulary |

Services that change rows are classes whose methods are proved against specification functions over
a snapshot of the rows. What the service promises is proved about those functions and, for
concurrent code, about runs: sequences of steps in which every transaction reads and writes when
the service does. A transaction's reads see committed rows only, and a failed transaction leaves
no row behind. Clocks, generated ids, offsets and verified webhook payloads are parameters.

## Where the code does less than it says

Each of these is proved: as the exact condition under which the promise holds, or as a run or input that
breaks it, most as both.

- `updateStatus` of orders reads the status before its transaction. Two cancels that both read a new
  order put its stock back twice.
- `updateStatus` of bookings does the same. In the service code alone, a stale write brings a cancelled
  booking back onto a slot sold again. The exclusion constraint that the repository ships refuses
  exactly that write, and with it no run at all double-books; both settings are proved.
- Checkout reads a stock level without a lock and writes back what it computed. When a cancel commits in
  between, the stock it returned is in the rows and not in the level.
- `spendLoyalty` does not lock the account it reads. Checkouts of one tenant and UTC day wait for each
  other on the order sequence, and those are safe among themselves; an adjustment, a cashback, a refund
  or a checkout of the next UTC day that commits in between is lost from the balance.
- The payment row is read without a lock. Two deliveries under different keys, or one and a staff member,
  that both read it as not yet paid both announce success.
- Creating a payment writes its state twice, and the second write does not look at what the row has
  become: a delivery that pays it in between is reset to PENDING, and the next one announces success
  again. The shipped providers build their links without calling out, and the customer gets the link
  after the second write, so with them only a callback to an id learned some other way gets in between.
- `rotate` reads, consumes and issues in three statements: two rotations of one token leave two live
  tokens, and a family revoked in between comes back to life.
- `setModule` checks rows it may find changed when it writes: as shipped, a tenant can be left with
  inventory and no catalog.
- `create` never looks at time off: it accepts starts inside it, which the slot list withholds.
- The weekday that `getAvailability` looks up is the requested day's own only for offsets from -12:00
  up to, not including, +12:00.
- `timeOfDayFromMinutes` turns 24:00 into 00:00.
- `parseMoney` reads three decimal places as a group of thousands. No currency in the table has three.
- A negative amount is printed with a typographic minus that the parser does not know.
- For a provider that settles at once that second write is PAID, before the intent, which then finds
  nothing to do: no log entry and no event. No provider in the repository does so.
- A filter object under the tenant key passes the unique-where check and is overwritten, turning a
  query for another tenant's row onto the caller's own.
- A nested `createMany` whose data is one object is stamped on the argument around it, and the row is
  not looked at: a row naming another tenant is passed on as it was.
- A segment filter loses the fraction of an amount spent, which changes the comparison for some
  operators; it ignores the operator of a tag condition, so "not tagged" selects the tagged; and it
  reads month and day off the birth date whatever the field, and takes any value but "today" for
  everybody whose birth date is known. A birthday more than a hundred years back is not matched.

## Model

| member | source | states |
|---|---|---|
| Time.MinutesParses | packages/shared/src/time.ts:28-36 | every accepted HH:mm is read as its minutes since midnight |
| Time.MinutesRead | packages/shared/src/time.ts:28-36 | hours and minutes of any number of digits are read up to 24 and 59, 24:00 and one-digit forms included, and refused beyond |
| Time.HoursRead | packages/shared/src/time.ts:28-36 | hours alone stand for the full hour |
| Time.TimeOfDayFormats | packages/shared/src/time.ts:38-41 | the printed time is an accepted one and denotes the minutes modulo a day, for negative input too |
| Time.TimeOfDayRoundTrip | packages/shared/src/time.ts:28-41 | printing and reading return the same minutes exactly from 00:00 to 23:59 |
| Time.TwoPassesSuffice | packages/shared/src/time.ts:91-98 | near one transition of any size and sign, the instant reads back as the wall time given exactly when that wall time exists |
| Time.RepeatedWallTime | packages/shared/src/time.ts:91-98 | which of the two instants of a repeated wall time is picked |
| Time.OnePassIsNotEnough | packages/shared/src/time.ts:91-98 | without the second pass a wall time next to a transition is missed |
| Time.FixedOffsetDay | packages/shared/src/time.ts:73-98 | in a fixed-offset zone, wall times of a day fall on that local day |
| Availability.MeetsIsIntersection | apps/api/src/modules/bookings/availability.engine.ts:171-184 | intersecting two sets of ranges is intersecting the minutes they cover |
| Availability.IntersectRanges | apps/api/src/modules/bookings/availability.engine.ts:171-184 | the result holds exactly the non-empty pairwise intersections, sorted by start |
| Availability.Candidate | apps/api/src/modules/bookings/availability.engine.ts:129-151 | a grid minute yields its slot exactly when it meets lead time and horizon and misses every blocked range |
| Availability.WindowSlots | apps/api/src/modules/bookings/availability.engine.ts:117-152 | one window's loop pushes every admissible grid minute and nothing else; the early break loses none |
| Availability.SlotsInWindows | apps/api/src/modules/bookings/availability.engine.ts:114-153 | the same over all windows |
| Availability.DedupeByStart | apps/api/src/modules/bookings/availability.engine.ts:155-164 | keeps exactly the first slot of every start, in order |
| Availability.FirstPerStartExact | apps/api/src/modules/bookings/availability.engine.ts:155-164 | what is kept has every start once, each slot being the first with its start |
| Availability.OfferedExactly | apps/api/src/modules/bookings/availability.engine.ts:73-165 | a start is offered exactly when a shift and the hours of the civil date's weekday are open around it and the rest fits, written out on minutes and weekdays alone |
| Availability.ComputeAvailability | apps/api/src/modules/bookings/availability.engine.ts:73-165 | strictly increasing starts, one for each grid minute of that civil date's weekday that fits the shift and the hours, keeps lead time and horizon and misses every blocked range, and no other; each with its own block and label |
| Bookings.AssertWithinWorkingHours | apps/api/src/modules/bookings/bookings.service.ts:575-624 | passes exactly the starts on the grid of what is open on their own local day, by that date's weekday, ending within it |
| Bookings.GetAvailability | apps/api/src/modules/bookings/bookings.service.ts:60-144 | for one resource and offsets in [-12h, +12h), exactly the starts on the grid of the requested date's weekday, within lead time and horizon, whose buffered block meets no live booking and no time off; strictly increasing |
| Bookings.HoursExactly | apps/api/src/modules/bookings/bookings.service.ts:575-624 | the hours check is the grid of the start's own local day, its weekday counted on the calendar |
| Bookings.ListedExactly | apps/api/src/modules/bookings/bookings.service.ts:60-144 | which starts are listed for a day, in terms of hours, shifts, bookings and time off alone |
| Bookings.CheckCreate | apps/api/src/modules/bookings/bookings.service.ts:175-249 | refuses with the first failing check, in the order of the code |
| Bookings.OfferedBlockInsideDay | apps/api/src/modules/bookings/bookings.service.ts:575-624 | the whole buffered block of an accepted start lies inside its local day |
| Bookings.WeekdaysAgree | apps/api/src/modules/bookings/bookings.service.ts:83-83 | the weekday looked up is the requested day's own exactly for offsets in [-12h, +12h) |
| Bookings.CollisionsAreFound | apps/api/src/modules/bookings/bookings.service.ts:84-122 | the query window of a day either side misses no row that could collide |
| Bookings.OfferedIffAccepted | apps/api/src/modules/bookings/bookings.service.ts:83-249 | a start is offered for a day exactly when it falls on that day, `create` accepts it, and no time off is in the way |
| Bookings.AcceptedDuringTimeOff | apps/api/src/modules/bookings/bookings.service.ts:175-249 | for offsets in [-12h, +12h), on each of the local days 1 to 399,998 some start is accepted in the middle of the resource's time off and withheld from the list |
| Bookings.OutsideTheRangeTheyDisagree | apps/api/src/modules/bookings/bookings.service.ts:83-144 | at every offset outside that range some start is offered that `create` refuses as outside working hours |
| BookingProtocol.PassedHoursConfines | apps/api/src/modules/bookings/bookings.service.ts:209-213 | a row that passed the hours check stays inside the local day its lock covers |
| BookingProtocol.DifferentDaysDisjoint | apps/api/src/modules/bookings/bookings.service.ts:206-215 | rows under locks of different days cannot overlap |
| BookingProtocol.CheckedCreatesDisjoint | apps/api/src/modules/bookings/bookings.service.ts:206-249 | two creates past their check hold different locks and disjoint blocks |
| BookingProtocol.CommitKeepsInv | apps/api/src/modules/bookings/bookings.service.ts:206-304 | committing a checked create double-books nothing, committed or in flight |
| BookingProtocol.WriteStatusExact | apps/api/src/modules/bookings/bookings.service.ts:317-348 | with or without the exclusion constraint, a status write keeps the invariant exactly unless it revives a dead row whose block is taken and nothing refuses it |
| BookingProtocol.StepKeepsInv | apps/api/src/modules/bookings/bookings.service.ts:192-387 | every step keeps the invariant, save a write that revives a row whose block is taken |
| BookingProtocol.NoRunDoubleBooks | apps/api/src/modules/bookings/bookings.service.ts:192-304 | in every interleaving, live bookings of one resource never overlap: always under the exclusion constraint, and without it whenever no write revives a row whose block is taken |
| BookingProtocol.BookingsFollowEachOther | apps/api/src/modules/bookings/bookings.service.ts:192-304 | after such a run, of two uncancelled bookings of one resource one's block ends before the other's begins |
| BookingProtocol.UntouchedKeepsFirstStatus | apps/api/src/modules/bookings/bookings.service.ts:214-276 | in every run, a booking no status write has reached still has the status its tenant's auto-confirm setting gave it |
| BookingProtocol.ConstraintHolds | packages/database/prisma/migrations/20260916202500_hardening/migration.sql:19-26 | under the constraint every step keeps committed and inserted live blocks disjoint, whatever the locks and checks do |
| BookingProtocol.ResurrectionDoubleBooks | apps/api/src/modules/bookings/bookings.service.ts:317-348 | without the constraint, a run of the service code ends with two live bookings on one slot |
| BookingProtocol.ConstraintRefusesResurrection | packages/database/prisma/migrations/20260916202500_hardening/migration.sql:19-26 | under the constraint the same run's last write is refused and changes no booking |
| BookingProtocol.BookingStore.constructor | apps/api/src/modules/bookings/bookings.service.ts:51-58 | no rows, no locks: the invariant holds |
| BookingProtocol.BookingStore.BeginCreate | apps/api/src/modules/bookings/bookings.service.ts:175-206 | a create that passed the hours check joins, waiting for its day |
| BookingProtocol.BookingStore.AcquireDayLock | apps/api/src/modules/bookings/bookings.service.ts:216-231 | granted exactly when no other transaction holds the resource and local day of the start |
| BookingProtocol.BookingStore.Recheck | apps/api/src/modules/bookings/bookings.service.ts:233-249 | refused exactly when a committed live row of the resource overlaps the block |
| BookingProtocol.BookingStore.InsertBooking | apps/api/src/modules/bookings/bookings.service.ts:251-276 | the inserted row stays uncommitted under the lock, or the constraint refuses it and the transaction is gone; never so while the invariant holds |
| BookingProtocol.BookingStore.CommitCreate | apps/api/src/modules/bookings/bookings.service.ts:251-304 | the row becomes visible and the lock is released together |
| BookingProtocol.BookingStore.Rollback | apps/api/src/modules/bookings/bookings.service.ts:206-304 | nothing but the transaction and its lock goes away |
| BookingProtocol.BookingStore.CheckTransition | apps/api/src/modules/bookings/bookings.service.ts:317-326 | not found, not allowed, or recorded for writing, as the row read says; allowed are exactly the listed pairs of states |
| BookingProtocol.BookingStore.WriteTransition | apps/api/src/modules/bookings/bookings.service.ts:328-348 | the status is written whatever it is by now, refused exactly when the constraint is there and a committed live row overlaps, with the exact condition for safety |
| BookingProtocol.BookingStore.Create | apps/api/src/modules/bookings/bookings.service.ts:175-304 | uncontended, refused with the first failing check over the store's rows, or the new row has the resource, start, end and buffered block asked for, is CONFIRMED exactly under auto-confirm and else PENDING, and no other row changes |
| BookingProtocol.NewBookingIsBooked | apps/api/src/modules/bookings/bookings.service.ts:179-276 | the row built for a start has that resource, start, end, block and first status |
| Money.PercentageRoundsHalfUp | packages/shared/src/money.ts:141-143 | the nearest unit, exactly half going up |
| Money.DistributeProportionally | packages/shared/src/money.ts:153-173 | nothing to give or no weight gives zeros; otherwise the parts add up and the leftover units go by largest fraction, then position |
| Money.LeftoverBounds | packages/shared/src/money.ts:160-170 | there are fewer leftover units than buckets |
| Money.WholeSharesKept | packages/shared/src/money.ts:153-173 | a share that is already whole is never bumped |
| Money.PartsNearShares | packages/shared/src/money.ts:153-173 | every part is the floor or ceiling of its exact share, and no more than its weight when the total is not |
| Money.PartsFollowWeights | packages/shared/src/money.ts:153-173 | a larger weight never gets less; equal weights differ by at most one |
| Money.ApportionmentUnique | packages/shared/src/money.ts:153-173 | the rule determines the parts |
| MoneyText.StripUngroups | packages/shared/src/money.ts:84-86 | grouping adds only characters that parsing ignores |
| MoneyText.DecimalNotGrouped | packages/shared/src/money.ts:103-121 | digits, point, digits is taken for grouped thousands exactly with three digits after and at most three before |
| MoneyText.NegativeRefused | packages/shared/src/money.ts:72-135 | a printed negative amount is not parsed |
| MoneyText.ThreeDecimalsMisread | packages/shared/src/money.ts:72-135 | printed with three decimal places, an amount from one to below a thousand whole units is read back a thousand times too large |
| MoneyText.RoundTripAt | packages/shared/src/money.ts:72-135 | for any exponent, parsing the printed amount gives it back exactly for 0 to 2^53-1, save the three-decimal clash |
| MoneyText.RoundTrip | packages/shared/src/money.ts:22-135 | for every currency of the table, exactly for 0 to 2^53-1 |
| MoneyTyped.TypedDecimal | packages/shared/src/money.ts:103-135 | typed digits, comma or point, digits: the whole units and the fraction in smallest units, whenever the places fit the currency and the shape is not a group of thousands; nothing beyond 2^53-1 |
| MoneyTyped.TypedLongDecimal | packages/shared/src/money.ts:131-133 | a fraction with more places is rounded down to smallest units |
| MoneyTyped.TypedWhole | packages/shared/src/money.ts:119-133 | digits alone are whole units |
| MoneyTyped.TypedGroups | packages/shared/src/money.ts:115-121 | one to three digits not starting with 0, then groups of three each behind a comma or point, are the digits joined in whole units |
| MoneyTyped.MinusNegates | packages/shared/src/money.ts:108-134 | a leading minus negates whatever follows it is read as |
| MoneyTyped.NoiseIgnored | packages/shared/src/money.ts:105-105 | white space and apostrophes change nothing, wherever they stand |
| MoneyTyped.StrangeRefused | packages/shared/src/money.ts:119-124 | any other character makes the text no amount |
| MoneyTyped.TwoPointsRefused | packages/shared/src/money.ts:119-124 | two separators that are no groups of thousands make no amount |
| MoneyTyped.PointAlone | packages/shared/src/money.ts:124-126 | a separator alone is no amount |
| MoneyTyped.MinusAlone | packages/shared/src/money.ts:106-110 | neither is a minus alone, or nothing |
| MoneyTyped.GroupPlaces | packages/shared/src/money.ts:84-86 | counted from the right, every fourth character printed is a separator and the others are the digits in order |
| MoneyTyped.PrintedAs | packages/shared/src/money.ts:72-82 | so'm are printed without decimals, the other currencies with two behind a point |
| MoneyTyped.NegativePrintedAs | packages/shared/src/money.ts:77-81 | a negative amount is its size behind a typographic minus |
| Pricing.PriceAll | apps/api/src/modules/cart/pricing.service.ts:147-176 | the first line with no piece or a negative unit price is reported, else every line costs (unit price + variant + modifiers) times quantity |
| Pricing.SubtotalIsCatalog | apps/api/src/modules/cart/pricing.service.ts:99-100 | the subtotal is the sum over lines of (unit price + variant + modifiers) times quantity |
| Pricing.SplitLine | apps/api/src/modules/cart/pricing.service.ts:166-166 | splitting a line's quantity into two lines leaves the subtotal unchanged |
| Pricing.RefusedExactly | apps/api/src/modules/cart/pricing.service.ts:97-233 | which carts are refused, and each with which error |
| Pricing.QuotedExactly | apps/api/src/modules/cart/pricing.service.ts:223-256 | the fee is charged exactly on an enabled delivery without free-delivery promo and below the threshold on goods after promo; cashback is on the total paid; nothing is discounted unasked |
| Pricing.QuoteWithinSubtotal | apps/api/src/modules/cart/pricing.service.ts:178-237 | promo and loyalty together never exceed the goods |
| Pricing.QuotedWithinLimits | apps/api/src/modules/cart/pricing.service.ts:223-237 | loyalty stays within the request, the balance and the redeem cap |
| Pricing.PromoIsTightest | apps/api/src/modules/cart/pricing.service.ts:178-221 | a promo discount is the smallest of what it gives, its cap and the goods |
| Pricing.LoyaltyIsTightest | apps/api/src/modules/cart/pricing.service.ts:223-237 | bonuses spent are the smallest of the request, the redeem cap and what is left to pay |
| Pricing.SharesFit | apps/api/src/modules/cart/pricing.service.ts:119-129 | the shares add up to the discount and none exceeds its line |
| Pricing.ApplyShares | apps/api/src/modules/cart/pricing.service.ts:119-129 | each line is charged its share in place, nothing else of it changing |
| Pricing.LinesAddUp | apps/api/src/modules/cart/pricing.service.ts:119-129 | line totals sum to the subtotal less the discount |
| Pricing.Settle | apps/api/src/modules/cart/pricing.service.ts:109-144 | fee, shares, total and cashback make a receipt that adds up |
| Pricing.Compute | apps/api/src/modules/cart/pricing.service.ts:96-145 | refused with the first failing check, or a receipt that adds up, whose lines and subtotal are catalog prices times quantities, with the quoted discounts, the delivery fee and cashback case by case, loyalty within its limits and nothing unasked |
| Payments.ReplaysChangeNothing | apps/api/src/modules/payments/payments.service.ts:166-242 | however deliveries repeat, race or fail, the rows are those of the committed operations alone, and no key commits twice |
| Payments.RetryIsGenuine | apps/api/src/modules/payments/payments.service.ts:171-242 | a failed delivery leaves nothing, and its retry after any run is a duplicate exactly when a delivery of the key has committed |
| Payments.ArrivalIsAttempt | apps/api/src/modules/payments/payments.service.ts:166-214 | a known key stops at its arrival; any other delivery processed at once is the handler's attempt |
| Payments.ProcessedExactly | apps/api/src/modules/payments/payments.service.ts:166-242 | a key is processed exactly when it was at the start or a delivery of it has committed |
| Payments.MismatchChangesNothing | apps/api/src/modules/payments/payments.service.ts:300-321 | an amount mismatch leaves every row as it was |
| Payments.AppliesExactly | apps/api/src/modules/payments/payments.service.ts:276-412 | an unknown payment or a wrong amount is an error, a move not allowed changes nothing, and any other has exactly the effects of its intent |
| Payments.TransitionEffects | apps/api/src/modules/payments/payments.service.ts:323-412 | a paid payment's order is paid and accepted and its booking paid and confirmed; failed and cancelled mark the order failed; a refund is full exactly when it reaches the amount; one log entry, one event, and no other row changes |
| Payments.AttemptEffects | apps/api/src/modules/payments/payments.service.ts:221-242 | a committed delivery records its key and has the effects of its intent |
| Payments.TransitionKeepsHistories | apps/api/src/modules/payments/payments.service.ts:322-412 | a real transition keeps every payment's history |
| Payments.OpenKeepsHistories | apps/api/src/modules/payments/payments.service.ts:68-107 | a payment created with nothing in between has a correct history exactly when its provider does not settle at once |
| Payments.PerformKeepsHistories | apps/api/src/modules/payments/payments.service.ts:221-412 | so does every webhook, direct intent or failed attempt run with nothing in between |
| Payments.RunKeepsHistories | apps/api/src/modules/payments/payments.service.ts:30-39 | over any run of such transactions the log is a path of allowed transitions ending in the current state, success and refund are announced at most once, and a paid payment was paid exactly |
| Payments.RunKeepsOrders | apps/api/src/modules/payments/payments.service.ts:348-400 | over any such run, an order's payment status is what the last log entry of any of its payments asks for |
| Payments.PaymentsService.constructor | apps/api/src/modules/payments/payments.service.ts:42-48 | no payments yet, and every history correct |
| Payments.PaymentsService.ApplyIntentInTransaction | apps/api/src/modules/payments/payments.service.ts:269-415 | the writes one by one make the specified transition or report its error; payment, order, booking and event each named |
| Payments.PaymentsService.ApplyIntentWithDedup | apps/api/src/modules/payments/payments.service.ts:221-242 | dedup row and intent commit together, or everything is rolled back |
| Payments.PaymentsService.HandleWebhook | apps/api/src/modules/payments/payments.service.ts:123-214 | a known key is answered from its stored response; otherwise the delivery commits, is stored and has the effects its intent asks for, or changes nothing |
| PaymentRuns.TransitionExact | apps/api/src/modules/payments/payments.service.ts:322-412 | a transition keeps histories exactly when the state it finds allows it |
| PaymentRuns.WriteSeenExact | apps/api/src/modules/payments/payments.service.ts:276-412 | so does one decided on an earlier read of the payment |
| PaymentRuns.WriteSeenMoves | apps/api/src/modules/payments/payments.service.ts:323-400 | an overtaken write makes of the payment what the intent makes of the one read, the failure reason apart; order and booking are moved, nothing else |
| PaymentRuns.ConfirmExact | apps/api/src/modules/payments/payments.service.ts:90-97 | the second write of a new payment keeps histories exactly when the payment is in the written state already |
| PaymentRuns.StepExact | apps/api/src/modules/payments/payments.service.ts:50-415 | a step keeps every history exactly when it is neither a write overtaken by another nor the second write of a new payment that is no longer in the state written |
| PaymentRuns.RunKeepsHistories | apps/api/src/modules/payments/payments.service.ts:50-415 | in every interleaving of webhooks, direct intents and payments being created without those, every payment has a correct history |
| PaymentRuns.RunKeepsOrders | apps/api/src/modules/payments/payments.service.ts:50-415 | so is it in every interleaving at all, stale writes included |
| PaymentRuns.BeginFinishIsPerform | apps/api/src/modules/payments/payments.service.ts:221-263 | reading and writing with nothing in between is the service's own operation, webhook or direct intent |
| PaymentRuns.CreateConfirmIsOpen | apps/api/src/modules/payments/payments.service.ts:67-106 | the writes of creating a payment with nothing in between are opening it |
| PaymentRuns.AbortLeavesNothing | apps/api/src/modules/payments/payments.service.ts:221-242 | read and rolled back, a delivery leaves no trace |
| PaymentRuns.RunCommitsKeysOnce | apps/api/src/modules/payments/payments.service.ts:166-242 | in every interleaving no dedup key commits twice, and the keys processed are exactly those committed and the old ones |
| PaymentRuns.PaidTwice | apps/api/src/modules/payments/payments.service.ts:276-376 | two deliveries under different keys, or one and a staff member, that both read a payment as not yet paid both announce success |
| PaymentRuns.ResetPaymentPaidTwice | apps/api/src/modules/payments/payments.service.ts:67-97 | a payment paid before its second write is reset to PENDING and announced paid again by the next delivery |
| TenantGuard.ScopedMeansOwnAndAsked | packages/database/src/tenant-guard.ts:143-152 | the rewritten clause means own tenant and what the caller asked, for any tree of AND, OR and NOT |
| TenantGuard.UniqueWhereMeans | packages/database/src/tenant-guard.ts:134-140 | the merged unique clause means own tenant and everything asked outside the tenant key |
| TenantGuard.OverwriteMeaning | packages/database/src/tenant-guard.ts:134-140 | the overwrite keeps the caller's meaning on every row exactly when the overwritten entry accepts the tenant, or no own row at all matches the rest of the clause |
| TenantGuard.CheckedOverwriteKeepsMeaning | packages/database/src/tenant-guard.ts:95-140 | once the where check passes, the overwrite keeps the caller's meaning exactly when the filter objects under the key accept the tenant or nothing can match; with plain or absent entries always |
| TenantGuard.FilterObjectIsRedirected | packages/database/src/tenant-guard.ts:95-140 | a filter object under the key passes the check and is turned onto own rows |
| TenantGuard.FailsClosed | packages/database/src/tenant-guard.ts:317-341 | without a context a scoped query is refused; with one it matches own rows only |
| TenantGuard.PassesUnchanged | packages/database/src/tenant-guard.ts:326-331 | a model without tenants, or the system context, passes unchanged |
| TenantGuard.ScopedByItsKey | packages/database/src/tenant-guard.ts:337-341 | a guarded clause matches exactly the rows asked for that carry the tenant, a tenant itself by its id, any other model by tenantId |
| TenantGuard.ReadsOnlyOwnRows | packages/database/src/tenant-guard.ts:337-341 | a guarded read is the caller's read of own rows |
| TenantGuard.DeletesOnlyOwnRows | packages/database/src/tenant-guard.ts:378-380 | a guarded bulk delete is the caller's delete of own rows and touches no other |
| TenantGuard.UpdatesOnlyOwnRows | packages/database/src/tenant-guard.ts:378-380 | likewise a bulk update that leaves the tenant key alone |
| TenantGuard.UpdatingTheKeyMovesRows | packages/database/src/tenant-guard.ts:378-380 | one that sets the key hands rows to another tenant |
| TenantGuard.Noninterference | packages/database/src/tenant-guard.ts:317-380 | databases agreeing on own rows answer alike and keep own rows alike |
| TenantGuard.UniqueReadStaysInTenant | packages/database/src/tenant-guard.ts:343-367 | a unique read returns an own row matching the clause apart from its tenant key, and null exactly when there is none or the clause names another tenant; the throwing form throws exactly then |
| TenantGuard.SoughtIsAsked | packages/database/src/tenant-guard.ts:134-140 | that is the caller's own clause unless a filter object under the key refuses the tenant |
| TenantGuard.NamingOthersAsksForNone | packages/database/src/tenant-guard.ts:352-365 | a clause naming another tenant asks for no own row, so null is the truth |
| TenantGuard.NamesOtherExactly | packages/database/src/tenant-guard.ts:360-361 | a read names another tenant exactly when its key entry is a plain string that is not the tenant |
| TenantGuard.UniqueUpdateStaysInTenant | packages/database/src/tenant-guard.ts:369-376 | refused exactly when the where check fails, not found exactly when no own row is sought; otherwise no other tenant's row changes and own rows are those of the caller's update |
| TenantGuard.CheckedExactly | packages/database/src/tenant-guard.ts:95-126 | the where check passes exactly when every plain tenant value it looks at, down to level 3, is the tenant |
| TenantGuard.RefusedForAnother | packages/database/src/tenant-guard.ts:368-376 | a unique write is refused exactly when such a value is another tenant's |
| TenantStamp.StampManyEach | packages/database/src/tenant-guard.ts:233-251 | `createMany` rows are refused if any names another tenant, else each gets the tenant |
| TenantStamp.StampRelationMeans | packages/database/src/tenant-guard.ts:203-269 | below one relation: refused exactly for a foreign row, else every row down to level 3 stamped and nothing else changed |
| TenantStamp.StampRelationsMean | packages/database/src/tenant-guard.ts:188-272 | the same below a row, and nothing below level 3 is touched |
| TenantStamp.StampDataMeans | packages/database/src/tenant-guard.ts:188-315 | for every model, a tenant's own row aside: a guarded create throws exactly when a row it looks at, at levels 0 to 3, names another tenant; otherwise those rows carry the tenant, all else is untouched, and stamping again changes nothing |
| TenantStamp.StampedRelationsExactly | packages/database/src/tenant-guard.ts:202-231 | a create with one child: the child is stamped exactly when its model has tenants and is not the tenant itself, and refused exactly when it then names another |
| TenantStamp.WrappedRowNotLookedAt | packages/database/src/tenant-guard.ts:240-263 | a `createMany` whose data is one object is stamped on the argument, and its row passed on whatever it names |
| TenantStamp.StampCreateMany | packages/database/src/tenant-guard.ts:233-251 | the loop over `createMany` rows computes that stamping |
| TenantStamp.StampCreate | packages/database/src/tenant-guard.ts:213-231 | so does the loop over `create` rows |
| TenantStamp.StampNestedCreates | packages/database/src/tenant-guard.ts:188-272 | and the recursive walk over relations |
| Loyalty.BalancesAgree | apps/api/src/modules/loyalty/loyalty.service.ts:9-16 | balance, customer's copy, ledger sum and earned less spent are one non-negative number |
| Loyalty.PostKeepsInvExactly | apps/api/src/modules/loyalty/loyalty.service.ts:145-199 | a post keeps the books exactly when it adds to the balance as it is now |
| Loyalty.PerformedKeepsInv | apps/api/src/modules/loyalty/loyalty.service.ts:52-136 | every operation run alone keeps the books |
| Loyalty.PostsExactly | apps/api/src/modules/loyalty/loyalty.service.ts:52-136 | an operation posts exactly when the tenant's account exists, the amount is sensible, the balance covers it and the order has no such row |
| Loyalty.AnswersExactly | apps/api/src/modules/loyalty/loyalty.service.ts:52-136 | the answer of every operation, case by case: nothing to earn or already earned is null, and which error any other refusal gives |
| Loyalty.MovesOneBalance | apps/api/src/modules/loyalty/loyalty.service.ts:145-199 | it moves that balance by the amount asked and no other |
| Loyalty.OpenedKeepsInv | apps/api/src/modules/loyalty/loyalty.service.ts:25-31 | opening an account keeps the books |
| Loyalty.AccrueTwiceIsOnce | apps/api/src/modules/loyalty/loyalty.service.ts:92-115 | an order that has earned cannot earn again, whatever is asked |
| Loyalty.EarnsAtMostOnce | apps/api/src/modules/loyalty/loyalty.service.ts:83-115 | unique rows mean at most one EARN per order |
| Loyalty.LoyaltyService.constructor | apps/api/src/modules/loyalty/loyalty.service.ts:18-23 | customers without accounts: the books are straight |
| Loyalty.LoyaltyService.OpenAccount | apps/api/src/modules/loyalty/loyalty.service.ts:25-31 | creates an empty account only if there is none |
| Loyalty.LoyaltyService.LoadAccountForUpdate | apps/api/src/modules/loyalty/loyalty.service.ts:215-236 | no context, not this tenant's, or the balance |
| Loyalty.LoyaltyService.Post | apps/api/src/modules/loyalty/loyalty.service.ts:145-199 | ledger, account and customer copy move together, or a second row of an order and kind changes nothing |
| Loyalty.LoyaltyService.AdjustBalance | apps/api/src/modules/loyalty/loyalty.service.ts:52-72 | the specified answer and rows, books kept |
| Loyalty.LoyaltyService.AccrueForOrder | apps/api/src/modules/loyalty/loyalty.service.ts:92-115 | likewise; null for nothing to earn or already earned |
| Loyalty.LoyaltyService.RefundForOrder | apps/api/src/modules/loyalty/loyalty.service.ts:117-136 | likewise |
| Loyalty.LoyaltyService.SpendLoyalty | apps/api/src/modules/orders/orders.service.ts:470-515 | run alone, likewise; refused when the balance does not cover it |
| LoyaltyProtocol.CommitExact | apps/api/src/modules/loyalty/loyalty.service.ts:201-236 | a commit keeps the books exactly when it is not a spend on a balance that has changed |
| LoyaltyProtocol.StepExact | apps/api/src/modules/orders/orders.service.ts:470-515 | so does every step |
| LoyaltyProtocol.RunKeepsBooks | apps/api/src/modules/loyalty/loyalty.service.ts:52-236 | from any good state, in every interleaving with atomic spends all balances, prefix sums and copies agree |
| LoyaltyProtocol.RunFromNothingAgrees | apps/api/src/modules/loyalty/loyalty.service.ts:9-16 | from customers without accounts, after such a run balance, copy, ledger sum and earned less spent are one non-negative number |
| LoyaltyProtocol.SpendsOfOneDayAreSafe | apps/api/src/modules/orders/orders.service.ts:458-499 | checkouts of one UTC day alone keep the books, because each holds its tenant's order sequence from before its read until it commits |
| LoyaltyProtocol.RunEarnsAtMostOnce | apps/api/src/modules/loyalty/loyalty.service.ts:83-115 | in every interleaving at all, an order earns at most once |
| LoyaltyProtocol.AtomicIsBeginCommit | apps/api/src/modules/loyalty/loyalty.service.ts:52-136 | reading and committing at once is the service's own operation |
| LoyaltyProtocol.AbortLeavesNothing | apps/api/src/modules/loyalty/loyalty.service.ts:52-136 | begun and rolled back, an operation leaves no trace |
| LoyaltyProtocol.StaleSpendDrift | apps/api/src/modules/orders/orders.service.ts:470-499 | a stale spend leaves the balance off the ledger by what was posted in between |
| LoyaltyProtocol.StaleSpendLosesAdjustment | apps/api/src/modules/orders/orders.service.ts:470-499 | in every good state a checkout overtaken by an adjustment leaves the adjustment in the ledger and out of the balance |
| Stock.MoveKeepsBooksExactly | apps/api/src/modules/orders/orders.service.ts:543-580 | a stock write keeps the books exactly when computed from the level as it is now and not negative |
| Stock.StaleReservationExact | apps/api/src/modules/orders/orders.service.ts:523-580 | a sale computed on an earlier read keeps them exactly when that level still stands |
| Stock.ReserveExact | apps/api/src/modules/orders/orders.service.ts:517-592 | a reservation succeeds exactly when every item covers the lines' total demand, repeats included, and takes exactly that |
| Stock.RefusalNamesTheLine | apps/api/src/modules/orders/orders.service.ts:536-565 | the refusal names the first short line and what was left for it |
| Stock.ReserveLineExactly | apps/api/src/modules/orders/orders.service.ts:523-591 | one line: nothing for an untracked product, refused with what is there, or the row, the level and the alert at the threshold |
| Stock.ReserveRecords | apps/api/src/modules/orders/orders.service.ts:547-578 | the SALE rows of the order are exactly its demand, no other order's rows change |
| Stock.CheckoutKeepsBooks | apps/api/src/modules/orders/orders.service.ts:48-220 | a checkout keeps every level equal to its rows |
| Stock.WriteStatusKeepsBooks | apps/api/src/modules/orders/orders.service.ts:299-367 | so does any status write |
| Stock.CancelGivesBack | apps/api/src/modules/orders/orders.service.ts:594-637 | cancelling returns exactly what the order took, item by item |
| Stock.CancelUndoesCheckout | apps/api/src/modules/orders/orders.service.ts:517-637 | checkout then cancel leaves every level as it was |
| OrdersService.Orders.constructor | apps/api/src/modules/orders/orders.service.ts:38-46 | the given stock, no orders and no rows |
| OrdersService.Orders.ReserveOne | apps/api/src/modules/orders/orders.service.ts:523-591 | one line takes its quantity, with the alert for low stock, or reports what is available |
| OrdersService.Orders.ReserveStock | apps/api/src/modules/orders/orders.service.ts:517-592 | the loop over lines makes the specified reservation or reports its error |
| OrdersService.Orders.CheckOut | apps/api/src/modules/orders/orders.service.ts:48-220 | order and stock together, or no change at all |
| OrdersService.Orders.ReleaseStock | apps/api/src/modules/orders/orders.service.ts:594-637 | one RETURN row for every SALE row of the order |
| OrdersService.Orders.UpdateStatus | apps/api/src/modules/orders/orders.service.ts:284-367 | refused without change unless the pair of states is one of the listed ones, else the status and any release written |
| StockRuns.RunKeepsBooks | apps/api/src/modules/orders/orders.service.ts:284-637 | over every run that commits no stale checkout, stale status writes included, each level is its initial value plus its rows, prefix sums are right and nothing is negative |
| StockRuns.AheadExact | apps/api/src/modules/orders/orders.service.ts:517-592 | committing a checkout keeps the books exactly when every level it computed from was still there |
| StockRuns.StepKeepsBooksExactly | apps/api/src/modules/orders/orders.service.ts:284-637 | a step keeps the books exactly when it is not the commit of a stale checkout |
| StockRuns.LineExact | apps/api/src/modules/orders/orders.service.ts:523-580 | a written line leaves its checkout fresh exactly when the level read for it still stands |
| StockRuns.OthersCannotStale | apps/api/src/modules/orders/orders.service.ts:523-624 | row locks: no other transaction's step makes a checkout stale once its line is written |
| StockRuns.CheckoutIsItsSteps | apps/api/src/modules/orders/orders.service.ts:48-220 | statement by statement with nothing in between, a checkout is the service's own, all of it or nothing |
| StockRuns.AbortLeavesNothing | apps/api/src/modules/orders/orders.service.ts:48-220 | placed and rolled back, a checkout leaves no trace |
| StockCancels.CancelledStockLost | apps/api/src/modules/orders/orders.service.ts:523-624 | a checkout overtaken by a cancel writes over the stock that came back |
| StockCancels.WriteExact | apps/api/src/modules/orders/orders.service.ts:284-325 | a status write leaves every order given back what it is owed exactly when the order was not cancelled meanwhile, or took nothing |
| StockCancels.StepExact | apps/api/src/modules/orders/orders.service.ts:284-367 | so does every step |
| StockCancels.RunSettlesOrders | apps/api/src/modules/orders/orders.service.ts:27-35 | in every run without such writes, whatever checkouts meet, a cancelled order got back what it took, once, and any other got nothing |
| StockCancels.FreshWritesAreInTime | apps/api/src/modules/orders/orders.service.ts:27-35 | a status written in the state it was checked in is never too late |
| StockCancels.StaleCancelReleasesTwice | apps/api/src/modules/orders/orders.service.ts:284-330 | two cancels of one new order put its stock back twice |
| Tokens.IssueExact | apps/api/src/modules/auth/token.service.ts:48-58 | a token may join a family exactly when the family has no live token |
| Tokens.ApplyKeepsInv | apps/api/src/modules/auth/token.service.ts:75-150 | every operation keeps at most one live token per family, the newest |
| Tokens.DeadStaysDead | apps/api/src/modules/auth/token.service.ts:75-150 | no operation revives a dead family |
| Tokens.ReuseKillsFamily | apps/api/src/modules/auth/token.service.ts:92-110 | presenting a consumed or revoked token leaves its family dead |
| Tokens.RevokingTheLiveOneKills | apps/api/src/modules/auth/token.service.ts:124-131 | revoking the live token leaves its family dead |
| Tokens.RevokingAllKills | apps/api/src/modules/auth/token.service.ts:143-150 | revoking a user's tokens leaves all their families dead |
| Tokens.OthersStayLive | apps/api/src/modules/auth/token.service.ts:133-150 | revoking a user or a family leaves every other token as live as it was |
| Tokens.RunKeepsFamilies | apps/api/src/modules/auth/token.service.ts:35-150 | all this over any sequence of logins, rotations, logouts and revocations |
| Tokens.RotatedTokenIsSpent | apps/api/src/modules/auth/token.service.ts:75-122 | a rotated token is never accepted again, after any run, and presenting it kills the family for good |
| Tokens.TokenService.constructor | apps/api/src/modules/auth/token.service.ts:26-33 | no tokens |
| Tokens.TokenService.IssueForUser | apps/api/src/modules/auth/token.service.ts:35-61 | one new live token, last in order |
| Tokens.TokenService.RotateToken | apps/api/src/modules/auth/token.service.ts:75-122 | accepted exactly for a live, unexpired token of an active user, which is consumed for a new one of its family; reuse kills the family |
| Tokens.TokenService.RevokeToken | apps/api/src/modules/auth/token.service.ts:124-131 | only the presented token is revoked |
| Tokens.TokenService.RevokeTokens | apps/api/src/modules/auth/token.service.ts:133-140 | exactly the family's tokens are revoked, nothing else of them or of any other changing |
| Tokens.TokenService.RevokeAll | apps/api/src/modules/auth/token.service.ts:143-150 | exactly the user's tokens are revoked, nothing else of them or of any other changing |
| TokenRuns.IssueStepExact | apps/api/src/modules/auth/token.service.ts:114-121 | storing the rotated token is safe exactly when its family was neither revoked nor given a live token meanwhile |
| TokenRuns.StepExact | apps/api/src/modules/auth/token.service.ts:75-150 | so is every step |
| TokenRuns.TraceKeepsSafe | apps/api/src/modules/auth/token.service.ts:75-150 | every interleaving without such overtaking keeps families single and condemned ones dead |
| TokenRuns.CondemnedForGood | apps/api/src/modules/auth/token.service.ts:75-150 | once a spent token was presented, a live one revoked or its user logged out everywhere, the family stays dead through every such interleaving |
| TokenRuns.RotateIsItsStatements | apps/api/src/modules/auth/token.service.ts:75-122 | read, consume and issue with nothing in between are the atomic rotation |
| TokenRuns.TwoReadersTwoTokens | apps/api/src/modules/auth/token.service.ts:81-121 | two rotations that both read one token leave two live tokens |
| TokenRuns.RevokedFamilyRevives | apps/api/src/modules/auth/token.service.ts:81-121 | a family revoked between consuming and issuing comes back |
| Modules.ExpansionIsLeast | packages/rbac/src/modules.ts:268-277 | the expansion is the least set with core and the selection that is closed outside core |
| Modules.LeastClosedSet | packages/rbac/src/modules.ts:268-277 | when core needs only core, it is the least closed set |
| Modules.ClosedExactly | packages/rbac/src/modules.ts:268-277 | every selection expands to a closed set exactly when core needs only core |
| Modules.Visit | packages/rbac/src/modules.ts:270-274 | terminates on any graph; each module added has its needs, and no module a closed bound does without is added |
| Modules.WithDependencies | packages/rbac/src/modules.ts:268-277 | returns exactly the expansion, in declared order |
| Modules.Missing | packages/rbac/src/modules.ts:257-260 | the needs not enabled, none exactly when all are |
| Modules.ToggleExact | apps/api/src/modules/tenants/tenants.service.ts:198-243 | writing a row keeps the enabled set closed and containing core exactly when it fits that set |
| Modules.SetModuleKeepsGood | apps/api/src/modules/tenants/tenants.service.ts:198-243 | a request, granted or refused, keeps it so |
| Modules.RefusalExactly | apps/api/src/modules/tenants/tenants.service.ts:198-237 | which request is refused and why: unknown, not there yet, the needs missing, core, or the modules depending on it |
| Modules.ComingSoonStays | apps/api/src/modules/tenants/tenants.service.ts:201-205 | no sequence of requests switches a module that is not there yet |
| Modules.RequestsKeepGood | apps/api/src/modules/tenants/tenants.service.ts:41-43 | from the modules of a new tenant, any sequence of requests keeps it so |
| Modules.NextExact | apps/api/src/modules/tenants/tenants.service.ts:206-243 | checked and written apart, a request keeps the set good exactly when it still fits as it is written |
| Modules.InterleavedRequestsKeepGood | apps/api/src/modules/tenants/tenants.service.ts:198-243 | so does every interleaving of checks and writes that all still fit |
| Modules.StaleRequestsStrand | apps/api/src/modules/tenants/tenants.service.ts:206-243 | two requests checked on the same rows can strand a module, in either order of writing |
| Modules.InventoryStranded | packages/rbac/src/modules.ts:49-248 | with the shipped modules such a run leaves inventory on and the catalog off |
| Modules.TenantModules.constructor | apps/api/src/modules/tenants/tenants.service.ts:35-75 | a new tenant has exactly the expansion of its template |
| Modules.TenantModules.SetOne | apps/api/src/modules/tenants/tenants.service.ts:198-243 | refused with the first failing check, or exactly that module switched |
| Modules.ShippedIsSound | packages/rbac/src/modules.ts:9-250 | the shipped table is a valid graph whose core needs only core |
| Calendar.RollsOver | apps/api/src/modules/crm/segment-compiler.ts:116-118 | a day its month does not have lands in the next month, any other on itself |
| Calendar.DayNumberInjective | apps/api/src/modules/crm/segment-compiler.ts:109-122 | one day number, one date |
| Calendar.WeekdayCounts | packages/shared/src/time.ts:79-82 | for every date the weekday counted from 1970 is the one the year, month and day give by the century congruence, Sunday being 0 |
| Segments.TruncationExact | apps/api/src/modules/crm/segment-compiler.ts:74-75 | cutting off an amount's fraction keeps a comparison with every whole number exactly for these operators and signs |
| Segments.BirthdayRangesExact | apps/api/src/modules/crm/segment-compiler.ts:109-122 | the enumeration matches exactly the birth dates of the last hundred years with today's month and day, 29 February included |
| Segments.BirthdaysIncrease | apps/api/src/modules/crm/segment-compiler.ts:115-120 | no date is listed twice |
| Segments.BuildBirthdayRanges | apps/api/src/modules/crm/segment-compiler.ts:109-122 | the year loop computes that enumeration |
| Segments.ConditionExact | apps/api/src/modules/crm/segment-compiler.ts:33-102 | a compiled condition selects what the condition means, for every customer, exactly when no fraction that matters is cut off, a tag is asked for with `eq`, and month and day are today's and of the birth date |
| Segments.TagOperatorIgnored | apps/api/src/modules/crm/segment-compiler.ts:40-42 | whatever the operator, a tag condition selects those who have the tag, so "not tagged" is wrong about everybody |
| Segments.MonthDayReadsBirthDate | apps/api/src/modules/crm/segment-compiler.ts:52-67 | month and day of another field, or of another value than today, disagree with the condition on a customer without a birth date |
| Segments.CompilesExactly | apps/api/src/modules/crm/segment-compiler.ts:27-75 | compiling throws exactly when a condition on the amount spent has a value that is no number |
| Segments.CompileKeepsMeaning | apps/api/src/modules/crm/segment-compiler.ts:27-102 | for every filter tree of such conditions and every customer, the compiled clause selects the customer exactly when the filter does |

## Left out

- Time: `Number()` spellings other than digit strings are read as errors; time-zone data is an offset function, and calendar dates are day numbers.
- Bookings: `mergeSlots`, choosing a resource and finding the customer; the agreement and no-double-booking theorems assume a fixed offset.
- Bookings.OfferedIffAccepted: assumes a lead-time bound not before 1970 and a horizon that ends within 400,000 days of it, because the hours check runs with those limits.
- BookingProtocol: the constraint on the order of a booking's times, which keeps blocks from being empty.
- BookingProtocol.BookingStore.Create: stated for a store with no other create in flight; the interleaved case is the run theorem.
- Money: arithmetic is exact (integers and reals), not double precision.
- Payments: the unique provider transaction id and the CHECK on refunded amounts; order and booking statuses it sets directly are kept out of the booking and stock runs.
- Payments: signature checks, provider calls and the answers for unknown integrations.
- TenantGuard: `connectOrCreate`, `upsert` and relation filters, and Prisma itself, which is modelled by the meaning of its clauses.
- TenantGuard: single-row `delete` and `upsert`, which take the same rewritten clause as `update`.
- TenantStamp: what Prisma makes of an argument that carries a tenant.
- TenantStamp: values under a relation that are neither objects nor arrays are passed through by the code and have no counterpart here.
- Loyalty: 32-bit overflow, the CHECK constraints, and the LOYALTY events.
- LoyaltyProtocol: of the rows a checkout locks before its spend, only the order sequence; a promo code used by both makes further checkouts wait.
- Loyalty.LoyaltyService.SpendLoyalty: the class runs it alone; its unlocked read is modelled in LoyaltyProtocol.
- StockRuns: one tenant's stock, whose checkouts of one UTC day wait for each other; product rows are never deleted.
- Stock: prices, promo usage, customer counters, status history and events other than the low-stock alert.
- Tokens: hashing, random secrets and access tokens; a secret stands for the row it names, and a fresh family id is one not used before.
- Segments: birth dates compare as their midnight instant; a comparison whose value has the wrong type for its column, which Prisma refuses, matches nobody, and wrong values in a list are ignored; the order of text is the database's, a parameter; `today` is taken after the year 199, where `Date.UTC` reads every year as written.
- Segments: replacing other parts of a customer query when a segment is applied to it (`apps/api/src/modules/crm/customers.service.ts:52`).
- User interfaces, controllers, input schemas, audit entries, queues, Telegram, analytics, carts, phone numbers, slugs, roles: no property beyond what one body shows, or input and output only.
