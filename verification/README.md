# A verified model of the shop

A Telegram/Bale shop with a web panel and a mini app keeps its money, points and stock in one SQLite
file. Several processes write to it at once. This project models the code that decides what a customer
owns: the wallet, order decisions, discount codes, the loyalty ledger, referral rewards, stock and
checkout. It proves what holds of them in every run and every interleaving. It also models the
smaller algorithms beside them: the Jalali calendar, the settings cache, subscription syncing, the
login limiter and the sales report.

`dafny verify dfyconfig.toml` checks everything.

## How it is built

- `Tables.dfy`, `Calls.dfy`: the tables, and what each database call does to them as one atomic step.
- `Runs.dfy`: runs, that is, any number of calls by any callers in any order, with what callers were
  told along the way. `WalletBooks`, `OrderBooks`, `StockBooks`, `LedgerBooks`, `ReferralBooks` and
  `CheckoutBooks` prove what every run keeps. `CheckoutTerms` and `Rewards` prove what a checkout charges
  and a referral pays, and when, from the tables alone.
- `Programs.dfy`: the multi-step programs of bot and panel as actors with program counters: approving,
  rejecting, awarding, redeeming, adjusting, coupon checkouts, invitation links and shipping requests.
  Any number of them advance one database call or read at a time, may crash, and may hold stale reads.
  `AwardBooks`, `TierBooks`, `StoredTiers`, `Shipping`, `Invitations`, `InvitationPoints`, `Turns`
  (checkouts) and `Settlements` (amounts) prove what every interleaving keeps, and `Interleavings` proves the books together.
  `Programs.InterleavingIsRun` says that every interleaving is a run.
- `Database.dfy`, `Services.dfy`, `Shipping.dfy`: the same code as imperative classes and methods, in
  the statement order of the source, proved equal to the calls and programs above.
- `Examples.dfy`: for every property that fails, a store and calls or events at which it does.
- `Calendars.dfy`, `Jalali.dfy`: the two calendars day by day, and the conversion code against them.
- `Loyalty.dfy`, `Settings.dfy`, `Subscriptions.dfy`, `LoginLimiter.dfy`, `SalesStats.dfy`: one
  component each. `Sums.dfy` and `Sorting.dfy` hold sums over rows and the stable sort.

## Where the code does not do what it says

The model follows the code. Each difference has a theorem that says exactly when it shows and an input
at which it does (in `Examples.dfy` unless named here).

1. Dates in Esfand come out as the day of the year (jalali.py:50 takes the day before the month loop).
   Labelled "as written" (`Jalali.EsfandExample`); the version with the day taken after the loop is
   labelled "repaired".
2. A checkout with a coupon is not atomic. Reading the coupon inside the transaction commits it, so a
   failure after that loses the cart, also when the code was switched off or used up since the first look
   (services/checkout.py:285 and 382, against lines 19-27). The model has it as a look and two calls that
   others may come between. Money, stock and codes survive that; the second call does not look again at
   the idempotency key or at what the buyer has bought since (`OneKeyTwoOrders`, `CodeSwitchedOff`).
3. The buyer's cancel flow ignores the outcome of the rejection and can take back the points of an order
   that was approved meanwhile (handlers_user.py:783-786; `LateCancelHappens`). Refunds only ever reach
   approved orders.
4. Points and commission disagree on what was paid when the final price is zero (loyalty.py:182,
   services/orders.py:16-30; `FreeOrderEarnsPoints`).
5. An order's stock is freed twice when a cancelled parcel is packed or approved and then cancelled again,
   when an order is both cancelled and rejected, and when two requests cancel it at once, because
   services/orders.py:86-122 reads the order and database.py:3686-3715 does not look again
   (`CancelPackCancel`, `CancelApproveCancel`, `RejectThenCancel`, `ConcurrentCancels`,
   `FreesAnothersShirt`). Only the chain and cancelling are documented moves.
6. Two pending orders for one digital product can both be approved; only checkout looks (`BothApproved`).
7. A stored tier is never ahead of the points earned, but it lags: it is the tier of the total its last
   tiered entry was worked out from, and registration and referral bonuses store none (loyalty.py:231-271,
   database.py:2551-2556). One bonus over a threshold is enough (`StoredTiers.BonusLeavesTierBehind`), and
   two crossed adjustments make it fall back (`TierBooks.StoredTierMayRegress`). A user without a tiered
   entry has no tier stored, although every accepted table starts at zero.
8. `set_setting_default` can cache a value the table never held (database.py:985; `Settings.NeverStored`).
9. The login limiter tells every refused client a time 300 seconds later than the one at which it is let in,
   and the test at admin_panel/server.py:78 is always true.
10. A manual wallet correction beyond the balance is clamped, which the books cannot account for
    (`ClampedCorrection`).
11. A user who follows two invitation links at once is recorded under the first, while the bonus can go to
    the second (`WrongReferrerPaid`) and points to both (`BothReferrersGetPoints`): the flow reads, writes
    and ignores whether the write succeeded (handlers_user.py:160-188, handlers_bale.py:177-190).

## Model

| member | source | states |
|---|---|---|
| `Jalali.GClosedFormIsYearStart` | jalali.py:31 | the closed form for Gregorian years equals the year-by-year sum of year lengths, for every integer year |
| `Jalali.JClosedFormIsYearStart` | jalali.py:71 | the 33-year closed form equals the year-by-year sum of Jalali year lengths |
| `Calendars.GDayMonotone` | jalali.py:23-36 | Gregorian day numbers order dates exactly as the calendar does and name each date once |
| `Calendars.JDayMonotone` | jalali.py:61-76 | the same for Jalali dates |
| `Jalali.GregorianDayNumber` | jalali.py:27-36 | closed form plus month loop gives the day number of every date |
| `Jalali.JalaliYear` | jalali.py:38-48 | the cycle reduction finds the year that holds a day and leaves a day inside it |
| `Jalali.GregorianToJalali` | jalali.py:23-58 | as written: the Jalali name of the same day, except that in month 12 the day of the year stands as the day |
| `Jalali.GregorianToJalaliRepaired` | jalali.py:23-58 | repaired: the Jalali name of the same day, for every integer year |
| `Jalali.GregorianYear` | jalali.py:78-98 | the 400/100/4/1 reduction always leaves a day inside the year it names |
| `Jalali.GregorianMonth` | jalali.py:100-108 | the month loop always breaks, on a valid date that far into the year |
| `Jalali.JalaliDayNumber` | jalali.py:67-76 | closed form plus month loop gives the Jalali day number |
| `Jalali.JalaliToGregorian` | jalali.py:61-110 | totally correct for every integer year: a valid Gregorian date exactly 79 days after the Jalali day number |
| `Jalali.RoundTripRepaired` | jalali.py:23-110 | repaired, both compositions are the identity on all valid dates |
| `Jalali.RoundTripAsWritten` | jalali.py:23-110 | as written, the round trip is exact if and only if the month is not Esfand, and otherwise off by 336 days |
| `Jalali.AsWrittenValidIffNotEsfand` | jalali.py:50-58 | as written, the result is a date exactly outside Esfand; inside, the day is 337 to 366 |
| `Jalali.AsWrittenKeepsOrder` | jalali.py:23-58 | as written, the conversion is still injective and strictly order-preserving |
| `Jalali.EsfandExample` | jalali.py:50 | a concrete date that comes out as day 365 of month 12 |
| `Jalali.KnownDays` | jalali.py:23-110 | seven days the two calendars are known to share, at centuries, leap days and 22 Bahman 1357, have day numbers 79 apart |
| `Jalali.RepairedThereAndBack` | jalali.py:23-110 | the two conversions run one after the other return the date given |
| `OrderBooks.OneWinner` | database.py:2070-2145 | in every run, an order placed pending has told exactly one approver or rejecter that it won once it is decided, none before, and its status says which |
| `OrderBooks.CodeInUse` | database.py:2120-2124 | giving a pending order's code back never meets the clamp at zero |
| `OrderBooks.CodeUsesConserved` | services/checkout.py:423-430 | a code's use count is what it was plus one per order that holds it and was not rejected, and never beyond its limit |
| `WalletBooks.CheckoutDebit` | services/checkout.py:401-421 | a checkout takes from the wallet what its order records, never more than there is |
| `WalletBooks.WalletConserved` | database.py:2070-2919 | in every run: balance = opening + approved top-ups + redeemed + commissions, bonuses and corrections - what orders hold; rejected orders hold nothing |
| `WalletBooks.ClampBreaksBalance` | database.py:2466-2471 | a manual correction keeps the books right if and only if it takes no more than there is |
| `Examples.ClampedCorrection` | database.py:2466-2471 | taking one toman from an empty wallet takes nothing, and the books say it took one |
| `WalletBooks.TopUpPaidOnce` | database.py:2884-2919 | an approved top-up credits its amount, and after any run no one can approve or reject it again |
| `StockBooks.ReserveAllTakes` | services/checkout.py:159-176 | the reservation loop takes the whole quantity of every variant and never oversells |
| `StockBooks.ReleaseAllClamps` | database.py:2127-2144 | the release loop gives back the quantity of every variant, clamped at zero, in any item order |
| `StockBooks.StockConserved` | database.py:3402-3474 | in every run in which an order gives its stock back once: reserved stock is the sum over orders still holding it, at most what is on hand, so no clamp fires |
| `StockBooks.FirstReleaseStocked` | database.py:3686-3715 | the first release of an order keeps the stock books right |
| `StockBooks.SecondReleaseExact` | database.py:3686-3715 | a second release keeps them right if and only if nobody holds any of its variants |
| `StockBooks.CancelThenRejectExact` | database.py:2125-2145 | cancelling a pending order's delivery and then rejecting it keeps the books right if and only if no other order held its variants |
| `StockBooks.ShelfStocked` | database.py:3425-3434 | a stock correction keeps them right if and only if it leaves what is reserved |
| `StockBooks.ShelfMoves` | database.py:3402-3434 | a correction or a count moves what is on hand of its variant to exactly what it says, unless that is negative, and no other variant and nothing reserved |
| `StockBooks.KeptLinesExact` | database.py:757-768 | deleting a product or variants takes exactly their lines out of the carts |
| `StockBooks.DeleteVariantsExact` | database.py:1885-1887 | deleting a product or variant, which takes its inventory rows with it, keeps them right if and only if nobody holds one of its variants |
| `Examples.FreesAnothersShirt` | database.py:2125-2145 | two users have each ordered one of two shirts; cancelling and then rejecting the first order frees the second user's |
| `LedgerBooks.LedgerReplays` | database.py:2502-2631 | in every run: counters are the ledger's sums, every balance_after is the prefix sum and not negative, keys are unique, held plus spent is at most earned |
| `LedgerBooks.NoRowNoEffect` | database.py:2502-2631 | a failed or duplicate entry changes no counter, balance or row |
| `ReferralBooks.CommissionCaps` | database.py:2646-2703 | in every run, whoever calls, the commissions of a referrer are exactly the first claims up to the cap, and nobody is paid for twice |
| `Rewards.CommissionTold` | database.py:2646-2703 | a commission is paid if and only if the settings are on, the buyer was brought and not counted yet and the cap leaves room; it goes to the referrer on record and is the set percentage of what was paid, rounded down |
| `Rewards.CommissionCredited` | database.py:2682-2703 | it is credited in full to the referrer and no one else, and the first purchase is counted even beyond the cap |
| `Rewards.BonusTold` | database.py:2723-2749 | a bonus is paid if and only if the settings are on, both are registered, the invited is not counted yet and the cap leaves room; it is the set amount |
| `Rewards.PayoutsTold` | database.py:2646-2749 | in every run, every commission is that percentage of the amount its purchase call named and went to the one on record, and every bonus is the set amount |
| `ReferralBooks.InviteKeepsCapsExact` | database.py:2723-2749 | a bonus asked for in the name of any referrer keeps "exactly the first claims up to the cap" if and only if it counts nothing, names the referrer on record, or both are past the cap |
| `ReferralBooks.ReferralCaps` | database.py:2705-2749 | in every run whose bonus calls are of that kind, the bonuses of a referrer are exactly the first claims up to the cap |
| `Invitations.InvitationsCapped` | handlers_user.py:160-188 | in every interleaving of invitation links with everything else the bonuses are right, as long as nobody follows two links at once |
| `InvitationPoints.PointsEnteredExact` | loyalty.py:251-271 | an event enters the points for a link if and only if it is its actor's step, programme and bonus are on, and the referrer is registered |
| `InvitationPoints.PointsEnteredTold` | loyalty.py:251-271 | they are the set number of points, entered for and added to the referrer |
| `InvitationPoints.LatePointsExact` | handlers_user.py:160-188 | once a user has a referrer, anyone else can still come to the points for it if and only if its link was past its read by then |
| `InvitationPoints.TwoRowsCrossed` | handlers_user.py:160-188 | in every interleaving, if two have got the points for one user, there was a moment at which both links had been read and neither had named a referrer |
| `InvitationPoints.CrossedGivesTwoRows` | handlers_user.py:160-188 | from every such moment both can get them |
| `InvitationPoints.PointsOnRecord` | handlers_user.py:160-188 | as long as nobody follows two links at once, only the referrer on record gets points for a user |
| `Examples.WrongReferrerPaid` | handlers_user.py:160-188 | eight events of two links followed at once, after which the bonus for a user has gone to one who is not its referrer |
| `Examples.BothReferrersGetPoints` | handlers_user.py:160-188 | eight events of two links followed at once, after which both referrers have the points for the user |
| `ReferralBooks.MarkBuyerCounts` | database.py:2671-2691 | claiming a first purchase adds one buyer to its referrer and to no one else |
| `ReferralBooks.ReferrerForEver` | database.py:2434-2446 | naming a referrer works exactly for two registered users of whom the first has none, and stays for ever |
| `Turns.OneOrderPerKeyInTurns` | services/checkout.py:259-482 | in every interleaving in which checkouts with one idempotency key do not overlap, no two orders share a key |
| `CheckoutBooks.OneOrderPerKey` | services/checkout.py:274-302 | in every run no two orders share an idempotency key, as long as no claimed cart is placed under a key taken meanwhile |
| `CheckoutBooks.PlaceClaimedKeyedExact` | services/checkout.py:386-477 | the second half of a coupon checkout keeps that if and only if its key is still free |
| `Examples.OneKeyTwoOrders` | services/checkout.py:386-477 | a claim, a refilled cart checked out under the same key, then the claimed cart placed: two orders with one key and an e-book paid for twice |
| `CheckoutBooks.ReplayForever` | services/checkout.py:292-302 | a checkout sent again at any later time gives the same order and changes nothing |
| `CheckoutBooks.CouponCommitsEarly` | services/checkout.py:291-384 | a failed checkout leaves no trace if and only if no coupon was given or it failed before the cart was claimed; otherwise the cart, and only it, is gone |
| `CheckoutBooks.LostCartExample` | services/checkout.py:111-119 | the same sold-out attempt keeps the cart without a coupon and loses it with one |
| `CheckoutBooks.ClaimThenPlace` | services/checkout.py:274-482 | with nobody in between, the look and the two halves of a coupon checkout are the whole attempt |
| `CheckoutBooks.ClaimLosesCartExact` | services/checkout.py:291-384 | a refused claim leaves no trace if and only if the coupon was not the reason; otherwise it has become invalid since the look, and the cart, and only it, is gone |
| `Examples.CodeSwitchedOff` | services/checkout.py:380-384 | a code switched off between the look and the claim costs the buyer the cart |
| `CheckoutBooks.PlaceClaimedBoughtOnceExact` | services/checkout.py:386-477 | the second half keeps "paid for once" if and only if the order is left pending or none of its products has been bought since |
| `WalletBooks.ClaimedDebit` | services/checkout.py:402-421 | it debits what its order records and no more than there is, however old the balance it read |
| `CheckoutBooks.QuoteAddsUp` | services/checkout.py:401-408 | wallet part, discount and what is left to pay add up to the price, and the wallet never pays for shipping |
| `CheckoutTerms.PlacedGoodsTold` | services/checkout.py:343-477 | the order of a checkout is for the lines of the cart, with the quantities stock reserves; its price is the sum of unit price times that quantity, its kind and shipping are those of its lines |
| `CheckoutTerms.PlacedOrderTold` | services/checkout.py:380-408 | and what is taken off it is the percentage of the code rounded down, or its amount, never more than the price; the wallet pays as much of the rest as it can |
| `CheckoutTerms.PlacedTakesTold` | services/checkout.py:413-477 | balance, code uses, stock, cart and key move by exactly what the order says, and no other row does |
| `CheckoutTerms.PlacedExact` | services/checkout.py:259-482 | a checkout under a new key goes through if and only if carts are on, the code is active, unexpired and has uses left, the cart is not empty, none of its digital products is owned, all lines can be sold, delivered and are in stock |
| `CheckoutTerms.RefusalTold` | services/checkout.py:259-482 | and otherwise the reason given is true, of the first line in cart order if it is about a line |
| `CheckoutTerms.CodeTurned` | database.py:2799-2806 | a new code starts unused on its own terms, and switching it changes nothing but whether it can be used |
| `CheckoutTerms.ReservableExact` | services/checkout.py:465-474 | reserving item by item succeeds if and only if there is enough of every variant for all its items |
| `CheckoutTerms.OneMoreUnit` | services/checkout.py:367-371 | one unit more of a physical line raises the total by exactly its price |
| `CheckoutTerms.DiscountTold` | services/checkout.py:103-119 | what a code takes off |
| `CheckoutTerms.ClaimTold` | services/checkout.py:291-384 | the first half of a coupon checkout hands on the price of the goods and what the code takes off it |
| `CheckoutTerms.ClaimedOrderTold` | services/checkout.py:386-477 | the second half makes the order for those goods at that price |
| `CheckoutTerms.ClaimedPlacedExact` | services/checkout.py:386-474 | when it does: if and only if it can still be delivered, the wallet still covers its part, the code is still on with uses left and all is in stock |
| `Settlements.EveryOrderCharged` | services/checkout.py:259-482 | in every interleaving, the next order inserted is for the goods of a cart at its prices, a claimed cart included |
| `CheckoutBooks.InstantApprovalIsPaid` | services/checkout.py:433-435 | an order is approved on the spot exactly when the setting is on and nothing is left to pay: no shipping, and the wallet covered all but the discount |
| `Turns.DigitalBoughtOnceInTurns` | services/checkout.py:259-482 | in every interleaving in which checkouts of one buyer do not overlap, and approvals are of goods neither owned nor in a claimed cart, no user has paid twice for a digital product |
| `CheckoutBooks.DigitalBoughtOnce` | services/checkout.py:311-338 | in every run whose approvals and claimed placements are of goods not owned yet, no user has paid twice for a digital product |
| `CheckoutBooks.CheckoutBoughtOnce` | services/checkout.py:311-338 | checkout keeps "a digital product is paid for once per user" |
| `CheckoutBooks.ApprovalBoughtOnceExact` | database.py:2084-2092 | approval keeps it if and only if the buyer owns none of the order's digital products yet |
| `Examples.BothApproved` | database.py:2084-2092 | two pending orders of one user for one e-book, approved one after the other |
| `Interleavings.EveryInterleavingInOrder` | services/orders.py:33-122 | in every interleaving of approvals, rejections, awards, refunds, redemptions, adjustments, invitations, shipping requests and two-step coupon checkouts, with outside callers that are fair to the wallet: wallets, ledger, decisions, codes and commissions are all right at once |
| `Interleavings.EveryInterleavingStocked` | services/orders.py:33-122 | in every interleaving with outside callers fair to the stock and no parcel cancelled before its order is decided or twice: reserved stock is what orders hold and is on hand |
| `Interleavings.CallIsFair` | services/orders.py:33-122 | whatever an actor read and whenever, its next call meets what the run theorems ask of callers |
| `Interleavings.CallIsFairToStock` | services/orders.py:33-122 | and so for the stock |
| `Programs.InterleavingIsRun` | services/orders.py:33-83 | every interleaving of the programs is a run of calls |
| `AwardBooks.AwardOnceRefundOnce` | loyalty.py:158-228 | in every interleaving an order's net points are nothing or its one award, and awards and refunds stand only against approved orders |
| `AwardBooks.RefundedForEver` | loyalty.py:208-228 | once refunded an order contributes nothing, for ever |
| `AwardBooks.GuardedNeverRefunds` | handlers_admin.py:1027-1037 | with callers that look at the decision's outcome no refund is ever entered: every search finds no award |
| `AwardBooks.LateCancelTakesPoints` | handlers_user.py:776-793 | a late cancel, with anything happening before each of its steps, takes the points of an approved order if and only if it finds the award as it looks, and as it writes the balance covers them and they were not taken before |
| `Examples.LateCancelHappens` | handlers_user.py:776-793 | twelve events from an empty ledger: an order is read by its buyer's cancel, approved and awarded 100 points, and loses them |
| `TierBooks.StoredTierNeverAhead` | loyalty.py:184-198 | in every interleaving, stale reads included, a stored tier's threshold has been earned |
| `StoredTiers.StoredTierTraced` | loyalty.py:184-198 | in every interleaving, the stored tier is that of the total its last tiered entry was worked out from, or none before the first |
| `StoredTiers.StoredTierCurrentExact` | loyalty.py:88-112 | in every interleaving, it is the tier of what has been earned if and only if no threshold lies above that total and not above what has been earned |
| `StoredTiers.UntieredCreditExact` | database.py:2551-2556 | an entry without a tier leaves a right tier right if and only if it crosses no threshold |
| `StoredTiers.TieredWriteExact` | loyalty.py:184-198 | an entry with a tier makes it right if and only if no threshold lies between the total read and the total now, both with its points |
| `StoredTiers.KeepsTierExact` | database.py:2551-2564 | any event keeps a right tier right if and only if it is no such entry over an untold threshold |
| `StoredTiers.TierStaysCurrent` | database.py:2502-2579 | from any moment at which it is right, it is right for as long as every entry for the user is of that kind |
| `StoredTiers.QuietWriteCurrent` | loyalty.py:308-335 | an award or adjustment leaves the right tier if its user earned nothing between its read and its write, whatever else happened |
| `StoredTiers.SameTierExact` | loyalty.py:88-95 | two totals have one tier if and only if no threshold lies between them, for every sorted table whose ids differ |
| `StoredTiers.AcceptedIsNamed` | admin_panel/server.py:1858-1875 | every table an editor accepts is one |
| `StoredTiers.BonusLeavesTierBehind` | loyalty.py:231-248 | an adjustment and then a registration bonus, one after the other, leave the first tier stored with 160 points earned |
| `TierBooks.StoredTierMayRegress` | loyalty.py:320-331 | six events after which the stored tier has fallen from the second to the first with 260 points earned |
| `TierBooks.RedemptionsExact` | loyalty.py:274-305 | in every interleaving, points spent and toman credited stand in the set rate exactly, user by user |
| `Loyalty.ParseTiers` | handlers_admin.py:1582-1605 | accepts exactly the tables with valid rows, distinct thresholds and one at zero, and stores them sorted |
| `Loyalty.CheckTiers` | admin_panel/server.py:1858-1875 | accepts exactly the same tables and stores the same |
| `Sorting.SortedIsAscending` | loyalty.py:84 | sorting by a key puts the keys in order |
| `Sorting.SortedPermutes` | loyalty.py:84 | and keeps every row as often as it was there |
| `Loyalty.LoadTiers` | loyalty.py:64-85 | skips the rows that cannot be read and returns the others sorted by threshold |
| `Loyalty.LoadedAsStored` | loyalty.py:64-85 | the table an editor stores is loaded exactly as it was stored |
| `Loyalty.FindTier` | loyalty.py:88-95 | the loop returns the last tier whose threshold is reached |
| `Loyalty.FindNextTier` | loyalty.py:98-103 | the loop returns the first tier above |
| `Loyalty.TiersPartition` | loyalty.py:88-155 | every accepted table cuts the naturals into intervals; tier and next tier are the interval's own and the adjacent one, and points to next are positive |
| `Loyalty.TierMonotone` | loyalty.py:88-103 | earning more lowers neither the tier nor the next tier |
| `Loyalty.PointsMonotone` | loyalty.py:115-129 | with the tier fixed, paying more never earns less, cap or no cap |
| `Loyalty.PointsAtStep` | loyalty.py:122-127 | a purchase earns at the rate of the step its buyer stands on: amount times rate over a hundred times the toman a point costs, rounded down |
| `Loyalty.PointsWithoutTier` | loyalty.py:122-127 | without a tier it earns a point per that many toman, rounded down |
| `Loyalty.PointsCapped` | loyalty.py:117-129 | a cap takes what lies above it and nothing else; no amount or no price of a point earns nothing |
| `Loyalty.PointsOnAccepted` | loyalty.py:115-129 | so on every table an editor accepts, capped or not |
| `Loyalty.PurchasePoints` | loyalty.py:115-129 | the points of a purchase lie between zero and the cap |
| `Loyalty.SplittingLosesLittle` | loyalty.py:115-129 | at one tier and without a cap, a purchase in k parts never earns more than in one and at most k - 1 points less |
| `Loyalty.AwardBaseIsPaidAmountExact` | loyalty.py:172-183 | points and commission use the same paid amount if and only if the final price is not zero or the base price is |
| `Examples.FreeOrderEarnsPoints` | loyalty.py:182 | an order of 500,000 paid from the wallet earns 50 points and no commission |
| `Databases.Database.ApproveOrder` | database.py:2070-2092 | statement by statement the call of the same name |
| `Databases.Database.RejectOrder` | database.py:2094-2145 | the conditional update, wallet and code returns and item loop are the one atomic rejection |
| `Databases.Database.ReleaseItems` | database.py:2128-2136 | the loop over order_items gives back every item with a variant |
| `Databases.Database.CancelPhysicalFulfilment` | database.py:3686-3715 | cancels and releases any order that is not digital, whatever its status |
| `Databases.Database.SetPhysicalFulfilment` | database.py:3668-3676 | sets the status of an existing order unconditionally |
| `Databases.Database.AddWalletCredit` | database.py:2466-2471 | adds to an existing user's balance, never below zero |
| `Databases.Database.CreateTopUp` | database.py:2845-2851 | a new pending top-up |
| `Databases.Database.ApproveTopUp` | database.py:2884-2910 | the conditional update and credit are the one atomic approval |
| `Databases.Database.RejectTopUp` | database.py:2912-2919 | decides a pending top-up and moves no money |
| `Databases.Database.EnsurePoints` | database.py:2483-2491 | makes a missing points row, or fails on a missing user |
| `Databases.Database.ApplyLoyaltyMutation` | database.py:2502-2579 | insert, update, ledger row and every rollback path are the one atomic entry |
| `Databases.Database.RedeemPointsForWallet` | database.py:2581-2631 | conditional debit, credit and ledger row are the one atomic redemption |
| `Databases.Database.SetReferredBy` | database.py:2434-2446 | writes the referrer exactly as ReferrerForEver says |
| `Databases.Database.RewardReferrerIfFirstPurchase` | database.py:2646-2703 | claim, cap and commission are the one atomic reward |
| `Databases.Database.ApplyReferralInviteRewards` | database.py:2705-2749 | claim, count and bonus are the one atomic reward |
| `Databases.Database.AdjustInventory` | database.py:3402-3423 | moves stock on hand unless it would become negative, and then only makes the missing row |
| `Databases.Database.SetInventory` | database.py:3425-3434 | sets stock on hand and keeps what is reserved |
| `Databases.Database.ReserveStock` | services/checkout.py:159-176 | one conditional reservation |
| `Databases.Database.ReserveItems` | services/checkout.py:465-474 | the loop reserves all physical items or reports that one cannot be had |
| `Databases.Database.FindOwned` | services/checkout.py:314-338 | finds a digital line the user has paid for, if there is one |
| `Databases.Database.ValidateLines` | services/checkout.py:343-378 | the first fault in cart order, or the order's items and total |
| `Databases.Database.DebitWallet` | services/checkout.py:414-421 | takes the amount only if it is there |
| `Databases.Database.ConsumeCode` | services/checkout.py:423-430 | uses a code only if it is active and not used up |
| `Databases.Database.PlaceOrder` | services/checkout.py:413-477 | debit, code, order row and reservations, or the first that fails |
| `Databases.Database.TakeCart` | services/checkout.py:291-378 | reads, checks and claims the cart, or stops with the first reason and no trace |
| `Databases.Database.ClaimWithCoupon` | services/checkout.py:291-384 | the transaction up to the commit that reading the coupon makes is the first call of a coupon checkout |
| `Databases.Database.CheckoutWithCoupon` | services/checkout.py:291-482 | the two transactions in a row are the two calls in a row |
| `Databases.Database.CheckoutCart` | services/checkout.py:259-482 | the whole attempt with its rollbacks and its early commit is the call CouponCommitsEarly is about |
| `Services.AloneIsSteps` | services/orders.py:33-83 | a program that runs undisturbed reaches the store its actor reaches |
| `Services.AwardPurchase` | loyalty.py:158-205 | leaves the store, points and error that the award rule says |
| `Services.AwardReportsRow` | loyalty.py:186-205 | the points it reports are the row it entered, for an approved order without an award |
| `Services.AwardTold` | loyalty.py:158-205 | they are what the goods left to pay earn at the buyer's step, or the goods if nothing is left to pay |
| `Settlements.EverythingSettled` | services/orders.py:33-74 | in every interleaving, every purchase row is what its approved order earns at a total its buyer had reached, and every commission the set percentage of what an approved order of the buyer left to pay |
| `Settlements.PaidTold` | services/orders.py:16-30 | of a placed order, commission is due on what code and wallet leave of the goods, without shipping, and points are earned on that, or on all the goods if it cost nothing |
| `Settlements.ApprovalSettles` | handlers_admin.py:930-957 | an undisturbed approval approves, restarts the delivery, enters what the order earns and pays what is due on a first purchase |
| `Services.AwardAfterApprove` | services/orders.py:61-74 | is the award program run to its end, and returns the points entered and what became of the commission |
| `Services.ApproveOrderFlow` | handlers_admin.py:930-957 | is the approval program run to its end, and succeeds exactly for a pending order |
| `Services.ReversePurchase` | loyalty.py:208-228 | is the refund program run to its end; it returns the points of the award if it took them back now, and zero otherwise |
| `Services.RejectOrderFlow` | handlers_admin.py:1018-1037 | is the rejection program run to its end, guarded or not |
| `Services.RedeemForWallet` | loyalty.py:274-305 | is the redemption program; it succeeds exactly when the amount is allowed, covered and new; what it reports is at the rate, and the balance it names is right and not negative |
| `Services.AdminAdjust` | loyalty.py:308-335 | is the adjustment program; it succeeds exactly for a registered user and an amount that is not zero and leaves no negative balance, which it returns |
| `Services.CouponCheckout` | services/checkout.py:259-482 | is the coupon program run to its end, with the reply of the whole attempt |
| `Shipping.SetFulfilmentStatus` | services/orders.py:86-122 | is the shipping program run to its end; answers which of its reasons it refused for |
| `Shipping.MovesExact` | services/orders.py:86-122 | undisturbed, a physical order moves exactly when the documented rule allows it, or from cancelled to packed, and stock is given back exactly on cancelling |
| `Shipping.RefusalTold` | services/orders.py:86-122 | the reason for not moving is the one that holds, if and only if it does |
| `Shipping.ReleasesCounted` | database.py:3686-3715 | in every run of any calls, an order's stock has been given back once for being rejected, once for being cancelled now, and once for each time it left the cancelled state or was cancelled in it |
| `Shipping.ReleasedOnceExact` | database.py:3686-3715 | so it is given back at most once if and only if at most one of these happened; for an order that never left the cancelled state and was not cancelled twice, its status and fulfilment say whether it was |
| `Shipping.NextReleaseExact` | database.py:3686-3715 | the next call gives it back a second time if and only if it cancels a rejected or cancelled order or rejects a cancelled one |
| `Examples.CancelPackCancel` | services/orders.py:104-113 | cancelled, packed, cancelled gives the stock back twice |
| `Examples.RejectThenCancel` | services/orders.py:109-113 | so does rejecting an order and cancelling its delivery |
| `Examples.CancelApproveCancel` | database.py:2084-2092 | and cancelling the delivery of a pending order, approving it, which resets the delivery, and cancelling again |
| `Examples.ConcurrentCancels` | services/orders.py:86-113 | and two requests that both read the order before either writes |
| `Shipping.NoStepSkipped` | services/orders.py:104-107 | in every interleaving, stale reads included, a shipped parcel has been packed and a delivered one packed and shipped |
| `Settings.SettingsCache.GetSetting` | database.py:944-958 | the value served was the table's at some instant of the last TTL seconds plus the time of the load; the default only if nothing was |
| `Settings.SettingsCache.LoadSettingsCache` | database.py:960-966 | a reload makes every entry current whatever was cached before |
| `Settings.SettingsCache.SetSetting` | database.py:968-976 | writes through and keeps the cache current |
| `Settings.SettingsCache.SetSettingDefault` | database.py:978-986 | what it caches is what is stored if and only if no other value has been stored since the cache was read; and a fresh cache stays fresh if and only if it had the entry, the row was missing, or the table has held this value since the cache was read |
| `Settings.OwnWriteReadBack` | database.py:944-976 | own writes are read back until the next reload, whatever other processes write and whenever |
| `Settings.NeverStored` | database.py:978-986 | four calls after which a value is served that the table never held |
| `Subscriptions.Manager.SyncSubscription` | admin_panel/vless_manager.py:311-472 | two loops and a commit that notes the time, or no node changed and the true reason recorded; an unknown id records nothing |
| `Subscriptions.Manager.ClearAbsent` | admin_panel/vless_manager.py:409-429 | marks exactly the rows of the subscription that were not received |
| `Subscriptions.Manager.SyncAll` | admin_panel/vless_manager.py:474-494 | attempts every enabled subscription in turn and goes on after failures |
| `Subscriptions.SyncRow` | admin_panel/vless_manager.py:335-431 | what becomes of the row of any link, by key, with the details received last |
| `Subscriptions.SyncReconciles` | admin_panel/vless_manager.py:335-431 | present rows are exactly the received links, no row is lost, enabled and health are kept, other subscriptions are untouched; rows found carry the details received last, and new rows are enabled, present, of unknown health, with the details received last and both times now |
| `Subscriptions.SyncIdempotent` | admin_panel/vless_manager.py:335-431 | the same list again changes nothing but times |
| `Subscriptions.SyncAllIsolates` | admin_panel/vless_manager.py:474-494 | each subscription comes out as if it alone had been synced, whichever others fail |
| `LoginLimiter.RecentCount` | admin_panel/server.py:73-75 | the k latest failures are in the window exactly when the k-th latest is |
| `LoginLimiter.RefusalExact` | admin_panel/server.py:69-82 | counting refuses exactly while the tenth latest failure is in the window, and then that is the oldest one counted |
| `LoginLimiter.FailureTracks` | admin_panel/server.py:85-86 | a failure that was let through keeps any eleven failures at least a window apart |
| `LoginLimiter.AtMostTen` | admin_panel/server.py:63-86 | no 900 seconds, wherever they lie, hold more than ten failures |
| `LoginLimiter.LimiterAtMostTen` | admin_panel/server.py:63-86 | which holds of every limiter, for every client, after any requests |
| `LoginLimiter.Limiter.CheckRateLimit` | admin_panel/server.py:69-82 | forgets only what no longer matters, and the test of line 78 is always true |
| `LoginLimiter.Limiter.Login` | admin_panel/server.py:264-275 | refused exactly while blocked; only wrong passwords are recorded; success clears |
| `LoginLimiter.RefusedUntil` | admin_panel/server.py:75-82 | a refused client is let in again at one moment within 900 seconds, 300 before the one it is told |
| `SalesStats.DailySeries` | database.py:2303-2317 | one entry per day of the period with that day's figures; they add up to its revenue and orders |
| `SalesStats.CategoryBreakdown` | database.py:2319-2328 | one row per listed category that sold something, with its figures, best revenue first |
| `SalesStats.OneMoreInTotals` | database.py:2262-2284 | one more sale in the period adds one to the count of its status, and its final price, or else its product's, to the revenue if it is approved; otherwise nothing |
| `SalesStats.OneMoreInBreakdowns` | database.py:2303-2339 | an approved one adds that to the revenue of referred or of direct buyers as its user has a referrer or not, and with one order to its day and its category and to no other |
| `SalesStats.NothingToReport` | database.py:2262-2339 | with no sales every figure is zero |
| `SalesStats.CategoriesCover` | database.py:2319-2328 | the categories and the sales without one add up to the revenue |
| `SalesStats.ReferralsCover` | database.py:2330-2339 | referred, direct and userless revenue add up to the revenue |
| `SalesStats.PeriodsAbut` | database.py:2257-2260 | the period compared with has the same length, and both together are one period |
| `SalesStats.GetSalesStats` | database.py:2238-2365 | the totals of the period and of the one before, days, categories, referred and direct revenue are those figures; days always add up; categories do if and only if the sales without a category bring no revenue, referral shares if and only if those without a user bring none; dates the wrong way round give one empty day |

## Left out

- Atomicity: each database method is one step, as one lock and one commit make it (database.py:298-308); only the coupon checkout commits twice and is a look and two steps. A method that reads before its first write could see another process in between; so the commission cap, which counts before it writes, is right for the method taken as atomic. A checkout without a coupon is one transaction.
- Programs: settings are fixed within a run, and the two reads of an order in the award path are one read. A crash is an actor that vanishes, so an error that is caught and logged is not a state of its own. The Bale cancel flow (handlers_bale.py:460-465) refunds nothing and is covered as a plain rejection.
- AwardBooks.GuardedNeverRefunds: for callers that start with no actor under way and an empty ledger; the cancel flow is the one caller outside it.
- StockBooks.StockConserved: requires carts filled through add_to_cart, that an order gives its reservation back once and that corrections and deletions leave what is reserved; SecondReleaseExact, CancelThenRejectExact, ShelfStocked and DeleteVariantsExact say what happens otherwise.
- Interleavings.EveryInterleavingInOrder: asks of outside callers what WalletConserved asks.
- Interleavings.EveryInterleavingStocked: asks of outside callers what StockConserved asks, and of everyone that a delivery is cancelled at most once and only after the order has been decided; Shipping.NextReleaseExact says what a second time does.
- WalletBooks.WalletConserved: requires non-negative amounts, registered users and corrections within the balance; ClampBreaksBalance says what happens otherwise.
- ReferralBooks.ReferralCaps: requires of each bonus call what InviteKeepsCapsExact shows to be necessary. Both callers (handlers_user.py:160-188, handlers_bale.py:177-190) are programs of several steps that meet it unless one user follows two links at once.
- Invitations.InvitationsCapped: requires that nobody follows two links at once and that both ends of a link are registered; WrongReferrerPaid is the other case.
- InvitationPoints.PointsOnRecord: requires the same, and that referral points are entered by the invitation flow only, as loyalty.award_referral has no other caller; BothReferrersGetPoints is the other case.
- Turns.OneOrderPerKeyInTurns: requires that checkouts with one key do not overlap; OneKeyTwoOrders is the other case.
- Turns.DigitalBoughtOnceInTurns: requires that checkouts of one buyer do not overlap and of each approval what ApprovalBoughtOnceExact shows to be necessary; OneKeyTwoOrders and BothApproved are the other cases.
- CheckoutTerms.PlacedOrderTold: for prices, quantities, code terms and balances that are not negative; PlacedGoodsTold needs none of that.
- CheckoutTerms.PlacedExact: for carts filled through add_to_cart.
- Settlements.EverythingSettled: requires that purchases are rewarded by award_after_approve only (services/orders.py:61-74), its one caller.
- CheckoutBooks.DigitalBoughtOnce: requires of each approval and claimed placement what the two Exact lemmas show to be necessary.
- SalesStats.GetSalesStats: conversion rate, average basket, percentages, top products and counts of users and tickets, which are separate queries; categories of equal revenue come in the order listed.
- LoginLimiter.Limiter.Login: requests one after another and a clock that does not go back; the text of the message is only its moment.
- Shipping.ReleasesCounted: set_physical_fulfillment_status is called only to move along the chain, as its only caller does (services/orders.py:104-108).
- Shipping.SetFulfilmentStatus: a status text outside the five is refused before anything is read and is not modelled.
- Settings.SettingsCache.GetSetting: one thread per process; the refresh loop racing with it is not modelled.
- Subscriptions.Manager.SyncSubscription: fetching and parsing, and one time for the whole sync; the parsed columns and the health probe's columns are one value each.
- Loyalty.ParseTiers: from split rows on, names stripped; the text format and JSON are not modelled.
- commit_inventory, reserve_inventory, release_inventory and create_order: nothing in the program calls them.
- The free product for a number of invitations (database.py:2752-2766), deletion of codes, wiping whole tables (database.py:1539-1560), cart editing beyond the resulting lines, menus, tickets and wish lists: easy or beside the point.
- Log tables (inventory_transactions, fulfillment_events, admin log), file delivery, messages and web push: no other table depends on them.
- expire_due: not implemented in the source; the ledger theorems cover expiry entries all the same.
- Payment status: pending, paid or refunded as the order is pending, approved or rejected, so it has no field of its own.
- Row ids start at 0 here and at 1 in SQLite.
