# Verification of the café POS cores

This project models the parts of the backend where a mistake costs money, loses a record or lets
two machines disagree, and proves what those parts keep. Each source component has a module with
its data and operations; where the source updates rows in place the module has a class whose
methods are proved equal to a specification function, and the theorems are about that function
over every run.

- **Order totals** (`Money*`, `Rounding`): the fixed pipeline that rounds half away from zero at
  every stage. The totals are the one receipt in which every figure is the nearest cent to what it should
  be. Nothing is lost between the lines and the grand total; the accumulated rounding
  error of the tax and the total of every order, mixed or not, inclusive or not, has a closed bound
  against the unrounded figures; totals are monotone exactly when no exempt line is raised beside a taxable one.
- **Play area** (`PlayPricing`, `PlayCharges`, `TariffSchedule`, `PlayArea`, `PlayVisits`): what a visit
  costs, when a tariff applies, and the check-in, overdue, tariff-change and check-out steps of several terminals.
- **Stock** (`Units`, `StockLedger`, `StockEffects`, `StockProofs`): unit conversion, and the level as a projection
  of an append-only ledger under every interleaving.
- **Backup retention** (`Calendar`, `Retention`, `RetentionProofs`): pruning against a policy stated
  without reference to how prune lists the records, over whole histories.
- **Sign-in** (`Lockout`, `LockoutRuns`, `TokenFamilies`): the lockout as a rate bound, and refresh-token rotation.
- **Licensing** (`LicenseKeys`, `TokenSequence`, `OfflineToken`, `InvoiceBlocks`): the key codec, the
  sequence counter against the client's ratchet, and disjoint invoice-number blocks.
- **Kitchen** (`OrderState`, `Kitchen`, `KitchenSteps`, `KitchenProofs`): firing items once, the life of a ticket, and
  the order status that follows the tickets.

Money is in whole cents and quantities in thousandths, costs in ten-thousandths; prices, percentages
and factors not yet rounded are reals. Instants are integers. Several terminals are modelled by
interleaving the statements of their transactions: a value the source reads without a lock and acts on
later is a step of its own, kept in the state until it is used, and an operation that locks its rows
before it reads them is one step.

## Where the code differs from what is said about it

The model follows the code. Each of these is a theorem below.

- A mixed order is not monotone: raising an exempt line can lower the grand total, because the
  apportioning ratio moves (`MonotoneExactly`, `MixedOrderFalls`).
- The comment at `licensing/services.py:572-573` says two racing issues are never stamped alike. They
  are, when both increment before either reads back (`StampGap`, `OverlappingIssuesTie`).
- `block_gaps` never reports anything: a block is marked exhausted only when nothing in it is unused
  (`GapReportAlwaysEmpty`).
- "A block is a promise that a range is untouched" fails in exactly two cases: an order without a device
  stores a number that is by then issued or reserved, or a block is created over a number stored while it
  was being allocated (`PromiseExactly`, `ReservedNumberTaken`,
  `NumberLandsInNewBlock`, `TwoUnblockedCollide`).
- `is_well_formed` accepts one line feed after a key, which `normalize` removes
  (`WellFormedFixedExactly`).
- A key typed without its prefix is recognised exactly when its body does not begin with the letters
  of the prefix (`PrefixOptionalExactly`).
- `change_tariff` writes over a session it read earlier; if the child left in between, a closed
  session keeps its charge but shows the new tariff. Saving from a copy is harmless for every tariff if
  and only if the session is still open (`SavesHarmlessExactly`, `StepExplainsExactly`, `LateSaveExample`).
- `adjust` ends at the requested figure exactly when the level did not move between its read and its
  write (`AdjustExactly`).
- `post_count` judges a copy of the count loaded without a lock, so two terminals can post one count
  twice; each item is moved once if and only if no other terminal loaded the count before it was posted
  (`PostedOnceExactly`, `PostedTwice`). Only a POSTED count is refused: a CANCELLED one posts.
- After midnight a night tariff is judged by the weekday of the new day, so a night that opens on a
  listed day is covered to its end only if the next day is listed too (`WholeNightExactly`).
- "The order follows its tickets" fails in exactly two cases: a ticket goes back to PREPARING under a
  READY or SERVED order, or the last unserved ticket is cancelled beside a served one. The order
  table has no edge from READY or SERVED to IN_KITCHEN and none from IN_KITCHEN to SERVED
  (`FollowsExactly`, `RecallLeavesReady`, `CancelLeavesInKitchen`).
- The recall window is measured from the last serving if there ever was one, even for a ticket that
  has since been made again (`RecallExactly`), and on a copy loaded before the ticket is locked: it decides
  as the stored ticket would if and only if that stamp has not changed (`CopyJudgesExactly`). The plain
  transition to PREPARING has no window.
- `void_order` judges a status loaded without a lock and overwrites whatever is stored. A void leaves the
  table if and only if the order has meanwhile become SERVED, PAID or REFUNDED, and a paid order can be
  CANCELLED (`TableExactly`, `PaidForGoodExactly`, `PaidThenVoided`).
- A station that accepts by itself stamps the acceptance before the database stamps the creation of the
  ticket (`AcceptedAroundCreation`).

## Model

| member | source | states |
|---|---|---|
| Rounding.NearestIsHalfUp | backend/apps/core/money.py:48-50 | quantizing gives the one nearest whole number, ties away from zero: an integer is the result if and only if it is that |
| MoneyReceipt.ReceiptExactly | backend/apps/core/money.py:132-210 | some totals are those computed if and only if every figure is right: each line's gross, discount and net, the order discount, service, tax, step and adjustment, each the nearest cent to its definition from the figures before it |
| MoneyReceipt.LinesReportedExactly | backend/apps/core/money.py:132-135 | the lines reported are those, in order, whose gross is nearest to price with modifiers times quantity and whose discount is nearest to the percentage of that gross |
| MoneyReceipt.DiscountError | backend/apps/core/money.py:132-184 | the discount reported on n lines and the order is within 2n + 1/2 cents of the unrounded one |
| MoneyConservation.Conservation | backend/apps/core/money.py:138-190 | sum of line gross less discounts plus service (plus exclusive tax) plus the rounding adjustment is the grand total, to the cent, for every order |
| MoneyConservation.StepIsNearest | backend/apps/core/money.py:53-64 | rounding to a whole-cent step lands on a multiple of it, within half a step and no further than any other multiple |
| MoneyConservation.AdjustmentBounded | backend/apps/core/money.py:180-190 | the reported adjustment is at most half a whole-cent step, and zero without a step |
| MoneyMonotone.RemainderMonotone | backend/apps/core/money.py:132-135 | an amount less its rounded percentage still grows with the amount |
| MoneyMonotone.LineMonotone | backend/apps/core/money.py:132-135 | a dearer or larger line never has a smaller net |
| MoneyMonotone.StepMonotone | backend/apps/core/money.py:53-64 | step rounding never reverses two totals, for any step |
| MoneyMonotone.TaxMonotone | backend/apps/core/money.py:193-210 | a larger base and taxable share never carry less tax, inclusive or exclusive |
| MoneyMonotone.RatioGrows | backend/apps/core/money.py:161-172 | raising a taxable line never lowers the taxable share |
| MoneyMonotone.OrderMonotone | backend/apps/core/money.py:138-210 | raising a line of an order lowers neither subtotal, service, tax nor grand total when that line is taxable or the whole order is exempt |
| MoneyMonotone.MixedOrderFalls | backend/apps/core/money.py:161-172 | whatever the pattern, with a taxable line beside it a raised exempt line lowers the grand total at some prices |
| MoneyMonotone.MonotoneExactly | backend/apps/core/money.py:138-210 | the exact condition: monotone at a line for all amounts and rates if and only if that line is taxable or no line is |
| MoneyError.LineError | backend/apps/core/money.py:132-135 | a line's net is within one cent of the unrounded net |
| MoneyError.NetError | backend/apps/core/money.py:138-150 | n lines are within n cents |
| MoneyError.AfterDiscountError | backend/apps/core/money.py:132-157 | the discounted amount is within n cents and a half of the unrounded figure |
| MoneyError.GrandTotalError | backend/apps/core/money.py:132-190 | closed bound on the grand total of fully taxable, tax-exclusive orders, with service and VAT factors and half the step |
| MoneyTax.ContainedIsVatOnRest | backend/apps/core/money.py:193-210 | the tax taken out of an inclusive price is exactly VAT on what remains |
| MoneyTax.TaxError | backend/apps/core/money.py:193-210 | the tax computed is within half the rate plus half a cent of the tax on the exact share, added or contained |
| MoneyTax.OrderTaxError | backend/apps/core/money.py:157-172 | within half the rate plus half a cent, an order's tax is that on the part of its rounded base which its taxable lines have in its rounded lines |
| MoneyTax.ExactTaxError | backend/apps/core/money.py:132-210 | the tax of any order of n lines is within a closed bound of the tax on its unrounded taxable lines, discounted and serviced |
| MoneyTax.ExactTotalError | backend/apps/core/money.py:132-190 | the grand total of any order, mixed or not, inclusive or not, is within a closed bound, with half the step, of the unrounded figure |
| PlayPricing.ElapsedMinutes | backend/apps/core/play_pricing.py:112-120 | the largest whole number of minutes that fits between the instants, and none when the clock went back |
| PlayCharges.RefusedExactly | backend/apps/core/play_pricing.py:136-154 | a charge is refused exactly for an unknown rounding, and reports the minutes stayed and those past the ones the fee buys |
| PlayCharges.OpenDayCosts | backend/apps/core/play_pricing.py:142-151 | a day ticket costs its fee whatever the stay and the cap |
| PlayCharges.EntryFeeCharged | backend/apps/core/play_pricing.py:153-188 | a stay within the minutes included and the grace costs the nearest cent of the entry fee, or the cap if that is smaller |
| PlayCharges.UpToBlockCosts | backend/apps/core/play_pricing.py:160-188 | beyond it, rounded up, it costs the fee and the least number of blocks that reaches the stay, up to the cap |
| PlayCharges.UpToBlockCostsExactly | backend/apps/core/play_pricing.py:160-188 | with fee and rate in whole cents that is fee plus k times rate, to the cent |
| PlayCharges.NearestBlockCosts | backend/apps/core/play_pricing.py:168-188 | to the nearest block it is the nearest number of blocks, at least one |
| PlayCharges.ExactMinutesCosts | backend/apps/core/play_pricing.py:163-188 | to the minute it is the overrun's share of a block |
| PlayCharges.NearestBlockError | backend/apps/core/play_pricing.py:168-183 | within half a rate and a cent of fee and overrun at the block's rate, or above it by less than a rate and a cent when the floor of one block binds |
| PlayCharges.ExactMinutesError | backend/apps/core/play_pricing.py:163-183 | within a cent of it |
| PlayCharges.DueWhenCovered | backend/apps/core/play_pricing.py:200-212 | a visit is due at the first instant at which the minutes its fee buys have passed |
| PlayPricing.ChargeMonotone | backend/apps/core/play_pricing.py:123-197 | a longer stay never costs less, in every mode, rounding and grace |
| PlayPricing.CapBounds | backend/apps/core/play_pricing.py:123-197 | a positive daily cap bounds every metered charge |
| PlayPricing.UpToBlockIsLeast | backend/apps/core/play_pricing.py:123-197 | rounding up bills the least number of blocks that reaches the stay, less than one block beyond it |
| PlayPricing.UpToBlockIsDearest | backend/apps/core/play_pricing.py:123-197 | the other two roundings never charge more |
| PlayPricing.NearestBlockBills | backend/apps/core/play_pricing.py:123-197 | nearest-block bills within half a block of the stay, except that the first block is never waived |
| TariffSchedule.WindowIsArc | backend/apps/core/play_pricing.py:215-242 | wrapping or not, a window is the moments less than its length after its start, on the circle of the day |
| TariffSchedule.AllDay | backend/apps/core/play_pricing.py:215-242 | without both ends, or with equal ones, a window is all day on the days it lists |
| TariffSchedule.DaysRestrict | backend/apps/core/play_pricing.py:215-242 | listed days only restrict a window |
| TariffSchedule.OppositeWindowsShareTheDay | backend/apps/core/play_pricing.py:215-242 | two windows with swapped ends share out every moment of an allowed day |
| TariffSchedule.WholeNightExactly | backend/apps/core/play_pricing.py:215-242 | a window opening on a day is covered to its end if and only if the day is listed and it ends by midnight or the next day is listed |
| TariffSchedule.ResolveTariff | backend/apps/kids/services.py:128-162 | a requested tariff wins or is refused; else the first candidate that applies; only when none does, the configured, the default or the first; an error exactly without candidates |
| PlayArea.Store.LockArea | backend/apps/kids/services.py:195-210 | takes the area lock unless the area is full, disabled or locked |
| PlayArea.Store.CheckTag | backend/apps/kids/services.py:212-238 | phone, age and tag checks under the lock, each failure releasing it |
| PlayArea.Store.Insert | backend/apps/kids/services.py:240-281 | opens the session with its tariff, rounding and grace snapshotted |
| PlayArea.Store.Leave | backend/apps/kids/services.py:447-549 | the checks of a check-out and the closed session it writes |
| PlayArea.Store.RefreshOverdue | backend/apps/kids/services.py:425-441 | flags active sessions past their due time and nothing else |
| PlayArea.Store.SaveTariff | backend/apps/kids/services.py:389-422 | writes the tariff columns over whatever the row has become since it was read |
| PlayVisits.AdmitsExactly | backend/apps/kids/services.py:195-281 | a check-in alone succeeds if and only if the area is enabled, unlocked and not full, the phone is there, the age fits where it must, the tag is free and there is a tariff; it then adds this session under the tariff's terms, and otherwise nothing |
| PlayVisits.RefusesInOrder | backend/apps/kids/services.py:195-245 | which refusal it meets first |
| PlayVisits.LeavesExactly | backend/apps/kids/services.py:447-549 | a check-out succeeds if and only if the session is open, the guardian verified and another recipient approved where required; it then writes recipient, instant and price, and nothing else |
| PlayVisits.LeaveRefusesInOrder | backend/apps/kids/services.py:447-500 | which refusal it meets first |
| PlayVisits.VisitCharged | backend/apps/kids/services.py:168-549 | from admissible request to check-out over any run that does not change its tariff, the charge is the price of the request's tariff, grace and rounding for the minutes between |
| PlayVisits.RefreshExactly | backend/apps/kids/services.py:425-441 | exactly the active sessions whose end lies further back than the alert become overdue |
| PlayVisits.SavesExactly | backend/apps/kids/services.py:389-422 | a tariff change is judged on the copy, writes the new terms over the stored session and prices it on them from its check-in |
| PlayArea.AlwaysSafe | backend/apps/kids/services.py:168-281 | over every interleaving of the terminals' steps, open sessions never exceed a capacity not lowered and no two share a tag |
| PlayArea.OnlyCheckOutCloses | backend/apps/kids/services.py:447-549 | a session stops being open exactly by a successful check-out naming it, and is charged the quote of that instant |
| PlayArea.ClosedStaysClosed | backend/apps/kids/services.py:425-549 | a closed session is never open again and keeps its charge and closing data |
| PlayArea.ChargedOnOpeningTerms | backend/apps/kids/services.py:347-386 | whatever becomes of the live tariff, a session no tariff change names is charged on the terms it was opened under |
| PlayArea.QuoteNeverFalls | backend/apps/kids/services.py:372-386 | the running meter only rises |
| PlayArea.StepExplainsExactly | backend/apps/kids/services.py:389-422 | a step keeps every recorded charge the price of the recorded terms if and only if it does not save over a closed session terms on which the visit costs something else |
| PlayArea.SavesHarmlessExactly | backend/apps/kids/services.py:389-422 | from a copy read while open, every tariff may be saved without breaking that if and only if the session is still open |
| PlayArea.ChargesExplained | backend/apps/kids/services.py:389-549 | over a run all recorded charges are the prices of the recorded terms throughout if and only if no step is such a save |
| PlayArea.LateSaveExample | backend/apps/kids/services.py:389-422 | such a save happens from an empty area |
| Units.RoundTripError | backend/apps/inventory/services.py:59-82 | there and back misses by at most half a thousandth plus half a thousandth over the factor |
| Units.RoundTripExactly | backend/apps/inventory/services.py:59-82 | every three-decimal quantity survives the trip if and only if the factor is at least one |
| Units.ConvertThereAndBack | backend/apps/inventory/services.py:59-82 | with one direction configured, converting through the inverse branch is that trip |
| Units.ConvertExactly | backend/apps/inventory/services.py:59-82 | a conversion is the nearest thousandth to the quantity, its product by the direct factor, else its quotient by the inverse one; refused exactly when none serves |
| StockLedger.Stock.Apply | backend/apps/inventory/services.py:98-170 | refusal, new level, new cost and the appended movement of one stock movement |
| StockLedger.Stock.Discard | backend/apps/inventory/services.py:200-226 | waste is an outbound movement of a positive quantity or an error |
| StockLedger.Stock.Adjust | backend/apps/inventory/services.py:229-260 | undisturbed, the level ends at the figure requested |
| StockLedger.Stock.SetOpeningBalance | backend/apps/inventory/services.py:263-271 | an opening is a costed receipt |
| StockLedger.Stock.LoadCount | backend/apps/inventory/views.py:181-191 | a terminal gets a copy of the count's status as it is then |
| StockLedger.Stock.PostCount | backend/apps/inventory/services.py:274-323 | unless the copy it loaded was POSTED, each line with a variance becomes a movement of the count, in line order, and the count is POSTED |
| StockLedger.Stock.Reconcile | backend/apps/inventory/services.py:341-384 | lists the items whose level is not the sum of their movements |
| StockEffects.AppliesExactly | backend/apps/inventory/services.py:98-170 | a movement is refused if and only if it quantizes to zero or would go below zero where it may not; otherwise the level moves by its nearest thousandth and nothing else does |
| StockEffects.RepricesExactly | backend/apps/inventory/services.py:140-151 | a costed receipt makes the cost the nearest to the blend with the stock there was, or the receipt's own under FIFO or without stock; anything else leaves it; the movement records the cost given or else the stored one |
| StockEffects.WasteLowers | backend/apps/inventory/services.py:200-226 | waste lowers the level by the nearest thousandth of a positive quantity and is refused otherwise |
| StockEffects.OpeningIsReceipt | backend/apps/inventory/services.py:263-271 | an opening raises the level by its nearest thousandth |
| StockEffects.AdjustmentRecorded | backend/apps/inventory/services.py:229-260 | completing an adjustment records one ADJUSTMENT of the difference read, or nothing without one |
| StockEffects.PostedMovements | backend/apps/inventory/services.py:287-303 | posting lines records exactly one COUNT movement of the count for each line with a variance, in line order |
| StockEffects.PostsOrRefuses | backend/apps/inventory/services.py:284-308 | when a posting is refused, and that a refusal moves nothing |
| StockProofs.LedgerProjects | backend/apps/inventory/services.py:98-170 | over every interleaving, each level is the sum of its item's movements and each balance the prefix sum at its place in the ledger |
| StockProofs.ReconcilesClean | backend/apps/inventory/services.py:341-384 | reconcile is empty after every run |
| StockProofs.DriftsAreDisagreements | backend/apps/inventory/services.py:341-384 | in any state whatever it reports an item if and only if level and ledger disagree |
| StockProofs.PostingMovesByVariance | backend/apps/inventory/services.py:287-303 | posting the lines moves each item by exactly its variance and no other item |
| StockProofs.PostingReachesCount | backend/apps/inventory/services.py:287-303 | a counted item ends at the count if and only if its level was still the snapshotted one |
| StockProofs.PostingsAccount | backend/apps/inventory/services.py:274-323 | over every run the movements of a count have moved each item by its variance times the number of postings |
| StockProofs.PostedOnceExactly | backend/apps/inventory/services.py:284-308 | from a posting on, its movements have moved an item by exactly one variance in every run that may follow if and only if no other terminal had loaded the count before |
| StockProofs.PostedTwice | backend/apps/inventory/services.py:284-308 | two terminals that load the count before either posts it move every item twice |
| StockProofs.AdjustExactly | backend/apps/inventory/services.py:229-260 | the adjusted level is the target plus what moved in between, so equal to it if and only if nothing did |
| StockProofs.AdjustAcrossRun | backend/apps/inventory/services.py:229-260 | over every run of the other terminals between its read and its write, an adjustment ends at the requested figure if and only if the level is again the one it read |
| StockProofs.AdjustUndisturbed | backend/apps/inventory/services.py:229-260 | it does when the others leave the item alone, whatever they do to other items |
| StockProofs.CostBetween | backend/apps/inventory/services.py:173-194 | the average lies between the old and the incoming cost |
| StockProofs.ValuePreserved | backend/apps/inventory/services.py:173-194 | the stock value is kept to within half a cost unit per unit in stock |
| StockProofs.CostStaysWithin | backend/apps/inventory/services.py:140-151 | over every run the stored cost stays between zero and the largest receipt cost |
| StockProofs.OnlyReceiptsReprice | backend/apps/inventory/services.py:140-151 | only a costed receipt of the item changes its cost |
| Retention.BackupStore.Prune | backend/apps/ops/backups.py:299-330 | what is left of the table, the files and the names returned |
| Retention.CollectFirsts | backend/apps/ops/backups.py:314-320 | the loop lists the first record of each month |
| Calendar.MonthOfExactly | backend/apps/ops/backups.py:314-316 | an instant is in a month exactly when its day lies from the Gregorian first of that month to before the next, by a closed form in years, leap days and days before the month |
| Calendar.FourCenturies | backend/apps/ops/backups.py:314-316 | four hundred years from any month on are 4800 months and 146097 days |
| RetentionProofs.PruneKeepsExactly | backend/apps/ops/backups.py:299-330 | a finished backup survives if and only if it is recent or the first of one of the newest months; unfinished rows are untouched |
| RetentionProofs.RemovedExactly | backend/apps/ops/backups.py:320-330 | the backups deleted are exactly the finished ones the policy does not want, newest first |
| RetentionProofs.MonthlyIsNewestFirsts | backend/apps/ops/backups.py:314-320 | the monthly list is the first of each month with fewer than so many newer months |
| RetentionProofs.RetentionHolds | backend/apps/ops/backups.py:299-330 | over every interleaving of backups and prunes, every backup the policy wants, judged against all that ever succeeded, is present |
| RetentionProofs.StillThere | backend/apps/ops/backups.py:299-330 | the same read at any later moment |
| RetentionProofs.PruneIdempotent | backend/apps/ops/backups.py:299-330 | a second prune at the same time removes nothing |
| Lockout.Cache.RecordFailure | backend/apps/accounts/services.py:86-113 | the counter and the lock after one failure, with each cache call at its own time |
| Lockout.Cache.VerifyPin | backend/apps/accounts/services.py:213-244 | refused while locked, counted when wrong, cleared when right |
| Lockout.Cache.SignInAtTerminal | backend/apps/accounts/services.py:387-421 | tries the candidates in order and counts one failure against the terminal |
| Lockout.WrongPinTouchesTerminalOnly | backend/apps/accounts/services.py:387-421 | a wrong PIN leaves every other scope's entries as they were |
| Lockout.OnlyTerminalDecides | backend/apps/accounts/services.py:387-421 | no other scope's lock changes the outcome |
| Lockout.MatchIsFirst | backend/apps/accounts/services.py:387-421 | the user signed in is the first active candidate whose PIN matches |
| Lockout.BooksBalance | backend/apps/accounts/services.py:86-113 | counting windows never overlap and none admits more than the allowed failures |
| Lockout.WindowsBounded | backend/apps/accounts/services.py:86-113 | after any sequence of failing checks the windows account for every failure let through |
| Lockout.LockedOnlyWhenFull | backend/apps/accounts/services.py:68-113 | a scope is locked only after the allowed failures |
| Lockout.RateBound | backend/apps/accounts/services.py:86-113 | within T seconds at most max_attempts times (T div lockout_seconds + 1) checks are let through to fail |
| LockoutRuns.WrongAnswersBounded | backend/apps/accounts/services.py:387-421 | of wrong entries at one till, or wrong PINs of one user there, within T seconds, at most max_attempts times (T div lockout_seconds + 1) are answered as wrong, the rest refused as locked |
| LockoutRuns.AnswersExactly | backend/apps/accounts/services.py:387-421 | from a clean scope the first max_attempts wrong entries within one window are answered as wrong and every further one as locked |
| LockoutRuns.FullWindowRefuses | backend/apps/accounts/services.py:68-113 | while any later window is full and has not run its length, the next entry is refused and changes nothing |
| LockoutRuns.SignInExactly | backend/apps/accounts/services.py:387-421 | a till sign-in succeeds exactly with a PIN, an unlocked terminal and a match, for the first active candidate that matches |
| LockoutRuns.SuccessForgets | backend/apps/accounts/services.py:396-408 | after a success neither counter nor lock of the scopes cleared remains, and every other scope is as it was |
| Lockout.LockedUntil | backend/apps/accounts/services.py:68-113 | the last allowed failure locks for exactly the lockout time, however many checks follow |
| TokenFamilies.TokenStore.RotateToken | backend/apps/accounts/tokens.py:177-241 | the result, error branch and families after one rotation attempt |
| TokenFamilies.TokenStore.RevokeToken | backend/apps/accounts/tokens.py:244-252 | signing out revokes the named family if there is a live one |
| TokenFamilies.TokenStore.RevokeUser | backend/apps/accounts/models.py:160-164 | revokes all and only the user's live families |
| TokenFamilies.RotatesExactly | backend/apps/accounts/tokens.py:177-241 | a rotation succeeds if and only if the token is an unexpired refresh token, current in a live family of an active user or a device |
| TokenFamilies.LastHandedIsCurrent | backend/apps/accounts/tokens.py:74-113 | over every run the last token handed out for a family, by sign-in or rotation, is its current one, and no token is handed out twice |
| TokenFamilies.LastHandedRotates | backend/apps/accounts/tokens.py:177-241 | that token, unexpired, of a live family of a device or an active user always rotates, into one never handed out before |
| TokenFamilies.EarlierHandedReuses | backend/apps/accounts/tokens.py:177-241 | any earlier one of a live family is a detected reuse |
| TokenFamilies.SignInOpens | backend/apps/accounts/tokens.py:74-113 | a sign-in opens a new live family of its user and touches no other |
| TokenFamilies.RotationHandsCurrent | backend/apps/accounts/tokens.py:222-241 | a rotation hands out the new current token of the family presented, keeps its user and touches no other |
| TokenFamilies.RefusesExactly | backend/apps/accounts/tokens.py:184-220 | which refusal a presented token meets, and that only a reuse changes anything |
| TokenFamilies.SignOutExactly | backend/apps/accounts/tokens.py:244-252 | signing out revokes the live family of an unexpired refresh token and nothing else |
| TokenFamilies.ReuseRevokesUser | backend/apps/accounts/tokens.py:177-241 | a superseded token on a live family leaves every family of its user revoked and all others unchanged |
| TokenFamilies.EachTokenOnce | backend/apps/accounts/tokens.py:177-241 | over every run each refresh token is redeemed at most once and the rotation counts are the numbers redeemed |
| TokenFamilies.RevokedForGood | backend/apps/accounts/tokens.py:177-252 | a revoked family never rotates again |
| TokenFamilies.ReplayEndsFamily | backend/apps/accounts/tokens.py:177-241 | a redeemed token presented later, after any run, is refused and its family ends revoked |
| OfflineToken.RatchetHolds | backend/apps/licensing/offline_token.py:143-194 | over every run the marks only rise, accepted numbers never go down, and each acceptance is at or after every server time accepted before |
| OfflineToken.AcceptsExactly | backend/apps/licensing/offline_token.py:143-194 | a genuine token passes if and only if nothing newer was accepted, no accepted server time is ahead of the clock and it has not expired |
| OfflineToken.RefusesExactly | backend/apps/licensing/offline_token.py:143-194 | which refusal a token meets, from what was accepted: a replay, else a clock gone back, else its expiry |
| OfflineToken.NoFalseReplay | backend/apps/licensing/offline_token.py:143-194 | tokens in an order whose numbers never go down are never called replays |
| TokenSequence.License.Issue | backend/apps/licensing/services.py:566-575 | an undisturbed issue gets one more than the stored counter |
| TokenSequence.CounterCounts | backend/apps/licensing/services.py:566-575 | the counter has advanced by the number of increments |
| TokenSequence.StampGap | backend/apps/licensing/services.py:572-575 | two stamps differ by the increments between the reads: equal if and only if there is none, and larger for an issue begun after the first was read |
| TokenSequence.OverlappingIssuesTie | backend/apps/licensing/services.py:572-575 | two overlapping issues get the same number |
| TokenSequence.StampsRise | backend/apps/licensing/services.py:572-575 | stamps never go down in the order they are read back |
| TokenSequence.ReadBackOrderNeverReplays | backend/apps/licensing/services.py:572-575 | a device shown tokens in read-back order, skipping or repeating some, is never told of a replay |
| InvoiceBlocks.Branch.CreateBlock | backend/apps/licensing/services.py:644-652 | the block created from what was read under the lock, or the refusal of an empty range |
| InvoiceBlocks.Branch.DrawNumber | backend/apps/payments/services.py:197-231 | the device's first open block gives its next number and is marked exhausted by its last |
| InvoiceBlocks.Branch.ReadNumberWithoutBlock | backend/apps/payments/services.py:213-223 | an order without a device reads one more than the highest number stored, under no lock |
| InvoiceBlocks.Branch.StoreNumberWithoutBlock | backend/apps/payments/services.py:186-194 | and stores its invoice under the number it read |
| InvoiceBlocks.Branch.BlockGaps | backend/apps/licensing/services.py:655-673 | the loop lists the exhausted blocks with unused numbers |
| InvoiceBlocks.NumbersNeverCoincide | backend/apps/licensing/services.py:603-652 | over every interleaving blocks are disjoint, each above all before it, and no two numbers drawn from blocks are equal |
| InvoiceBlocks.NewBlockAboveAll | backend/apps/licensing/services.py:620-652 | a new block lies above every block and above every invoice number there was when it was computed, whatever was drawn meanwhile |
| InvoiceBlocks.AllocatesExactly | backend/apps/licensing/services.py:615-652 | an allocation alone adds one unused block of the size asked for, starting one above the highest end of a block and the highest number stored |
| InvoiceBlocks.UnblockedExactly | backend/apps/payments/services.py:213-223 | an order without a device gets one more than the highest number stored |
| InvoiceBlocks.DrawsExactly | backend/apps/payments/services.py:205-231 | a draw takes the next unused number of the device's first block not exhausted, which its last exhausts |
| InvoiceBlocks.DrawnWithoutGaps | backend/apps/payments/services.py:226-231 | over every run a block's numbers are drawn from its start on, none skipped and none twice |
| InvoiceBlocks.GapsExactly | backend/apps/licensing/services.py:655-673 | in any state a gap is reported exactly for a block marked exhausted with numbers unused |
| InvoiceBlocks.GapReportAlwaysEmpty | backend/apps/licensing/services.py:655-673 | the gap report is empty in every reachable state |
| InvoiceBlocks.DrawPromises | backend/apps/payments/services.py:226-231 | a draw takes no number of another invoice, nor one another block has waiting, if none was taken before |
| InvoiceBlocks.CreatePromises | backend/apps/licensing/services.py:644-652 | creating a block keeps its range untouched if and only if no stored number lies in it |
| InvoiceBlocks.PromiseStepExactly | backend/apps/payments/services.py:197-231 | of all steps only such a store and such a creation break the promise, and none repairs it |
| InvoiceBlocks.PromiseExactly | backend/apps/licensing/services.py:603-652 | over every run from nothing, numbers are distinct and ranges untouched if and only if no step was one of those |
| InvoiceBlocks.QuietRunsPromise | backend/apps/licensing/services.py:603-652 | if orders without a device store no number issued or reserved, and none between an allocation's read and its creation, all invoice numbers are distinct |
| InvoiceBlocks.ReservedNumberTaken | backend/apps/payments/services.py:213-223 | a run from nothing in which an order without a device takes the number the device draws next |
| InvoiceBlocks.NumberLandsInNewBlock | backend/apps/licensing/services.py:637-652 | one in which it stores its number while the block over it is allocated, and no earlier step breaks the promise |
| InvoiceBlocks.TwoUnblockedCollide | backend/apps/payments/services.py:213-223 | one in which two orders without a device read the same number |
| LicenseKeys.SeparatorsIgnored | backend/apps/licensing/keys.py:53-90 | a space, dash or underscore added anywhere does not change what a key normalizes to |
| LicenseKeys.SpellingIgnored | backend/apps/licensing/keys.py:53-90 | nor does replacing a character by one that folds alike |
| LicenseKeys.FoldTogether | backend/apps/licensing/keys.py:40-68 | two printable characters fold alike if and only if they are one letter in two cases or documented confusables |
| LicenseKeys.NormalizeCanonicalizes | backend/apps/licensing/keys.py:71-90 | normalizing yields canonical keys, is idempotent, and fixes exactly the canonical ones |
| LicenseKeys.NormalizeExactly | backend/apps/licensing/keys.py:53-90 | an input normalizes to a key exactly when, folded and without separators, it is that key's body, with the prefix or, if it does not begin with it, without |
| LicenseKeys.CanonicalExactly | backend/apps/licensing/keys.py:42-42 | a canonical key is QSR and four groups of four characters of the alphabet, each after a dash |
| LicenseKeys.WellFormedFixedExactly | backend/apps/licensing/keys.py:93-94 | what passes the pattern is fixed by normalizing if and only if it does not end in a line feed |
| LicenseKeys.PrefixOptionalExactly | backend/apps/licensing/keys.py:71-90 | a key without its prefix normalizes to itself if and only if its body does not begin with the prefix letters, and is refused otherwise |
| LicenseKeys.GenerateInjective | backend/apps/licensing/keys.py:45-50 | every 80-bit number gives a canonical key from which it can be read back |
| LicenseKeys.GeneratedCharacter | backend/apps/licensing/keys.py:45-50 | each character generated is the alphabet's at its five-bit group of the number, lowest first |
| LicenseKeys.GenerateSurjective | backend/apps/licensing/keys.py:45-50 | every canonical key is generated by the 80-bit number its body spells |
| OrderState.PathsNeverLeadBack | backend/apps/orders/state.py:16-42 | along every path of allowed changes the rank of the status never falls, and nothing follows a terminal status but a refund after payment |
| Kitchen.Order.GroupByStation | backend/apps/kitchen/services.py:54-61 | the loop groups the pending items by station in order of first appearance and reports those without one |
| Kitchen.Order.RouteOrder | backend/apps/kitchen/services.py:37-101 | tickets, lines, reported names and fired marks of one firing |
| Kitchen.Order.FireOrder | backend/apps/orders/services.py:434-461 | the event around it: refused unchanged when nothing is pending or the status cannot become IN_KITCHEN |
| Kitchen.Order.TransitionTicket | backend/apps/kitchen/services.py:118-162 | status, stamps and order status after one ticket move, or the error |
| Kitchen.Order.LoadTicket | backend/apps/kitchen/views.py:37-47 | a recall gets a copy of the ticket, under no lock |
| Kitchen.Order.RecallTicket | backend/apps/kitchen/services.py:165-180 | the window is checked on that copy, then the stored ticket moves to PREPARING |
| Kitchen.Order.LoadOrder | backend/apps/orders/views.py:62-72 | a void gets the order's status, under no lock |
| Kitchen.Order.VoidOrder | backend/apps/orders/services.py:617-640 | refused unless that status can become CANCELLED; the stored one then does, whatever it is |
| Kitchen.Order.SyncOrderStatus | backend/apps/kitchen/services.py:183-211 | the status written is the one the tickets ask for, where the table allows it and the order is not closed |
| KitchenSteps.SentAsItStands | backend/apps/kitchen/services.py:46-87 | a pending item goes out on a ticket of its station under its name and in its quantity, or is reported by name |
| KitchenSteps.AddedThenSent | backend/apps/orders/services.py:193-246 | an item added is sent by the next firing in the quantity last given to it |
| KitchenSteps.VoidedNotSent | backend/apps/orders/services.py:249-264 | an item voided before it was sent is never sent |
| KitchenSteps.FiringStamps | backend/apps/kitchen/services.py:89-90 | a firing stamps every pending item, ticketed or reported, and no other |
| KitchenSteps.FiresExactly | backend/apps/orders/services.py:434-461 | firing succeeds if and only if something is pending and the order is OPEN or IN_KITCHEN; otherwise nothing changes |
| KitchenSteps.TransitionsExactly | backend/apps/kitchen/services.py:118-162 | when a ticket moves, the stamps it then gets and keeps, and that no other ticket changes |
| KitchenSteps.SyncsExactly | backend/apps/kitchen/services.py:183-211 | the order's status after a move, from what it was and what its tickets are |
| KitchenSteps.RecallsAtOnce | backend/apps/kitchen/services.py:165-180 | a recall with nothing in between is judged on the stored ticket and moves it to PREPARING |
| KitchenSteps.ClosesExactly | backend/apps/payments/services.py:106-110 | which statuses a settled payment and a full refund close |
| KitchenSteps.VoidsExactly | backend/apps/orders/services.py:617-640 | which loaded statuses let a void cancel whatever is stored |
| KitchenProofs.FiringSplits | backend/apps/kitchen/services.py:37-101 | one firing puts each pending item on exactly one new line or, without a station, among the reported names, and no other item anywhere |
| KitchenProofs.OneTicketPerStation | backend/apps/kitchen/services.py:63-87 | new tickets have different stations, none is empty, each line copies an item of its own station, and auto-accepting stations start ACCEPTED |
| KitchenProofs.EachItemSentOnce | backend/apps/kitchen/services.py:37-101 | over every run an item is on exactly one ticket line if it was sent with a station, on none otherwise, and only on its station's tickets |
| KitchenProofs.SecondFiringEmpty | backend/apps/kitchen/services.py:46-52 | firing again makes, reports and changes nothing, at any later time, as long as no item was added in between |
| KitchenProofs.StampsTellTheStatus | backend/apps/kitchen/services.py:118-162 | in every run, whatever the clock does, ready_at and prep_seconds are set exactly while READY or SERVED, and prep_seconds is the whole seconds from creation to readiness |
| KitchenProofs.StampsInOrder | backend/apps/kitchen/services.py:118-162 | while the clock does not go back a ticket's creation, start, readiness and serving are in that order, its acceptance before its start, and no preparation time is refused as negative |
| KitchenProofs.AcceptedAroundCreation | backend/apps/kitchen/services.py:64-76 | whatever follows a firing, a ticket of an auto-accepting station was accepted at or before its creation, and any other is accepted at or after it |
| KitchenProofs.TicketsAreRecords | backend/apps/kitchen/models.py:66-148 | a ticket's station, lines and creation never change, and its start is fixed from the first PREPARING on |
| KitchenProofs.RecallExactly | backend/apps/kitchen/services.py:165-180 | a recall passes if and only if the stored ticket is neither being prepared nor cancelled and the loaded one was within the window of its last serving, or of its readiness when never served |
| KitchenProofs.CopyJudgesExactly | backend/apps/kitchen/services.py:173-179 | the loaded ticket decides as the stored one would, for every window and moment, if and only if the stamp the window counts from is unchanged |
| KitchenProofs.TableExactly | backend/apps/orders/services.py:617-640 | the status a step writes follows the table if and only if the step is not a void of an order that has become SERVED, PAID or REFUNDED since it was loaded |
| KitchenProofs.StatusFollowsTickets | backend/apps/kitchen/services.py:183-211 | moving tickets never touches or makes a closed order, and makes one READY or SERVED only when all its tickets are |
| KitchenProofs.NeverReopened | backend/apps/orders/state.py:16-42 | over every run, late voids included, the rank of the status never falls: an order once fired is never OPEN again, a closed one stays closed and a cancelled one cancelled |
| KitchenProofs.PaidOnlyRefunded | backend/apps/orders/state.py:16-42 | in a run without late voids a paid order can only be refunded and a refunded one stays so |
| KitchenProofs.PaidForGoodExactly | backend/apps/orders/services.py:617-640 | a paid or refunded order is so in every run that may follow if and only if no void judged before is still to be written |
| KitchenProofs.PaidThenVoided | backend/apps/orders/services.py:617-640 | an order loaded for voiding, paid and then voided ends CANCELLED |
| KitchenProofs.HonestExactly | backend/apps/kitchen/services.py:118-211 | READY and SERVED stay true of the tickets if and only if no ticket goes back to PREPARING under such an order |
| KitchenProofs.FollowsExactly | backend/apps/kitchen/services.py:183-211 | a step keeps the order following its tickets if and only if it is neither such a rework nor cancels the last unserved ticket beside a served one |
| KitchenProofs.OrderFollowsTickets | backend/apps/kitchen/services.py:183-211 | in every run without those steps the order follows its tickets throughout |
| KitchenProofs.CancelLeavesInKitchen | backend/apps/kitchen/services.py:199-211 | any order with two new tickets can be left IN_KITCHEN with nothing left to make |
| KitchenProofs.RecallLeavesReady | backend/apps/kitchen/services.py:165-211 | and one can be READY with a ticket being prepared |

## Left out

- The 28-digit decimal context: intermediate results are exact reals, rounded only where the code quantizes.
- HTTP views, serializers, permissions, audit records, logging, broadcasting and the settings registry: settings are parameters.
- Signatures, password and PIN hashing, JWT and JSON encoding: a token is the outcome of an ideal check, a new jti or id is unused.
- The Decimal-to-text encoding of tariff snapshots: a snapshot holds the tariff itself.
- PlayArea.AlwaysSafe: assumes the capacity setting is not lowered below what is inside, because lowering it under a full area breaks the claim at once.
- PlayArea.Store.Insert: the tariff chosen is a parameter; how it is chosen is TariffSchedule.ResolveTariff, which is given the active tariffs already in the order of the query.
- The time zone in which a tariff window is read: a moment already has a weekday and a clock reading.
- Guardians, children, incidents, overriding a charge and billing a session to an order: rows written beside the session that the properties do not read.
- RetentionProofs.RetentionHolds: backups start at increasing times, prunes happen at non-decreasing ones, and the numbers kept are not negative.
- Lockout.RateBound: checks on one scope are sequential, without a success or an unlock in between, under a fixed policy; the check takes no lock.
- TokenFamilies.EachTokenOnce: rotations are sequential, because rotate takes no lock; device sessions share the case of no user.
- The expiry policy, seats, activation and the states of a licence.
- LicenseKeys.SpellingIgnored: upper-casing and white space are those of ASCII text.
- mask, prefix_of and last4_of: displays of a key.
- InvoiceBlocks.PromiseExactly: the unique constraint on invoice serials, which turns a collision within a year into a refused payment, is not part of the model.
- The FIFO costing method is modelled only as the incoming cost it takes; purchasing, recipes and low-stock alerts are not.
- Kitchen.Order.RouteOrder: the ticket number shouted in the kitchen, modifiers and notes on a line, and the deletion of a station are not modelled.
- Kitchen.Order.FireOrder: order events arriving together are separate steps; a refusal among them, which undoes the whole batch, is a run without them.
- Kitchen.Order.TransitionTicket: one step, because it locks the order row together with the ticket before it reads either, as order events, payments and refunds lock the order row.
- StockLedger.Stock.PostCount: one step; the source locks level rows one line at a time inside one transaction, which orders two postings item by item in the same way. The lines of a count do not change.
- Payment amounts, refund amounts and the reasons of a void: paying, refunding and voiding are status changes here.
- HR, reporting, synchronisation, the floor plan and the desktop client.
