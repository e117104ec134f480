# Qift back end: verified model

Dafny models of the parts of the Qift back end that move money, personal data or
gifts, with machine-checked proofs of what they promise. `dafny verify
dfyconfig.toml` checks the whole project.

How the model reads the system:

- A database table is a sequence (the index is the row's id, in order of
  creation) or a map; unique indexes and transactions are facts of the database.
- Where the code reads and later writes, the model has two steps and anything may
  happen in between: the dispatchers, workers, claim calls, roster imports, gift
  creation and cancellation, the default-address sweep, post publishing, invoice
  issuance and the ledger repair. Whatever the environment decides (time, tokens,
  delivery outcomes, OTP verdicts, row order, failing best-effort writes, crashes)
  is a parameter of the step, so a theorem about every run covers every choice.
- The campaign calls, `confirmAddress`, the store's status steps, archiving and the
  address calls check and then write unconditionally; each is taken as one atomic
  step, and so is an import where the corporate protocol uses it (what overlapping
  imports do is proved apart). Everything proved about them rests on that.
- The services' own methods appear as classes whose methods run a call from start
  to end and are proved equal to the steps of the transition system.
- Amounts are integers of minor units; reals appear only at the boundary, as
  `floor(x * scale + 1/2)`.

The files, by component:

| files | component |
|---|---|
| Money, TaxEngine, Billing | minor-unit arithmetic, VAT, fees, the two invoice legs, the billing summary |
| LedgerMetadata, FinancialLedger, OrderLedger | the privacy filter, the append-only ledger and its keys, the allocation of a paid order |
| Reconciliation, Convergence, RepairOutcome | the repair sweep, its convergence, when it completes and what it counts |
| InvoiceNumbering, MerchantIssuing, MerchantFacts, MerchantInvoices | the gap-free legal series, the merchant's goods invoice and the facts it reads, its frozen legal number |
| Csv, Phone, RosterCsv, RosterHeaders, RosterRows, RosterLines, SampleUpload, RosterStore, OverlappingImports | the roster upload from text to stored contacts, on the texts themselves, and imports that overlap |
| RateLimiter | the sliding-window limiter |
| Campaigns, Dispatch, ClaimMint, ClaimFlow, RosterPurge, Protocol | the corporate protocol: tables, steps, events and runs |
| Invariants, RosterSteps, CampaignSteps, WorkerSteps, ClaimSteps | its inductive invariant and the proof that every event keeps it |
| Evolution, Guarantees | what is final, frozen or only grows, and the promises read off both |
| RosterOrigins, CampaignOrigins, CampaignRecipients, DispatchOrigins, ClaimOrigins, ClaimSessions, ClaimOutcomes | where what the tables hold comes from, over whole runs: the requests, the uploads and the catalogs behind it |
| DispatchSweep, SweepProgress, SweepRefinement, SingleSweeper | one whole sweep, its progress, its place among the runs, and the attempt limit |
| Schedules | runs from the first upload on that show what the theorems leave possible |
| GiftCreation, GiftGates, GiftLifecycle, GiftCancellation, GiftTakeDown, GiftService, GiftPosts | exactly-once creation, status histories, the one winning cancellation and the counter, live posts, the gift wall |
| Addresses, AddressCalls | the one-default invariant and the waiting gift attempts |
| Wrappers, Seqs, Text | result types, sequence identities, string primitives |

Results that differ from what the code's comments or a first reading suggest. Where
something fails, a concrete input or schedule is named first and the exact condition
after it:

- A completed campaign may be left without recipients, because the retention
  sweep no longer protects them (`CompletedCampaignLosesItsRecipients`;
  `RecipientsRemainExactlyWhen`).
- Minting overwrites the token of a claim that was finalized between the look-up
  and the write (`DeclinedClaimIsRotated`; `MintRotatesAFinalizedClaimExactlyWhen`).
  The status is never touched.
- The limit of three delivery attempts rests on sweeps not overlapping: three that
  do put a job back in the queue after its third attempt
  (`OverlappingSweepsExceedTheLimit`; `LimitHoldsExactlyWhen`, and without overlap
  `PendingJobsHaveAttemptsLeft`).
- A post can outlive its cancelled gift if a publish call read the gift before and
  wrote after the take-down (`InterruptedPublishOutlivesTheGift`;
  `TakenDownPostIsLiveExactlyWhen`), or if the take-down never happens
  (`PostsStayUntilTakenDown`).
- Two overlapping first attachments can replace a merchant's legal invoice number
  (`OverlappingCallsMayRenumber`; `NumberIsImmutableExactlyWhen`).
- A repair counts a row as posted although another producer wrote it
  (`SomeRaceIsLost`; `PostedCountsLostRaces`).
- A ledger amount below half a halala passes the positive-amount guard and is
  stored as zero (`TinyAmountIsStoredAsNothing`; `StoredAmountIsPositiveExactlyWhen`).
- `normalizePhone` alone is not idempotent, and an eight-digit local mobile that
  begins like a country code is read as foreign (`NormalizeIsNotIdempotent` and
  `KuwaitiMobileReadAsSaudi`; `FixedPoints` and `LocalForms`).
- Of the four places that are said to resolve waiting gift attempts, only the
  creation of a first address ever does; removal does not call the resolver at all
  (`OnlyFirstAddressesNotify`; `AttemptIsResolvedExactlyWhen`).
- Extract-then-add misses a gross by more than one halala exactly above a rate of
  200% (`ExtractThenAddThresholdIsSharp`; `ExtractThenAddWithinOneExactlyWhen`),
  and exact 2^53 arithmetic ends slightly below the NUMERIC(12,2) range
  (`IntermediatesAreExact`).
- The two invoices of a campaign agree on the price always, and on recipients and
  goods unless one was counted after the campaign was over, when contacts may have
  been purged (`IssuedLegsAgree`).
- Two overlapping imports can put one channel on the roster twice
  (`OverlappingImportsCollide`; `RosterStaysDisjointExactlyWhen`).

## Model

| member | source | states |
|---|---|---|
| Money.MinorRoundTrip | src/fees/money.ts:51-67 | converting minor units to majors and back is the identity, in every currency |
| Money.RoundingIsHalfUp | src/fees/money.ts:51-59 | conversion picks the unique minor amount within half a unit, halves going up |
| Money.RoundMoneyIsIdempotent | src/fees/money.ts:69-77 | a rounded amount is on the currency's grid and rounds to itself |
| Money.SumIgnoresOrder | src/fees/money.ts:79-87 | a sum does not depend on the order of its addends |
| Money.SumIgnoresGrouping | src/fees/money.ts:79-87 | summing partial sums is summing everything |
| Money.SumIsExactOnGrid | src/fees/money.ts:79-87 | on whole minor units the sum is the sum of the reals |
| Money.MulIsRepeatedAdd | src/fees/money.ts:89-101 | a multiple is the n-fold sum of its unit amount |
| TaxEngine.VatIsHalfUp | src/fees/tax-engine.ts:119-132 | VAT is the unique half-up quotient; exactly negative bases are refused |
| TaxEngine.NetIsHalfUp | src/fees/tax-engine.ts:134-144 | the extracted net is the unique half-up quotient; exactly negative grosses are refused |
| TaxEngine.AddThenExtract | src/fees/tax-engine.ts:125-144 | adding VAT to any net at any rate and extracting again recovers that net |
| TaxEngine.ExtractThenAddDrift | src/fees/tax-engine.ts:125-144 | extracting and adding again misses the gross by less than a bound in the rate |
| TaxEngine.ExtractThenAdd | src/fees/tax-engine.ts:125-144 | up to a rate of 200% the miss is at most one halala |
| TaxEngine.ExtractThenAddThresholdIsSharp | src/fees/tax-engine.ts:125-144 | at the next rate above 200% a gross of 149.99 is missed by two |
| TaxEngine.MissedByTwo | src/fees/tax-engine.ts:125-144 | at every rate above 200% some gross is missed by exactly two |
| TaxEngine.ExtractThenAddWithinOneExactlyWhen | src/fees/tax-engine.ts:125-144 | every gross survives to within one halala exactly at rates up to 200% |
| TaxEngine.ReachableGrosses | src/fees/tax-engine.ts:125-144 | a gross comes from some net plus VAT exactly when extracting and adding returns it |
| TaxEngine.SplitIsMonotone | src/fees/tax-engine.ts:179-194 | net and VAT never decrease as the charge grows, under both conventions, and sum to the total |
| TaxEngine.IntermediatesAreExact | src/fees/tax-engine.ts:103-144 | the products stay below 2^53 exactly up to 900719925474 halalas, which is below the storable range |
| TaxEngine.AgentIgnoresGoods | src/fees/tax-engine.ts:152-194 | as an agent Qift's charge, VAT and total do not depend on the goods value |
| TaxEngine.TaxIsConserved | src/fees/tax-engine.ts:152-194 | before-VAT plus VAT is the total; exactly a negative charge is refused |
| TaxEngine.InclusiveAgreesWithExclusive | src/fees/tax-engine.ts:179-194 | re-reading an exclusive total as an inclusive price gives the same breakdown |
| TaxEngine.TaxIs | src/fees/tax-engine.ts:152-222 | column by column what a service invoice freezes: an inclusive charge holds its net as the half-up share and the rest is VAT, an exclusive one is the net and its VAT the half-up share, of the fee alone as an agent |
| TaxEngine.MerchantTotal | src/fees/tax-engine.ts:296-371 | VAT moves the merchant's total only if registered with exclusive prices, and then by the half-up VAT |
| TaxEngine.GoodsTaxIs | src/fees/tax-engine.ts:296-371 | column by column what a goods invoice freezes, and no VAT at all for an unregistered merchant |
| Billing.FeesAreOnGrid | src/fees/fee-engine.ts:67-78 | fees are whole riyals and the service fee never falls below its floor |
| Billing.ServiceFeeIs | src/fees/fee-engine.ts:67-73 | the fee is 3% of the price in whole riyals, halves going up, and at least 5 |
| Billing.GrandTotalOfAnOrder | src/fees/fee-engine.ts:83-95 | an order costs its price, the fee and 15 riyals for fast delivery, in halalas |
| Billing.AmountsInMinor | src/corporate/invoice-amounts.ts:37-55 | both legs are the unit's halalas times the recipients, and the total is their sum |
| Billing.AmountsScaleWithRecipients | src/corporate/invoice-amounts.ts:37-55 | n recipients cost n times one recipient, leg by leg and in total |
| Billing.GetCampaignBillingSummary | src/corporate/billing-summary.service.ts:102-193 | an unknown campaign is refused; otherwise a grand total appears exactly when both legs exist in one currency, as their exact sum, and missing legs are listed |
| Billing.GrandTotalIsConserved | src/corporate/billing-summary.service.ts:179-189 | the two invoices add up to goods, goods VAT when due, fee and fee VAT, to the halala |
| LedgerMetadata.StrippedIsClean | src/financial/financial-ledger.service.ts:83-94 | after filtering no sensitive key is left at any depth |
| LedgerMetadata.SensitiveExactlyWhen | src/financial/financial-ledger.service.ts:87-90 | a key is sensitive exactly if it is a listed one, letter by letter, in whatever case |
| LedgerMetadata.StripChangesOnlyTheSensitive | src/financial/financial-ledger.service.ts:83-94 | the filter is the identity exactly on metadata without sensitive keys |
| LedgerMetadata.FilteredLookup | src/financial/financial-ledger.service.ts:83-94 | every path finds nothing if it crosses a sensitive key, and otherwise what was there, filtered |
| FinancialLedger.FinancialLedgerService.Create | prisma/schema.prisma:2116-2200 | a row is added exactly when neither unique index holds it already |
| FinancialLedger.FinancialLedgerService.Record | src/financial/financial-ledger.service.ts:121-217 | validates in the source's order, appends one row, or answers the row already holding the key |
| FinancialLedger.ValidExactlyWhen | src/financial/financial-ledger.service.ts:121-172 | a write is valid exactly if it moves a positive storable amount or is a keyed settlement marker, and currency, side, event, reason and actor are given |
| FinancialLedger.WritesCarryTheirInput | src/financial/financial-ledger.service.ts:176-197 | what a write adds is one row that carries its input column by column, on the side that was asked for, the amount to the nearest halala |
| FinancialLedger.FindByKey | src/financial/financial-ledger.service.ts:221-225 | finds a row with the key exactly when there is one |
| FinancialLedger.KeysNameTheirPosting | src/financial/financial-events.ts:79-90 | two keys are equal exactly for the same event of the same document, whatever the anchors contain |
| FinancialLedger.KeysAreStoredAsIs | src/financial/financial-ledger.service.ts:174 | trimming does not change a generated key, so the key looked up is the key stored |
| FinancialLedger.StoredAmountIsPositiveExactlyWhen | src/financial/financial-ledger.service.ts:141-150 | an accepted non-marker amount is stored as positive exactly from half a halala on |
| FinancialLedger.TinyAmountIsStoredAsNothing | src/financial/financial-ledger.service.ts:141-150 | a tenth of a halala is accepted and its row holds zero |
| FinancialLedger.ZeroIsForMarkers | src/financial/financial-ledger.service.ts:125-150 | only a keyed lifecycle marker may be recorded at zero, and never at negative zero |
| FinancialLedger.HistoryOnlyGrows | src/financial/financial-ledger.service.ts:112-217 | any writes keep earlier rows, unique keys, unique (order, reason) legs and clean metadata |
| FinancialLedger.RetriesReturnTheFirstRow | src/financial/financial-ledger.service.ts:199-216 | a keyed posting that succeeded is answered with its first row ever after and writes nothing |
| FinancialLedger.RecordSucceedsExactlyWhen | src/financial/financial-ledger.service.ts:199-216 | a valid write succeeds exactly if its key is held or its (order, reason) leg is free |
| OrderLedger.BuildOrderLedgerEntries | src/financial/order-ledger.ts:50-133 | the conditional pushes give the payment leg followed by the legs of the order's events |
| OrderLedger.LegsSumToTheCapturedTotal | src/financial/order-ledger.ts:5-11 | for an engine-priced order the legs sum to the captured total exactly if a store is linked to priced goods or the price rounds to zero |
| OrderLedger.RowsSplitTheCapturedTotal | src/financial/order-ledger.ts:50-133 | the stored rows of an engine-priced order credit the sender with the total and Qift with the fee, and debit the merchant with goods, if a store is linked, and delivery |
| OrderLedger.LegsAreDistinct | src/financial/order-ledger.ts:27-34 | the legs of an order have pairwise different keys and reason codes |
| Reconciliation.MissingInvoices | src/financial/ledger-reconciliation.service.ts:78-126 | lists exactly the invoices that are missing |
| Reconciliation.MissingOrders | src/financial/ledger-reconciliation.service.ts:128-143 | lists exactly the orders that are missing |
| Reconciliation.InvoiceMissesExactlyWhen | src/financial/ledger-reconciliation.service.ts:78-126 | an issued invoice is missing exactly if no row with its reason carries its key or its campaign |
| Reconciliation.OrderMissesExactlyWhen | src/financial/ledger-reconciliation.service.ts:128-143 | a paid order is missing exactly if no payment row names it |
| Reconciliation.PostingNamesItsInvoice | src/financial/ledger-reconciliation.service.ts:163-179 | the row a repair posts names the invoice's campaign, organization and store, holds its total to the halala and is marked as repaired |
| Reconciliation.RepairedLegNamesItsOrder | src/financial/ledger-reconciliation.service.ts:246-258 | a repaired leg is the order's own row but for the mark |
| Reconciliation.LedgerReconciliationService.FindMissing | src/financial/ledger-reconciliation.service.ts:68-76 | scans the three kinds, each against the ledger of its own moment |
| Reconciliation.LedgerReconciliationService.RepairInvoice | src/financial/ledger-reconciliation.service.ts:149-225 | posts the invoice's row unless its key is held, with producers writing before either call; unknown ids are refused |
| Reconciliation.LedgerReconciliationService.RepairOrder | src/financial/ledger-reconciliation.service.ts:231-266 | ensures each leg of a paid order in turn and ignores other orders |
| Reconciliation.LedgerReconciliationService.RepairAll | src/financial/ledger-reconciliation.service.ts:270-286 | the three loops ensure every missing posting in order and stop at the first error |
| Convergence.OneRepair | src/financial/ledger-reconciliation.service.ts:149-184 | one repair only appends, keeps the ledger sane and, unless it fails, leaves its key held |
| Convergence.RepairConverges | src/financial/ledger-reconciliation.service.ts:268-286 | whoever else writes, rows are only added, no posting gets a second row, and a completed sweep leaves nothing missing |
| RepairOutcome.NextRunPostsNothing | src/financial/ledger-reconciliation.service.ts:268-286 | once nothing is missing a further sweep posts nothing, whoever else writes |
| RepairOutcome.PostedCountsLostRaces | src/financial/ledger-reconciliation.service.ts:159-183 | a repair is counted without adding a row exactly when a producer wrote it between look-up and write |
| RepairOutcome.LostRaceIsCounted | src/financial/ledger-reconciliation.service.ts:159-183 | for any sound invoice: if a producer writes its row right before the repair does, the repair counts that row |
| RepairOutcome.QuietRepairCompletesExactlyWhen | src/financial/ledger-reconciliation.service.ts:270-286 | an undisturbed sweep completes exactly if each missing posting is ready, and counts the rows it added |
| RepairOutcome.InvoiceReadyExactlyWhen | src/financial/ledger-reconciliation.service.ts:163-179 | an invoice can be posted exactly if its total is positive and storable and its currency not blank |
| RepairOutcome.LegReadyExactlyWhen | src/financial/ledger-reconciliation.service.ts:246-258 | a leg can be posted exactly if amount and currency are in order and no other row claims its order and reason |
| RepairOutcome.CompletedRunPostsEveryInvoice | src/financial/ledger-reconciliation.service.ts:78-126 | after a completed sweep an issued invoice has its own row or a row of its campaign stands in |
| InvoiceNumbering.ReferencesAreInjective | src/references/reference.ts:106-122 | a printed number determines its series year and its value |
| InvoiceNumbering.FormatsExactlyWhen | src/references/reference.ts:106-122 | a number is made exactly for years 2020 to 2099 and places from one on; read as decimals it gives that year in four digits and that place in at least five, padded with no more zeros than that takes |
| InvoiceNumbering.InvoiceService.EnsureInvoiceForCampaign | src/corporate/invoice.service.ts:73-237 | one undisturbed call is begin, allocate and finish (or die) of the transition system, and answers that campaign's invoice |
| InvoiceNumbering.BeginsExactlyWhen | src/corporate/invoice.service.ts:79-113 | a call is answered at once exactly if the campaign has its invoice, and goes on exactly if it has none and was found approved, with a price and recipients |
| InvoiceNumbering.FinishesExactlyWhen | src/corporate/invoice.service.ts:150-236 | at the end of its transaction a caller adds the next number's invoice exactly if its campaign has none by then, and is answered with the one it has |
| InvoiceNumbering.SeriesIsLockedExactlyWhen | src/corporate/invoice.service.ts:150-164 | in every run a series is locked exactly while one caller is inside a transaction on it, whether that commits, rolls back or dies |
| InvoiceNumbering.InvoicesBillTheirCampaign | src/corporate/invoice.service.ts:85-119 | in every run an issued invoice goes back to a call that found its campaign approved, and bills price and fee for every recipient that call counted |
| InvoiceNumbering.StepKeepsSound | src/corporate/invoice.service.ts:145-236 | every step, commit, rollback or crash keeps the series in order and one invoice per campaign, and only appends |
| InvoiceNumbering.NumbersAreGapFree | src/corporate/invoice.service.ts:146-164 | in every reachable state the numbers of a year are exactly 1 to its last value |
| InvoiceNumbering.NumbersNeverRepeat | src/corporate/invoice.service.ts:146-164 | no printed number and no campaign occurs twice, and numbers follow the order of issue |
| InvoiceNumbering.CallersShareTheInvoice | src/corporate/invoice.service.ts:78-82 | whoever is answered for a campaign, at any time, is answered with the same invoice |
| MerchantIssuing.MerchantInvoiceIssuer.EnsureMerchantInvoiceForCampaign | src/corporate/merchant-invoice.service.ts:87-268 | one undisturbed call refuses in the source's order, returns the existing invoice or inserts one |
| MerchantIssuing.BeginsExactlyWhen | src/corporate/merchant-invoice.service.ts:92-187 | a call is answered at once exactly if the campaign has a goods invoice, and goes on exactly if it has none and was found approved, with a price, a store and recipients |
| MerchantIssuing.InvoicesBillTheirCampaign | src/corporate/merchant-invoice.service.ts:98-187 | in every run an issued goods invoice goes back to a call that found its campaign approved: price for every recipient counted, the store read, and 15% VAT by the merchant's facts |
| MerchantIssuing.OneGoodsInvoicePerCampaign | src/corporate/merchant-invoice.service.ts:92-97 | with the store frozen in the snapshot, racing callers create at most one goods invoice per campaign |
| MerchantIssuing.CallersShareTheGoodsInvoice | src/corporate/merchant-invoice.service.ts:255-266 | callers answered for a campaign, at any two times, are answered with the same unchanged goods invoice |
| MerchantFacts.OneGoodsInvoiceInEveryRun | src/corporate/merchant-invoice.service.ts:98-132 | when callers read the campaigns of any protocol run, a campaign has at most one goods invoice; no assumption about the store |
| MerchantFacts.CallersShareItInEveryRun | src/corporate/merchant-invoice.service.ts:98-266 | and all who are answered, at any two times, are answered with that one |
| MerchantFacts.IssuedLegsAgree | src/corporate/merchant-invoice.service.ts:98-190 | in any run of the protocol and any schedules of both services, the two rows issued for a campaign carry one unit price, and the same recipients and goods to the halala if neither count was taken after the campaign was over |
| MerchantInvoices.MerchantInvoiceService.AttachLegalReference | src/corporate/merchant-invoice.service.ts:291-342 | refuses in the source's order and otherwise writes exactly the stated columns |
| MerchantInvoices.AttachesExactlyWhen | src/corporate/merchant-invoice.service.ts:307-342 | a reference is attached exactly for a known source, with a mandate where due, and without replacing a number on file or its source; and then which column holds what |
| MerchantInvoices.MandateIsAlwaysOnFile | src/corporate/merchant-invoice.service.ts:311-317 | in every interleaving a row issued on the merchant's behalf carries its mandate |
| MerchantInvoices.RowsStaySound | src/corporate/merchant-invoice.service.ts:302-342 | in every interleaving the row on file and those read have a known source, a mandate where due and no empty number |
| MerchantInvoices.NumberIsImmutable | src/corporate/merchant-invoice.service.ts:319-328 | once a number is on file and every call in flight has read it, no schedule, overlapping or not, changes it or its source |
| MerchantInvoices.NumberIsImmutableExactlyWhen | src/corporate/merchant-invoice.service.ts:319-342 | all schedules keep the number and source exactly if every call in flight has read them; otherwise some write replaces them |
| MerchantInvoices.OverlappingCallsMayRenumber | src/corporate/merchant-invoice.service.ts:302-342 | a schedule of two overlapping first attachments that replaces the number |
| RateLimiting.RateLimiter.Hit | src/common/rate-limiter.ts:28-42 | with an honest clock a hit is accepted exactly if fewer than max accepted ones lie within the window before it, and an accepted hit is all that changes |
| RateLimiting.RateLimiter.Remaining | src/common/rate-limiter.ts:46-50 | the larger of zero and max less the accepted hits of that window |
| RateLimiting.EveryWindowHoldsAtMostMax | src/common/rate-limiter.ts:28-42 | every window of the given length, wherever placed, holds at most max accepted hits of a key |
| Csv.ParseCsv | src/corporate/roster-csv.ts:41-101 | the lookahead loop terminates and reads exactly the automaton's language |
| Csv.ParseInvertsPrint | src/corporate/roster-csv.ts:37-101 | parsing undoes the quoting printer of section 2 of RFC 4180, for any line ends, with or without mark or final line end, up to blank rows |
| Csv.ParseInvertsEveryStyle | src/corporate/roster-csv.ts:37-101 | and every mixed way of writing a table: each cell quoted, bare where it can be, or quoted up to some character with the rest behind the closing quote |
| Csv.ParseIsStable | src/corporate/roster-csv.ts:37-101 | printing what was understood of any text and parsing it again changes nothing |
| Phone.Normalize | src/auth/phone-normalize.ts:51-120 | the step-by-step rewriting computes the specified normal form |
| Phone.MobileExactlyWhen | src/auth/phone-normalize.ts:122-148 | a number passes the mobile check exactly if it is in E.164 form and, in the six known countries, a mobile of that country |
| Phone.FixedPoints | src/auth/phone-normalize.ts:77-93 | an E.164 number survives a second pass exactly if it has no rogue zero |
| Phone.ValidatedIsFixedPoint | src/auth/phone-normalize.ts:122-148 | a normalized number that passes the mobile check is a fixed point |
| Phone.NormalizeIsNotIdempotent | src/auth/phone-normalize.ts:80-93 | a doubled rogue zero outlives the first pass, for every country and local part |
| Phone.SeparatorsAreIgnored | src/auth/phone-normalize.ts:59-67 | separators anywhere make no difference |
| Phone.InternationalFormsAgree | src/auth/phone-normalize.ts:71-112 | all four international spellings of a mobile name the same number |
| Phone.LocalForms | src/auth/phone-normalize.ts:95-120 | a local mobile is filled in with the default country exactly if it does not begin like a country code |
| Phone.KuwaitiMobileReadAsSaudi | src/auth/phone-normalize.ts:101-112 | a Kuwaiti mobile that is read as a Saudi number |
| RosterCsv.PlanHeaders | src/corporate/roster-csv.ts:216-258 | the loop over the headers computes the specified plan |
| RosterCsv.PlanIsThePrivacyGate | src/corporate/roster-csv.ts:216-258 | on the classified headers: refused for address columns exactly if one is address-like, planned exactly if name and channel are named, each field from its first column |
| RosterHeaders.NamesExactlyWhen | src/corporate/roster-csv.ts:112-231 | a header is taken for a field exactly if it spells one of its names, in any case and with any separators, and mentions no address |
| RosterHeaders.PrivacyGateOnTexts | src/corporate/roster-csv.ts:216-258 | on the header texts: a file is refused exactly if some header spells a listed address fragment somewhere, and the refusal names exactly those headers; otherwise which files are planned and from which columns |
| RosterHeaders.EverySpellingIsRefused | src/corporate/roster-csv.ts:163-229 | whatever stands around it, a fragment in any case and with any one separator for a space gets the file refused |
| RosterHeaders.UnusedAreReported | src/corporate/roster-csv.ts:232-239 | a planned file reports exactly the headers that are not blank and not the first of a field |
| RosterRows.ParseRoster | src/corporate/roster-csv.ts:299-376 | the pipeline rejects in the source's order and otherwise sorts the lines as specified |
| RosterLines.AcceptsExactlyWhen | src/corporate/roster-csv.ts:299-316 | which texts are accepted, and which of the size, row and header limits refuses the others |
| RosterLines.EmailExactlyWhen | src/corporate/roster-csv.ts:33 | an email is some characters, an @, some characters, a dot and at least two, none of them white space or another @ |
| RosterLines.JudgesExactlyWhen | src/corporate/roster-csv.ts:318-355 | a line is valid exactly if name, channel, email and phone are in order; otherwise the first that is not is the reason; and a valid row holds its texts field by field |
| RosterLines.LineIsTakenExactlyWhen | src/corporate/roster-csv.ts:318-376 | in an accepted file a line is taken exactly if it is valid and nobody taken from an earlier line has its email or phone; otherwise it is reported with its reason |
| RosterRows.SortRows | src/corporate/roster-csv.ts:318-373 | the loop over the data lines computes the specified rows and skips |
| RosterRows.JudgedRowIsContactable | src/corporate/roster-csv.ts:325-355 | an accepted row has a name, a channel, a lowercase valid email and a phone that is a fixed point |
| RosterRows.SkippedDuplicatesAreReal | src/corporate/roster-csv.ts:357-364 | a valid line is left out only if an earlier accepted line shares a channel with it |
| RosterRows.UploadIsSoundlySorted | src/corporate/roster-csv.ts:299-376 | every data line is accepted or skipped exactly once, in order, and the accepted rows share no channel |
| RosterStore.RosterService.ImportRoster | src/corporate/roster.service.ts:62-162 | refuses in the source's order, inserts exactly the rows new to the roster, and reports the rest |
| RosterStore.RosterService.ArchiveContact | src/corporate/roster.service.ts:187-206 | archives exactly an active contact of the organization, and otherwise reports none found |
| RosterStore.ImportPartitionsTheFile | src/corporate/roster.service.ts:100-113 | every data line of an import is imported or reported as skipped, exactly once and in file order |
| RosterStore.InsertKeepsDisjoint | src/corporate/roster.service.ts:91-132 | an insert keeps active contacts disjoint exactly if its rows clash with nobody active at that moment |
| RosterOrigins.ImportAddsExactly | src/corporate/roster.service.ts:62-133 | a row of the file gets a contact exactly if the organization is approved and none of its active contacts has that email or phone; everybody else stays as they were |
| RosterOrigins.ContactsCameFromUploads | src/corporate/roster.service.ts:62-206 | in every run of the protocol each contact is a row of an accepted upload of its approved organization, column by column, with that upload's retention or, if archived since, that archive's |
| SampleUpload.UploadIsAccepted | src/corporate/roster-csv.ts:216-378 | a two-line file with a name and an email column is read as one contact |
| OverlappingImports.AtomicImportIsBothSteps | src/corporate/roster.service.ts:91-132 | looking up and inserting in a row is the import as one call |
| OverlappingImports.RosterStaysDisjointExactlyWhen | src/corporate/roster.service.ts:91-132 | at no moment of a run do two active contacts share a channel, exactly if every insert's rows are still new when it happens |
| OverlappingImports.OneImportAtATimeIsSound | src/corporate/roster.service.ts:91-132 | if an organization's imports do not overlap its roster is sound, whatever others do |
| OverlappingImports.OverlappingImportsCollide | src/corporate/roster.service.ts:91-132 | the same file uploaded twice at once puts one person on the roster twice |
| RosterStore.RosterStaysSound | src/corporate/roster.service.ts:91-206 | over any run of imports and archives active contacts of an organization share no channel and all are contactable |
| Campaigns.CampaignService.CreateCampaign | src/corporate/campaign.service.ts:113-179 | appends a draft by its creator, or refuses in the source's order |
| Campaigns.CampaignService.UpdateCampaign | src/corporate/campaign.service.ts:181-205 | changes the given texts of an editable campaign and nothing else |
| Campaigns.CampaignService.SetGiftOption | src/corporate/campaign.service.ts:212-253 | replaces the option by a sellable product, without a snapshot |
| Campaigns.CampaignService.AddRecipients | src/corporate/campaign.service.ts:258-305 | adds exactly the active contacts of the organization, under the cap, and counts added and skipped |
| Campaigns.CampaignService.RemoveRecipient | src/corporate/campaign.service.ts:307-322 | removes one recipient of an editable campaign |
| Campaigns.CampaignService.SubmitForApproval | src/corporate/campaign.service.ts:372-411 | submits an editable campaign with an option and recipients |
| Campaigns.CampaignService.ApproveCampaign | src/corporate/campaign.service.ts:415-482 | approves a pending campaign by somebody else, of a live product, and freezes its snapshot |
| Campaigns.CampaignService.RequestChanges | src/corporate/campaign.service.ts:539-560 | sends a pending campaign back with a note, by somebody else |
| Campaigns.CampaignService.CancelCampaign | src/corporate/campaign.service.ts:576-592 | cancels exactly from the four cancellable states |
| CampaignSteps.RevisionIsWellFormed | src/corporate/campaign.service.ts:181-592 | every successful call keeps a campaign well formed, moves its status along the lifecycle, and can only cancel an approved one |
| CampaignSteps.ContentChangesBehindTheGates | src/corporate/campaign.service.ts:105-109 | content changes only while editable, and a snapshot is frozen only by somebody else than the creator, of the chosen product as on sale then |
| CampaignOrigins.RevisesExactlyWhen | src/corporate/campaign.service.ts:181-592 | for each of the eight calls, the campaign, actor, roster and catalog it is accepted for, approval only of a product on sale at an approved store |
| CampaignOrigins.CampaignsHoldWhatWasLastWritten | src/corporate/campaign.service.ts:113-592 | in every run every column of every campaign (texts, option, approver and snapshot, status and its marks) is that of the last accepted call that writes it, the snapshot being that call's catalog entry, or of the campaign's creation |
| CampaignRecipients.RecipientsExactlyWhen | src/corporate/campaign.service.ts:258-322 | in every run the recipients are exactly the contacts still on the roster that an accepted call added, active in the organization then, and none removed since |
| CampaignRecipients.NoCampaignExceedsTheCap | src/corporate/campaign.service.ts:276-288 | no campaign of any run has more than 1000 recipients |
| CampaignSteps.EnqueueAddsOnePerRecipient | src/corporate/dispatch.service.ts:77-85 | a campaign without jobs gets exactly one pending job per recipient, in order |
| Dispatch.DispatchService.DispatchCampaign | src/corporate/dispatch.service.ts:30-101 | one undisturbed call is check, load and commit of the protocol, with its answer |
| DispatchOrigins.DispatchWasAsked | src/corporate/dispatch.service.ts:30-76 | in every run a campaign dispatching or completed was sent off by a call of its own organization that had found it approved |
| DispatchOrigins.BatchIsTheOldest | src/corporate/dispatch-worker.service.ts:102-113 | a sweep takes the oldest pending jobs in order, all of them or the first 25 |
| DispatchOrigins.SettlesExactlyWhen | src/corporate/dispatch-worker.service.ts:169-201 | a delivered job names its claim; a rejected one is retried exactly if not rejected for good and before its third attempt; the others have failed with their reason |
| DispatchOrigins.LookupRefusesExactlyWhen | src/corporate/claim-mint.service.ts:48-56 | the look-up before a mint refuses exactly a job whose claim is no longer open |
| ClaimMint.ClaimMintService.AllocateReference | src/references/reference.ts:159-180 | draws at most five candidates and answers the first free one, or that all were taken |
| ClaimMint.ClaimMintService.CreateWithReference | src/corporate/claim-mint.service.ts:103-129 | whatever others insert, a created claim is the last row, with a token, reference and job nobody before it has; earlier rows stay |
| ClaimMint.ClaimMintService.MintForJob | src/corporate/claim-mint.service.ts:47-145 | a call's answer and write are those of the worker's minting steps: refused, rotated or first minted |
| ClaimOrigins.ClaimsAreFounded | src/corporate/claim-mint.service.ts:58-137 | in every run a claim is addressed as the roster had its contact, by phone if there was one and else by email, carries the message and snapshot approved for its campaign, and has token, expiry and reference from minting writes |
| Dispatch.ClaimOfJob | src/corporate/claim-mint.service.ts:50-53 | finds a job's claim exactly if there is one |
| Dispatch.Complete | src/corporate/dispatch-worker.service.ts:234-243 | completes exactly the dispatching campaigns without a live job |
| ClaimFlow.ClaimService.LoadPending | src/corporate/claim.service.ts:85-103 | only a live pending claim comes back; an expired one is marked; everything else is the same refusal |
| ClaimFlow.ClaimService.Call | src/corporate/claim.service.ts:144-332 | one undisturbed call of any kind is the load and the write of the protocol, with its answer |
| ClaimSessions.ClaimsRememberTheirProof | src/corporate/claim.service.ts:168-187 | in every run a claim holds the session of the last successful OTP check of that claim, for half an hour, and none if there was no such check |
| ClaimSessions.ActsExactlyWhen | src/corporate/claim.service.ts:85-120 | a call to act gets through exactly if its token opens that claim and it holds the session which the last successful check of that claim handed out, within half an hour |
| ClaimSessions.RevealsExactlyWhen | src/corporate/claim.service.ts:190-198 | and so does a call to see the claim again |
| ClaimOutcomes.VerifiesExactlyWhen | src/corporate/claim.service.ts:169-175 | a call to check a code gets through exactly if its token opens the claim and it brings one, and remembers the claim's mark |
| ClaimOutcomes.CheckSettles | src/corporate/claim.service.ts:175-187 | a right code opens a session and marks a claim found unmarked, a wrong one changes nothing |
| ClaimOutcomes.ActSettlesExactlyWhen | src/corporate/claim.service.ts:237-346 | a call that got through succeeds exactly if the claim is still open and its address, if it gives one, is complete and covered; then the claim becomes what was asked, and otherwise nothing changes |
| ClaimOutcomes.OutcomeWasAsked | src/corporate/claim.service.ts:200-346 | in every run a claimed, declined or disowned claim goes back to a call for exactly that, with its token and its session while it was open, and a claimed one holds that call's address field by field |
| ClaimOutcomes.ExpiredWasLate | src/corporate/claim.service.ts:85-103 | in every run an expired claim goes back to a call with its token after its time |
| RosterPurge.RosterPurgeService.RunOnce | src/corporate/roster-purge.service.ts:77-110 | deletes exactly the overdue unprotected contacts, with their recipient rows, and counts them |
| RosterSteps.ProtectedRecipientsStay | src/corporate/roster-purge.service.ts:30-41 | the sweep keeps every recipient of a submitted, approved or dispatching campaign |
| RosterOrigins.LeavesExactlyWhen | src/corporate/roster-purge.service.ts:77-90 | of all steps only the retention sweep removes a contact, and exactly if it is overdue and in no campaign submitted, approved or dispatching |
| RosterSteps.RosterEventKeepsInv | src/corporate/roster-purge.service.ts:79-90 | imports, archives and purges keep the protocol's invariant |
| CampaignSteps.CampaignEventKeepsInv | src/corporate/dispatch.service.ts:61-86 | campaign calls and dispatchers' steps keep the protocol's invariant |
| WorkerSteps.HeldJobIsPrepared | src/corporate/dispatch-worker.service.ts:131-141 | a job in a worker's hands has a reachable contact and a campaign snapshot in every reachable state |
| WorkerSteps.WorkerEventKeepsInv | src/corporate/dispatch-worker.service.ts:120-210 | workers' steps, crashes and exceptions keep the protocol's invariant |
| ClaimSteps.ClaimEventKeepsInv | src/corporate/claim.service.ts:85-187 | recipients' calls keep the protocol's invariant |
| ClaimSteps.ReachableStatesAreSound | src/corporate/dispatch-worker.service.ts:82-229 | every state any run reaches satisfies the invariant |
| Evolution.ReachableEvolves | src/corporate/campaign.service.ts:4-22 | over any run: approved content frozen, settled jobs and final claims untouched, new jobs only of undispatched campaigns |
| Guarantees.ProcessingJobHasOneOwner | src/corporate/dispatch-worker.service.ts:122-128 | a job in a worker's hands is in processing and in no other worker's |
| Guarantees.SettledJobsStaySettled | src/corporate/dispatch-worker.service.ts:178-201 | a dispatched or failed job is never changed again |
| Guarantees.DispatchedJobNamesItsOnlyClaim | src/corporate/claim-mint.service.ts:108-137 | a job has at most one claim, and a dispatched job names it |
| Guarantees.EveryDispatchedJobHasAClaim | src/corporate/dispatch-worker.service.ts:178-188 | every dispatched job has a claim and its reference is that claim |
| Guarantees.NoJobFailsUnprepared | src/corporate/dispatch-worker.service.ts:132-166 | no job ever fails as contact unreachable or snapshot missing |
| Guarantees.OneJobPerRecipient | src/corporate/dispatch.service.ts:51-86 | while dispatching the jobs are exactly the recipients, one each; afterwards the recipients are the jobs' contacts still on the roster |
| Guarantees.DispatchedAtMostOnce | src/corporate/dispatch.service.ts:61-76 | once dispatched a campaign never gets another job |
| Guarantees.CompletedMeansNoLiveJobEver | src/corporate/dispatch-worker.service.ts:231-243 | a completed campaign stays completed and never has a live job again |
| Guarantees.ApprovalIsFrozen | src/corporate/campaign.service.ts:413-482 | approver and creator differ, and option, snapshot and message stay what was approved over any run |
| Guarantees.RecipientsRemainExactlyWhen | src/corporate/roster-purge.service.ts:30-41 | approved and dispatching campaigns have recipients; a completed one exactly while a job's contact is on the roster |
| Guarantees.PurgeEmptiesACompletedCampaign | src/corporate/roster-purge.service.ts:77-90 | once overdue and unprotected, a completed campaign's recipients are all taken |
| Schedules.CompletedCampaignLosesItsRecipients | src/corporate/roster-purge.service.ts:77-90 | a run that delivers, completes and then purges leaves a completed campaign without recipients |
| Guarantees.InvoiceLegsAgree | src/corporate/campaign.service.ts:496-532 | whenever the two invoices read the approved campaign they agree on price, count and amounts |
| Guarantees.FinalClaimsHaveOneWinner | src/corporate/claim.service.ts:304-346 | a final claim keeps its status over any run and exactly one write gave it |
| Guarantees.ClaimsAreProvedAndAddressed | src/corporate/claim.service.ts:106-120 | there is an address exactly for a claimed claim, and whoever acted had verified an OTP |
| Guarantees.MarkedClaimsWereProved | src/corporate/claim.service.ts:168-187 | an OTP mark was set by an earlier successful check of that very claim's code |
| Guarantees.WhoeverActsHasProved | src/corporate/claim.service.ts:106-120 | a call about to claim, decline or say not me follows such a check in the run |
| Guarantees.ActedClaimsWereProved | src/corporate/claim.service.ts:304-346 | every claimed, declined or mismatched claim had its channel proved earlier in the run |
| Guarantees.MintingWritesNoStatus | src/corporate/claim-mint.service.ts:90-137 | minting changes at most the claim it looked up, and never its status, reference, session or OTP mark |
| Guarantees.MintRotatesAFinalizedClaimExactlyWhen | src/corporate/claim-mint.service.ts:48-56 | a finalized claim's token is overwritten exactly by a worker that had looked it up before |
| Guarantees.DeclineBetweenLookupAndMint | src/corporate/claim-mint.service.ts:131-137 | from any sound state with an open claim looked up and its recipient about to decline, the mint gives the declined claim a new token |
| Schedules.DeclineMeetsLookup | src/corporate/claim-mint.service.ts:44-56 | a run from the first upload on reaches such a state |
| Schedules.DeclinedClaimIsRotated | src/corporate/claim-mint.service.ts:131-137 | and its continuation ends with a declined claim that has a new token |
| DispatchSweep.DispatchWorkerService.ProcessRow | src/corporate/dispatch-worker.service.ts:120-210 | the loop body, with an exception at any call, is the row's steps of the protocol and counts accordingly |
| DispatchSweep.DispatchWorkerService.RunOnce | src/corporate/dispatch-worker.service.ts:82-229 | a whole sweep with its counters, or nothing if paused |
| SweepProgress.CountersMatchTheTable | src/corporate/dispatch-worker.service.ts:115-201 | for a row without exceptions the counter that went up says what became of the job |
| SweepProgress.SweepMakesProgress | src/corporate/dispatch-worker.service.ts:102-129 | a sweep lowers the attempts left by at least the jobs it claims and keeps every pending job under three |
| SweepProgress.EnqueueKeepsTheBound | src/corporate/dispatch.service.ts:77-84 | newly enqueued jobs keep the attempt bound |
| SweepProgress.QueueDrains | src/corporate/dispatch-worker.service.ts:178-201 | from n pending jobs, three n sweeps leave nothing pending whatever the provider answers |
| SweepProgress.SweepCompletes | src/corporate/dispatch-worker.service.ts:212-243 | whatever the queue, a sweep leaves a campaign dispatching only if it left it a live job |
| SweepProgress.DrainedMeansCompleted | src/corporate/dispatch-worker.service.ts:231-243 | with the queue drained and no job abandoned every dispatching campaign is completed |
| SingleSweeper.PendingJobsHaveAttemptsLeft | src/corporate/dispatch-worker.service.ts:190-201 | in every run whose sweeps do not overlap, with any deaths and restarts, a pending job has been tried less than three times |
| SingleSweeper.LimitHoldsExactlyWhen | src/corporate/dispatch-worker.service.ts:190-201 | in any run pending jobs keep attempts left exactly if no retry is decided on a stale attempt number |
| SingleSweeper.SweepMakesProgressAfter | src/corporate/dispatch-worker.service.ts:102-129 | so from any such run a sweep lowers the attempts left by the jobs it claims |
| SingleSweeper.QueueDrainsAfter | src/corporate/dispatch-worker.service.ts:178-201 | three sweeps for each pending job drain the queue |
| SingleSweeper.DrainedMeansCompletedAfter | src/corporate/dispatch-worker.service.ts:231-243 | and once drained with no job abandoned no campaign is left dispatching |
| Schedules.OverlappingSweepsExceedTheLimit | src/corporate/dispatch-worker.service.ts:120-201 | a run of three overlapping sweeps after which a job is pending with three attempts |
| SweepRefinement.SweepIsARun | src/corporate/dispatch-worker.service.ts:82-229 | a whole sweep is a run of the protocol and keeps its invariant |
| GiftCreation.GiftsService.Create | src/gifts/gifts.service.ts:211-604 | one undisturbed call looks the key up, passes the gates and inserts, with its answer |
| GiftCreation.GiftsService.PassGates | src/gifts/gifts.service.ts:297-459 | sender, self-send, receiver, block, default address, fast delivery and stock are checked in that order |
| GiftGates.InsertsExactlyWhen | src/gifts/gifts.service.ts:236-573 | a call makes a gift exactly if its request is complete, all gates are open at its write and no gift has its sender and key; and the gift holds the request field by field |
| GiftGates.GiftsPassedTheGates | src/gifts/gifts.service.ts:236-573 | in every run each gift goes back to such a request and to a write that found sender and receiver distinct and unblocked, an address, and the product available |
| GiftCreation.FindByKey | src/gifts/gifts.service.ts:275-278 | finds the sender's gift under a key exactly if there is one |
| GiftCreation.TidiedRetryIsTheSameRequest | src/gifts/gifts.service.ts:148-170 | a retry with trimmed texts and the message under its other name has the same canonical payload |
| GiftCreation.SamePayloadExactlyWhen | src/gifts/gifts.service.ts:148-170 | two requests have one payload exactly if they agree on receiver, product, store, message, flags, occasion and media, up to case of the receiver and outer white space |
| GiftCreation.OneGiftPerKey | src/gifts/gifts.service.ts:518-573 | in every interleaving there is at most one gift for a sender's key |
| GiftCreation.SuccessesAgree | src/gifts/gifts.service.ts:279-294 | all successful answers under one key of a sender are one gift, and their requests asked for the same, whatever schedule |
| GiftCreation.RetryIsAnsweredExactlyWhen | src/gifts/gifts.service.ts:274-294 | once a request under a key was answered, a later one is answered with its gift exactly if it asks for the same, and refused as a reuse otherwise |
| GiftCreation.LosersFindTheWinner | src/gifts/gifts.service.ts:574-604 | a caller that lost the race is answered with the winner or refused for a different payload |
| GiftLifecycle.HistoriesArePaths | src/gifts/gift-status.ts:36-64 | every gift's history is a path from pending in the allowed graph, however the writers interleave |
| GiftLifecycle.NothingFollowsTheEnd | src/gifts/gift-status.ts:17-21 | nothing follows delivered or cancelled in any history |
| GiftLifecycle.MovesExactlyWhen | src/gifts/gifts.service.ts:840-1076 | a gift gets a new status exactly by the step for it: its receiver's confirmation of an own, covered address, the flip of the sweep or a cancellation, or the store's next step |
| GiftLifecycle.EveryGiftHasALife | src/gifts/gift-status.ts:36-64 | in every run a gift's history is pending, one of the two ways to an address, preparing, shipped, delivered, as far as it has come, or ends cancelled before the store's steps |
| GiftCancellation.OneCallWins | src/gifts/gifts.service.ts:1060-1076 | in every interleaving exactly one flip changes a gift's row if it is cancelled, and none otherwise |
| GiftCancellation.TheWinnerGoesOn | src/gifts/gifts.service.ts:1066-1162 | only the call whose flip changed the row lowers the counter and takes the posts down; what it has not done it is about to do, or it failed or died |
| GiftCancellation.CancelledOnce | src/gifts/gifts.service.ts:1113-1162 | a gift is counted out and its posts are taken down at most once, and one call accounts for every cancelled gift |
| GiftCancellation.AtMostOneStep | src/gifts/gifts.service.ts:1060-1162 | no two steps of a run flip, count out or take down the same gift |
| GiftCancellation.TheCreatorCounts | src/gifts/gifts.service.ts:656-681 | a gift is counted in once, by the call that created it, unless that write failed, is outstanding or was never reached |
| GiftCancellation.CounterBalances | src/gifts/gifts.service.ts:656-1134 | in every reachable state the counter is the product's gifts not cancelled plus what their counter writes still owe |
| GiftCancellation.CounterCountsLiveGifts | src/gifts/gifts.service.ts:1113-1134 | with no counter write outstanding or lost it is the number of gifts not cancelled |
| GiftTakeDown.OnePostPerSide | prisma/schema.prisma:1116 | a gift and owner have one post, and a publish call holds the id of its own |
| GiftTakeDown.PostIsLiveExactlyWhen | src/gift-posts/gift-posts.service.ts:153-219 | in every run a post is live exactly if a publish call surfaced it and nobody unpublished it or took it down since |
| GiftTakeDown.WriteOutlivesTheGiftExactlyWhen | src/gift-posts/gift-posts.service.ts:172-202 | the write leaves a live post on a cancelled gift exactly if the gift is cancelled then and the unique index did not refuse it in favour of a post that is not live |
| GiftTakeDown.PublishOutlivesTheGiftExactlyWhen | src/gift-posts/gift-posts.service.ts:153-202 | from its look-up on: exactly if the gift is cancelled and the owner's post is absent, unpublished or live; a published deactivated one stays down |
| GiftTakeDown.TakenDownPostIsLiveExactlyWhen | src/gifts/gifts.service.ts:1136-1162 | after the take-down a post is live exactly as the write of a publish call that read the gift before it was cancelled, not unpublished since |
| GiftTakeDown.PostsStayUntilTakenDown | src/gifts/gifts.service.ts:1148-1162 | between flip and take-down, and for good if that is lost, a post is live exactly if surfaced and not unpublished |
| GiftTakeDown.InterruptedPublishOutlivesTheGift | src/gift-posts/gift-posts.service.ts:144-203 | a run that ends with all calls over and a live post on a cancelled, taken-down gift |
| GiftService.ChooseAddress | src/gifts/gifts-auto-default.service.ts:164-200 | the first address, or where coverage counts the first covered one; none and out-of-coverage are told apart |
| GiftService.GiftsService.ConfirmAddress | src/gifts/gifts.service.ts:840-987 | confirms exactly a pending gift for its receiver with an own, covered address, tells the refusals apart, and answers later retries with the current status |
| GiftService.GiftsService.Cancel | src/gifts/gifts.service.ts:1037-1162 | fails exactly for an unknown gift, another viewer or a gift the store has accepted; otherwise it is the call's four steps |
| GiftService.GiftsService.Publish | src/gift-posts/gift-posts.service.ts:104-203 | succeeds exactly for a party of a gift not cancelled, whose post is published afterwards |
| GiftService.GiftsService.RunOnce | src/gifts/gifts-auto-default.service.ts:110-299 | the loop promotes in order, counts a row that throws as skipped, and its three counters add up to the overdue gifts |
| GiftService.PromotedIsTwoSteps | src/gifts/gifts-auto-default.service.ts:242-256 | a promoted row is the sweep's choice and its conditional flip |
| GiftService.SweepMovesExactly | src/gifts/gifts-auto-default.service.ts:242-256 | a sweep moves exactly the overdue gifts still pending with an address to use, and nothing else |
| GiftService.CancelSettlesTheGift | src/gifts/gifts.service.ts:1113-1162 | a whole cancellation counts the gift out once if that write succeeds and leaves no live post if the take-down does |
| GiftPosts.CollapseGiftPostGroups | src/gift-posts/gift-posts.service.ts:760-784 | the map-indexed loop computes the specified groups |
| GiftPosts.CollapseIsFaithful | src/gift-posts/gift-posts.service.ts:760-784 | each key has one entry, its first row, counted as often as the key occurs, in order of first rows |
| GiftPosts.SameEntryExactlyWhen | src/gift-posts/gift-posts.service.ts:753-772 | two rows share an entry exactly if they are of one owner, direction and product; one without a product stands alone |
| GiftPosts.CollapseConservesPosts | src/gift-posts/gift-posts.service.ts:769-779 | the counts add up to the number of posts |
| GiftPosts.CounterIsTheNumberOfFans | src/gift-posts/gift-posts.service.ts:453-517 | however toggles interleave the counter is the number of appreciation rows, so it is never clamped |
| GiftPosts.AppreciationService.Appreciate | src/gift-posts/gift-posts.service.ts:421-517 | refuses a missing, own or not publicly visible post, and otherwise adds or removes the viewer and answers the new count |
| GiftPosts.ToggleTwiceIsNothing | src/gift-posts/gift-posts.service.ts:453-517 | two undisturbed toggles cancel out, whichever way they start, and each changes the count by one |
| Addresses.AddressesService.ResolvePendingAttemptsFor | src/addresses/addresses.service.ts:119-153 | resolves every waiting attempt and notifies each waiting sender once |
| Addresses.PayloadExactlyWhen | src/addresses/addresses.service.ts:163-210 | a body is accepted exactly if it has country, city and district, and in the six known countries street and building, and each field is its own, trimmed |
| AddressCalls.SucceedsExactlyWhen | src/addresses/addresses.service.ts:213-392 | which address calls succeed; the others change nothing |
| AddressCalls.RowsAfter | src/addresses/addresses.service.ts:213-392 | a call adds or removes its one address, rewrites at most its own, and touches nobody else's |
| AddressCalls.DefaultAfter | src/addresses/addresses.service.ts:213-392 | which address is the default after a call: the new one if wanted or first, the one updated or chosen to be it, the newest other one when the default is removed, else the one it was |
| Addresses.AddressesService.Create | src/addresses/addresses.service.ts:216-258 | adds the address, as the default if first or wanted, after clearing the old one |
| Addresses.AddressesService.Update | src/addresses/addresses.service.ts:276-321 | rewrites an own address; the default mark only ever rises |
| Addresses.AddressesService.SetDefault | src/addresses/addresses.service.ts:325-360 | makes an own address the default in place of the old one |
| Addresses.AddressesService.Remove | src/addresses/addresses.service.ts:366-392 | deletes an own address and promotes the newest other one if it was the default |
| Addresses.ExactlyOneDefault | src/addresses/addresses.service.ts:213-258 | in every reachable state a user with addresses has exactly one default |
| Addresses.AttemptsWaitForTheAddressless | src/gifts/gifts.service.ts:370-381 | unresolved attempts exist only for users without any address |
| Addresses.AttemptIsResolvedExactlyWhen | src/addresses/addresses.service.ts:119-146 | an attempt is resolved exactly if its receiver has created a first address since, and then once |
| Addresses.AttemptsAreResolvedOnce | src/addresses/addresses.service.ts:134-146 | at most one call of a run resolves an attempt and notifies for it |
| Addresses.OnlyFirstAddressesNotify | src/addresses/addresses.service.ts:250-255 | only the creation of a first address ever notifies anybody |
| Addresses.EachWaitingSenderOnce | src/addresses/addresses.service.ts:127-132 | the notified senders are exactly the waiting ones, each once |

## Left out

- Binary floating point: amounts are exact reals at the boundary and integers inside; only the 2^53 bound of the intermediate products is proved. Non-finite amounts in the money functions are not part of this model.
- Case folding and white space outside ASCII letters: `toLowerCase` and `toUpperCase` act on ASCII letters only; white space is the set that `trim` knows.
- TaxEngine: rates are non-negative; the frozen tax snapshots, notes and versions are copies of the inputs and not modelled.
- Money.MulIsRepeatedAdd: counts are integers, so the source's refusal of fractional counts is not modelled.
- RosterCsv.PlanHeaders: header names that collide with members of JavaScript's Object prototype are not modelled.
- FinancialLedger: of the event vocabulary only the events posted or singled out by the modelled code appear; settlement, refund and treasury producers are any other writer.
- Reconciliation.LedgerReconciliationService.FindMissing: documents stand still during a sweep, and the three scans run one after the other, each at its own moment.
- Convergence.RepairConverges: assumes that rows under an invoice's or an order's payment key carry that event's reason code, as every producer in the repository writes them.
- InvoiceNumbering.InvoiceService.EnsureInvoiceForCampaign: the party snapshots, tax columns, audit row and ledger posting of an invoice are not in its row; the ledger posting is the repair sweep's concern.
- MerchantIssuing.OneGoodsInvoicePerCampaign: assumes that all readers see one store for a campaign. MerchantFacts derives it for snapshots that carry their store; one older than its store column falls back to the product's store, taken not to change.
- Campaigns: each campaign call is one atomic step, as are the roster calls; invoice issuance after approval, audit rows and reference numbers are not part of a call.
- Dispatch: in the protocol a mint draws one gift reference, whose collision throws; the draws and retries are in ClaimMint alone. The organization's display name on a claim is not modelled. An empty phone or email, which the roster never holds, counts as none throughout.
- ClaimFlow.ClaimService.Call: the OTP service and the coverage match are parameters; hashing is injective.
- SweepProgress.QueueDrains: the sweeps that drain the queue do not overlap; with overlapping ones the attempt limit fails, while ownership and finality need no such condition.
- GiftCreation: what the gates between look-up and insert read is one parameter, taken at the moment of the insert; the request hash is injective; media validation is not modelled.
- GiftLifecycle: confirming an address and the store's steps are atomic; the wish-list cascade, shipments and notifications are not modelled.
- GiftService.GiftsService.ConfirmAddress: whether the address is the receiver's own and whether the store covers it are parameters.
- Addresses: resolving the waiting attempts succeeds; of an address only the fields that decide validity and the default mark are kept.
- Not modelled at all: HTTP controllers, guards and tokens, mail and notification texts, uploads, delivery zones, settlement, treasury, payments, organization seats, the store-business table, OTP internals, the Hijri calendar, scripts and seeds.
