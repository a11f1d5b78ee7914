# Invoices, expenses, prices and quotations: a model of the ERP's money logic

This project states, in Dafny, what the back end promises about money and about the workflows that move it, and what
of that its code keeps. Amounts of money are whole cents, unit prices and costs are counted in ten-thousandths, and
every rounding is written out. Where the code updates an object in place, the model is a class whose methods are tied
to a function of the state before; what the source promises is then stated about those functions, over every input,
every state or every run.

`dafny verify dfyconfig.toml` covers the whole project. The modules, one per file:

| module | models |
|---|---|
| `InvoiceSplit` | the arithmetic of dividing an invoice: merging lines, equal parts, percentages, the remainder |
| `InvoiceLedger`, `LedgerDivision`, `LedgerProperties`, `LedgerEffects`, `LedgerLimits` | the ledger that ties invoices to expenses: its operations as functions, what a split does, what every operation keeps, what each does field by field, where a promise stops |
| `OverlappingLinks` | links to existing expenses when requests overlap |
| `FiscalInvoicesService` | the service that updates that ledger in place, loops and all |
| `ExpenseMatch` | scoring expenses against invoices and sharing them out |
| `UniqueCodes`, `CorrelativeCodes` | codes MAX + 1 under a unique index; their text, and the order of the text |
| `SessionRefresh`, `SessionEffects` | single-flight renewal of a one-use refresh token; what each step does, and what callers are told over runs |
| `WhatsappFlow`, `WhatsappEffects` | registering an invoice over WhatsApp, as steps between waits; what each message does, and what becomes of a session over runs |
| `Rounding`, `PriceSelection`, `SupplierComparison` | four decimals; the price in force and the capped summary; its extremes and average, and the comparison between suppliers |
| `AcuCost`, `AcuBatch` | the unit cost of a recipe, one at a time and in a batch |
| `MaterialPrices`, `PriceEffects` | the append-only ledger of prices and the prices derived from expenses; what each operation writes |
| `PriceImports`, `ImportEffects`, `OverlappingImports` | reviewing and approving imported prices; what each request does to its lines; the same when requests overlap |
| `QuoteTree`, `QuoteEditor` | rebuilding the tree of a quotation; totals and edits |
| `ParentLinks` | parent links of categories and units without cycles |
| `JsonExtract` | the first balanced JSON object of a text |

## What the code does not keep

Each of these is stated with the exact condition under which the promise holds, or with a run in which it fails.

- Updating an invoice saves the fiscal change before its expense follows. With a destination that does not exist the
  change stays and the expense is left behind (`LedgerProperties.UpdateKeepsGood`).
- Linking an expense looks for it among the invoices, never among the lines of divided ones: the expense of a line can
  be linked, and is then counted twice (`LedgerProperties.LinkKeepsGood`, `LedgerLimits.LinkCanClaimALine`,
  `LedgerLimits.GoodExactlyWhenNeverCareless`). It looks once, and writes later with nothing behind it: two links that
  overlap can give one expense two invoices (`OverlappingLinks.SingleClaimsExactlyWhenNeverTooLate`,
  `OverlappingLinks.OverlappingLinksClaimTwice`).
- A link that is to give the expense the amount of the invoice does not when the expense has a quantity and a unit
  price of its own (`LedgerLimits.SyncedLinkAmount`, `LedgerLimits.SyncedLinkCanMissTheAmount`).
- A negative total divided in equal parts loses its loose cents (`InvoiceSplit.EqualParts`,
  `InvoiceSplit.NegativePartsLoseACent`), and the last part of a
  division by percentage can be negative (`InvoiceSplit.LastShareIsNegativeExactlyWhen`,
  `InvoiceSplit.LastShareCanBeNegative`).
- The flag for a doubtful suggestion looks at the first rival only (`ExpenseMatch.FlagsShownTell`,
  `ExpenseMatch.FlagCanMissACloseRival`).
- Codes read as the greatest text stop for good once the width is full (`CorrelativeCodes.TextNextWorksUntilTheWidthIsFull`).
- A renewal that times out while the API has the request in hand can rotate one token twice
  (`SessionRefresh.OneEarlyTimeout`, `SessionRefresh.TimeoutCanConsumeTwice`), and `unavailable` does not mean, as the
  comment has it, that the token is still valid: it may be spent, or be spent later
  (`SessionRefresh.WhatUnavailableMeans`, `SessionRefresh.UnavailableCanMeanConsumed`).
- A material whose prices all fall past the cap of the page is shown without a price
  (`PriceSelection.CapCanHideAMaterial`), and one that lost some of them can have its extremes and its average off
  (`SupplierComparison.CappedExtremes`).
- A recipe line whose unit cannot be converted is still multiplied by the price of the catalogue, against the comment in
  the code (`AcuBatch.FailedConversionIsStillPriced`), and saving the line does not rule that out: its unit can be
  changed later (`AcuBatch.RebasingCanUnconvert`, `AcuBatch.FailedConversionIsReached`).
- Of two syncs of one expense that both read before either writes, the second is dropped if the first put a price in,
  whichever is newer (`MaterialPrices.SecondWriteIsDropped`, `MaterialPrices.SecondIsUpToDateExactlyWhen`,
  `MaterialPrices.TheOlderPriceCanStay`).
- Two approvals that both loaded a line make two prices of it, and a correction loaded before an approval and saved
  after it takes the approval back (`OverlappingImports.OneToOneExactlyWhenNeverStale`, `TwoApprovalsTwoPrices` and
  `LateEditTakesTheApprovalBack` there); a discarded line is approved if asked for
  (`PriceImports.ApprovalIgnoresDiscards`, `PriceImports.DiscardedLineIsApproved`); discarding the last pending line
  leaves its batch under review and reopening a line leaves its batch done (`PriceImports.UpdateKeepsTheStatus`,
  `PriceImports.StatusCanBeOutrun`); a batch read again keeps what the failed reading saved
  (`PriceImports.RetryAddsToWhatWasThere`, `PriceImports.RetryCanDouble`), and two workers that both found it queued
  both store its lines (`OverlappingImports.EveryReadingAddsItsLines`, `OverlappingImports.TwoWorkersReadTwice`).
- Clearing the base of a unit with an explicit null leaves its factor (`ParentLinks.NullLeavesHalfAConversion`,
  `ParentLinks.NullBaseLeavesTheFactor`). The
  comment that conversion walks the chain of bases does not hold: it looks one base up (`AcuBatch.OnlyOneBaseUp`,
  `AcuBatch.ChainsDoNotConvert`).
- Hanging a child from a priced line takes the line's own amount out of the subtotal (`QuoteEditor.AddingShiftsTheSubtotal`).

## Model

| member | source | states |
|---|---|---|
| InvoiceSplit.RemainderIsTheOnlyFix | stp-api/src/fiscal-invoices/invoice-split.ts:41-128 | putting the remainder on a line makes the split check, and no other amount on that line does |
| InvoiceSplit.DifferenceIsWhatIsMissing | stp-api/src/fiscal-invoices/invoice-split.ts:41-128 | a split checks exactly when its difference is zero, and a line more with the difference, or with the remainder, always makes it check |
| InvoiceSplit.MergeSplitLines | stp-api/src/fiscal-invoices/invoice-split.ts:65-80 | the loop over the map of destinations gives one line per destination, in order of first appearance, with the sum of its amounts and its notes joined |
| InvoiceSplit.MergedIsDistinct | stp-api/src/fiscal-invoices/invoice-split.ts:65-80 | no two merged lines go to one destination |
| InvoiceSplit.MergedKeepsTheSum | stp-api/src/fiscal-invoices/invoice-split.ts:65-80 | merging keeps the total to the cent |
| InvoiceSplit.MergedFixpoint | stp-api/src/fiscal-invoices/invoice-split.ts:65-80 | merging leaves a list alone exactly when its destinations differ and its notes are clean |
| InvoiceSplit.MergedIsIdempotent | stp-api/src/fiscal-invoices/invoice-split.ts:65-80 | merging twice is merging once |
| InvoiceSplit.NotesAreThose | stp-api/src/fiscal-invoices/invoice-split.ts:65-80 | the notes kept for a destination are the different ones of its lines, each once, in order of first appearance |
| InvoiceSplit.NoteWithoutItsSpaces | stp-api/src/fiscal-invoices/invoice-split.ts:65-80 | a note loses only the spaces at its ends, and is dropped exactly when it has nothing else |
| InvoiceSplit.JoinedReads | stp-api/src/fiscal-invoices/invoice-split.ts:65-80 | notes are joined in order with a semicolon and a space |
| InvoiceSplit.DestinationsInOrder | stp-api/src/fiscal-invoices/invoice-split.ts:65-80 | destinations keep the order in which they first appear |
| InvoiceSplit.EqualParts | stp-api/src/fiscal-invoices/invoice-split.ts:86-92 | equal parts differ by a cent at most, larger first, and add up exactly when the total is not negative or divides evenly |
| InvoiceSplit.NegativePartsLoseACent | stp-api/src/fiscal-invoices/invoice-split.ts:86-92 | minus five cents in two parts come to minus four |
| InvoiceSplit.PercentParts | stp-api/src/fiscal-invoices/invoice-split.ts:99-109 | percentage parts add up to the total; each but the last is within half a cent of its exact share, the last within half a cent per other line |
| InvoiceSplit.SplitByPercent | stp-api/src/fiscal-invoices/invoice-split.ts:99-109 | succeeds exactly for percentages that are present, not negative and add up to 100, by overwriting the last cell |
| InvoiceSplit.LastShareIsNegativeExactlyWhen | stp-api/src/fiscal-invoices/invoice-split.ts:99-109 | the last part is not negative exactly when what the others gained by rounding to the cent fits in its exact share |
| InvoiceSplit.LastShareIsEnough | stp-api/src/fiscal-invoices/invoice-split.ts:99-109 | so it never is between two lines, nor when its exact share is worth half a cent for each of the others |
| InvoiceSplit.LastShareCanBeNegative | stp-api/src/fiscal-invoices/invoice-split.ts:99-109 | one cent at 50, 50 and 0 percent is split into 1, 1 and -1 |
| LedgerDivision.SplitsAccepted | stp-api/src/fiscal-invoices/fiscal-invoices.service.ts:782-805 | a split is accepted exactly when the invoice is not linked, there are lines, they add up as given and their projects exist; otherwise nothing changes |
| LedgerDivision.SplitEffect | stp-api/src/fiscal-invoices/fiscal-invoices.service.ts:806-867 | after a split each merged line has exactly one expense of its amount and destination, reused if the invoice already had one there and new otherwise; the rest the invoice held is deleted; nothing outside it changes |
| LedgerDivision.SplitsAreIdempotent | stp-api/src/fiscal-invoices/fiscal-invoices.service.ts:782-877 | the same lines applied again are accepted and leave the same state and ids |
| LedgerDivision.DividedBalances | stp-api/src/fiscal-invoices/fiscal-invoices.service.ts:806-895 | whatever the invoice had before, divided it balances: line amounts sum to its total and each expense costs its line |
| LedgerDivision.DividedKeepsSound | stp-api/src/fiscal-invoices/fiscal-invoices.service.ts:782-877 | a division keeps every expense claimed once, every claim pointing at an expense, and new ids new |
| LedgerDivision.ReuseIsTheFirst | stp-api/src/fiscal-invoices/fiscal-invoices.service.ts:813-834 | what is reused for a destination is the first the invoice holds for it, lines before the single expense |
| LedgerEffects.SplitCostsTheLines | stp-api/src/fiscal-invoices/fiscal-invoices.service.ts:782-877 | after a split every expense the invoice claims costs what the lines as given send to the destination it serves, and every destination named has one |
| LedgerEffects.SplitWritesTheLines | stp-api/src/fiscal-invoices/fiscal-invoices.service.ts:806-895 | the expense of each line has its amount, destination and notes and the facts of the invoice; the line is kept with it, or a single line leaves an undivided invoice |
| LedgerEffects.SplitKeepsRepeatedDestinations | stp-api/src/fiscal-invoices/fiscal-invoices.service.ts:806-867 | from a balanced ledger an expense of the invoice survives a split exactly when some line names the destination it serves, and goes on serving it |
| LedgerEffects.AnswerToSplits | stp-api/src/fiscal-invoices/fiscal-invoices.service.ts:782-805 | a split is a conflict on a linked invoice and otherwise a bad request exactly when it is not accepted |
| LedgerProperties.ApplyDestinationKeepsGood | stp-api/src/fiscal-invoices/fiscal-invoices.service.ts:117-159 | giving an invoice its destination balances the ledger, or is rejected and changes nothing |
| LedgerProperties.DestinationRejected | stp-api/src/fiscal-invoices/fiscal-invoices.service.ts:117-159 | it is rejected, as a bad request, exactly for a project that does not exist |
| LedgerEffects.DestinationIsReached | stp-api/src/fiscal-invoices/fiscal-invoices.service.ts:117-159 | an invoice that is given a destination ends with an expense, and every expense it claims, linked or its own or that of a line, serves that destination |
| LedgerEffects.NoDestinationNoMove | stp-api/src/fiscal-invoices/fiscal-invoices.service.ts:117-159 | without a destination the same expenses are there and none changes the one it serves |
| LedgerEffects.OwnedSaysItsInvoice | stp-api/src/fiscal-invoices/fiscal-invoices.service.ts:148-173 | an expense born of an undivided invoice says exactly what the invoice says and is where it is sent; nothing else changes |
| LedgerEffects.LinkedKeepsItsData | stp-api/src/fiscal-invoices/fiscal-invoices.service.ts:141-147 | an expense that was only linked changes its destination and nothing else |
| LedgerEffects.LinesFollowTheirInvoice | stp-api/src/fiscal-invoices/fiscal-invoices.service.ts:880-919 | without a destination the expense of every line says what the line and the invoice say, and no other changes |
| LedgerEffects.DestinationLeavesAlone | stp-api/src/fiscal-invoices/fiscal-invoices.service.ts:117-159 | giving one invoice its destination touches neither the claims of another nor the expenses it claims |
| LedgerEffects.WhatAnExpenseSays | stp-api/src/fiscal-invoices/fiscal-invoices.service.ts:162-173 | the expense of an invoice costs its total and repeats its issuer, number, date, kind of expense and notes |
| LedgerEffects.WhatALineSays | stp-api/src/fiscal-invoices/fiscal-invoices.service.ts:880-895 | the expense of a line costs the line, and its notes name the invoice, the line and the remarks, in that order |
| LedgerEffects.AmountOfABreakdown | stp-api/src/expenses/expenses.service.ts:179-212 | an update moves the expense and replaces its data only when they are given, and with a quantity and a unit price the amount is their product to the nearest cent |
| LedgerProperties.UpdateKeepsGood | stp-api/src/fiscal-invoices/fiscal-invoices.service.ts:682-724 | an update keeps the tables sound, and the ledger balanced exactly unless it names a project that does not exist while changing the amount or the facts that the invoice's own expenses repeat |
| LedgerProperties.UpdateRepairs | stp-api/src/fiscal-invoices/fiscal-invoices.service.ts:682-724 | saving the same data again without a destination brings the expenses back in line |
| LedgerEffects.UpdateDoes | stp-api/src/fiscal-invoices/fiscal-invoices.service.ts:682-724 | an update is accepted exactly for a registered invoice, a document nobody else has, an unchanged total if divided and a project that exists; then the invoice says what it was given and all its expenses are at the destination given, or where they were |
| LedgerEffects.AnswerToUpdate | stp-api/src/fiscal-invoices/fiscal-invoices.service.ts:682-724 | which refusal is given, in the order of the checks |
| LedgerProperties.LinkKeepsGood | stp-api/src/fiscal-invoices/fiscal-invoices.service.ts:527-542 | an accepted link keeps every expense claimed once exactly when the expense is not that of a line |
| LedgerProperties.UnlinkKeepsGood | stp-api/src/fiscal-invoices/fiscal-invoices.service.ts:545-551 | letting an expense go keeps the ledger sound and balanced |
| LedgerProperties.UnlinkUndoesLink | stp-api/src/fiscal-invoices/fiscal-invoices.service.ts:527-551 | linking without touching the expense and unlinking gives the same tables back |
| LedgerProperties.UnlinkRepairsALink | stp-api/src/fiscal-invoices/fiscal-invoices.service.ts:527-551 | whatever an accepted link took, the expense of a line included, unlinking leaves every expense claimed once again |
| LedgerEffects.LinkDoes | stp-api/src/fiscal-invoices/fiscal-invoices.service.ts:527-542 | a link is accepted exactly for an invoice without expense or lines and an expense no invoice has; it writes the link, and the data of the invoice only if asked to |
| LedgerEffects.UnlinkDoes | stp-api/src/fiscal-invoices/fiscal-invoices.service.ts:545-551 | letting go is accepted exactly when there is an expense to let go, which stays as it was |
| LedgerEffects.AnswersAboutExpenses | stp-api/src/fiscal-invoices/fiscal-invoices.service.ts:527-551 | which refusal is given to a split, a link, its undoing and a removal |
| LedgerProperties.CreateKeepsGood | stp-api/src/fiscal-invoices/fiscal-invoices.service.ts:78-114 | registering an invoice keeps the ledger sound and balanced, and when rejected leaves everything as it was but for a spent id |
| LedgerEffects.CreateAccepted | stp-api/src/fiscal-invoices/fiscal-invoices.service.ts:78-114 | registering is accepted exactly for a new document, with a link to a free expense or a destination that exists but not both, and otherwise changes nothing |
| LedgerEffects.CreateDoes | stp-api/src/fiscal-invoices/fiscal-invoices.service.ts:78-114 | the new invoice has the linked expense, synced only if asked to, a new one of its own at the destination given, or none; nothing else changes |
| LedgerEffects.AnswerToCreate | stp-api/src/fiscal-invoices/fiscal-invoices.service.ts:78-114 | which refusal is given, in the order of the checks |
| LedgerProperties.RemoveKeepsGood | stp-api/src/fiscal-invoices/fiscal-invoices.service.ts:726-762 | removing an invoice deletes exactly the expenses born of it, a linked one stays as it was, and the ledger stays sound and balanced |
| LedgerProperties.RemoveUndoesCreate | stp-api/src/fiscal-invoices/fiscal-invoices.service.ts:78-114 | registering an invoice with its expense and removing it leaves invoices, lines and expenses as before |
| LedgerProperties.AssignKeepsGood | stp-api/src/fiscal-invoices/fiscal-invoices.service.ts:374-390 | assigning many invoices, some of which may fail, keeps the ledger sound and balanced |
| LedgerEffects.AssignedAreThere | stp-api/src/fiscal-invoices/fiscal-invoices.service.ts:374-390 | every invoice asked for and not reported as failed ends with an expense, and with all of them at the destination |
| LedgerEffects.FailuresAreThose | stp-api/src/fiscal-invoices/fiscal-invoices.service.ts:374-390 | an id is reported as failed exactly when it is not registered or the project does not exist |
| LedgerProperties.RecordKeepsGood | stp-api/src/expenses/expenses.service.ts:58-75 | an expense typed by hand leaves every invoice as balanced as it was |
| LedgerEffects.RecordDoes | stp-api/src/expenses/expenses.service.ts:58-75 | an expense typed by hand is recorded as typed, under a new id and with the amount of its breakdown, exactly when its project exists |
| LedgerProperties.EveryRunIsGood | stp-api/src/fiscal-invoices/fiscal-invoices.service.ts:78-159 | every state of every run of all the operations is sound and balanced, links being to offered expenses and no update leaving expenses behind |
| LedgerProperties.ExpensesCostTheInvoice | stp-api/src/fiscal-invoices/fiscal-invoices.service.ts:78-159 | in such a state the expenses of an invoice cost exactly its total |
| LedgerLimits.RunsStaySound | stp-api/src/fiscal-invoices/fiscal-invoices.service.ts:395-406 | with updates of any kind, failed ones included, no run claims an expense twice or points at one that is gone, as long as links are to offered expenses |
| LedgerLimits.GoodExactlyWhenNeverCareless | stp-api/src/fiscal-invoices/fiscal-invoices.service.ts:78-159 | from an empty ledger a run keeps it sound and balanced throughout exactly when no accepted link takes the expense of a line and no update leaves expenses behind |
| OverlappingLinks.SingleClaimsExactlyWhenNeverTooLate | stp-api/src/fiscal-invoices/fiscal-invoices.service.ts:527-542 | with anything coming between the checks and the write of a link, no expense is ever claimed twice exactly when no link is written while another invoice, or a line, has its expense |
| OverlappingLinks.LinkIsItsSteps | stp-api/src/fiscal-invoices/fiscal-invoices.service.ts:527-542 | with nothing in between, the checks and the writes are the link of the ledger |
| OverlappingLinks.OverlappingLinksClaimTwice | stp-api/src/fiscal-invoices/fiscal-invoices.service.ts:533-538 | two links checked before either is written leave one expense with two invoices |
| LedgerLimits.OneLineAgainstAssign | stp-api/src/fiscal-invoices/fiscal-invoices.service.ts:117-159 | a split in one line and an assignment give the same ledger exactly when the expense is already at that destination |
| LedgerLimits.UpdateCanLeaveTheExpenseBehind | stp-api/src/fiscal-invoices/fiscal-invoices.service.ts:717-723 | an invoice of 2180 cents whose expense still says 1180 |
| LedgerLimits.LinkCanClaimALine | stp-api/src/fiscal-invoices/fiscal-invoices.service.ts:533-538 | a balanced ledger in which linking the expense of a line is accepted |
| LedgerLimits.SyncedLinkAmount | stp-api/src/fiscal-invoices/fiscal-invoices.service.ts:538-539 | a synced link sets the amount exactly when the expense has no breakdown or the breakdown gives that amount |
| LedgerLimits.SyncedLinkCanMissTheAmount | stp-api/src/fiscal-invoices/fiscal-invoices.service.ts:538-539 | a balanced ledger in which a synced link to an expense of one unit at 10.00 leaves it at 10.00 against an invoice of 11.80 |
| FiscalInvoicesService.Service.ApplySplits | stp-api/src/fiscal-invoices/fiscal-invoices.service.ts:782-877 | the loops over the reusable and discarded expenses give the tables and the outcome of the specification |
| FiscalInvoicesService.Service.SyncSplitExpenses | stp-api/src/fiscal-invoices/fiscal-invoices.service.ts:909-919 | the loop over the lines brings every line's expense up to date as specified |
| FiscalInvoicesService.Service.ApplyDestination | stp-api/src/fiscal-invoices/fiscal-invoices.service.ts:117-159 | the branches on the mode of the invoice give the specified tables and outcome |
| FiscalInvoicesService.Service.LinkExpense | stp-api/src/fiscal-invoices/fiscal-invoices.service.ts:527-542 | the rows written by a link are those specified, for any expense, and the ledger stays sound exactly when the link is refused or the expense is not that of a line |
| FiscalInvoicesService.Service.UnlinkExpense | stp-api/src/fiscal-invoices/fiscal-invoices.service.ts:545-551 | the row written by an unlink is that specified, in any tables, and sound ones stay sound |
| FiscalInvoicesService.Service.Create | stp-api/src/fiscal-invoices/fiscal-invoices.service.ts:78-114 | saving, placing and undoing give the specified tables and outcome, sound exactly when it is refused or links no expense of a line |
| FiscalInvoicesService.Service.Update | stp-api/src/fiscal-invoices/fiscal-invoices.service.ts:682-724 | the saved change and the destination give the specified tables and outcome |
| FiscalInvoicesService.Service.Remove | stp-api/src/fiscal-invoices/fiscal-invoices.service.ts:726-762 | the deletions are those specified |
| FiscalInvoicesService.Service.Assign | stp-api/src/fiscal-invoices/fiscal-invoices.service.ts:374-390 | the loop that carries on after a failure gives the specified tables, and reports exactly the ids whose turn failed, in order |
| FiscalInvoicesService.Service.ExpensesUpdate | stp-api/src/expenses/expenses.service.ts:179-212 | fields given are merged and the amount recomputed, or the update is rejected and nothing changes |
| ExpenseMatch.ScoreIsMonotone | stp-api/src/fiscal-invoices/expense-match.ts:89-144 | better evidence and a closer date never lower a score, drop a match or weaken its level |
| ExpenseMatch.AmountPointsTable | stp-api/src/fiscal-invoices/expense-match.ts:106-123 | what an amount is worth: to the cent, almost, as the base without tax, or near |
| ExpenseMatch.WhenSuggested | stp-api/src/fiscal-invoices/expense-match.ts:89-144 | an expense is suggested exactly when supplier, amount and date reach 45 points without resting on the date alone, and when the suggestion is strong |
| ExpenseMatch.TheBestAreKept | stp-api/src/fiscal-invoices/expense-match.ts:146-153 | at most five candidates are kept, all if there are no more, best first, and none left out scores more than any of those kept |
| ExpenseMatch.SortIsStable | stp-api/src/fiscal-invoices/expense-match.ts:151-179 | among equal scores the first met stays first |
| ExpenseMatch.PairsAreTheKept | stp-api/src/fiscal-invoices/expense-match.ts:172-177 | the candidate pairs are the invoices with the expenses kept for them |
| ExpenseMatch.BestIsAmongThePairs | stp-api/src/fiscal-invoices/expense-match.ts:146-177 | an invoice with any expense that scores has its best one among the candidate pairs |
| ExpenseMatch.ListedAreTheKept | stp-api/src/fiscal-invoices/expense-match.ts:172-177 | an invoice is listed exactly if an expense was kept for it, and with all those kept |
| ExpenseMatch.ProposalIsStable | stp-api/src/fiscal-invoices/expense-match.ts:169-186 | the proposal is one-to-one, cannot be extended, and no candidate pair would gain on both sides by leaving it |
| ExpenseMatch.NothingBetterIsLost | stp-api/src/fiscal-invoices/expense-match.ts:146-186 | for every expense that scores against an invoice, kept or not: the invoice is proposed one as good, or the expense goes where it suits as well, or the five kept all go where they suit at least as well |
| ExpenseMatch.ProposalIsHalfOptimal | stp-api/src/fiscal-invoices/expense-match.ts:169-186 | no other one-to-one choice of candidate pairs scores more than twice as much |
| ExpenseMatch.HalfIsTight | stp-api/src/fiscal-invoices/expense-match.ts:169-186 | that bound is reached by the proposal for two invoices and two expenses |
| ExpenseMatch.ComputeSuggestions | stp-api/src/fiscal-invoices/expense-match.ts:169-201 | the loops over maps and the set of taken expenses give the specified suggestions |
| ExpenseMatch.SuggestionsShowTheProposal | stp-api/src/fiscal-invoices/expense-match.ts:188-200 | the suggestions are the proposal, each pair once, best first |
| ExpenseMatch.FlaggedHasACloseRival | stp-api/src/fiscal-invoices/expense-match.ts:190-196 | a suggestion flagged as doubtful has a rival of its level within ten points |
| ExpenseMatch.FlagsShownTell | stp-api/src/fiscal-invoices/expense-match.ts:188-201 | the flag of every suggestion shown tells exactly whether it has a close rival when its first rival is of the same level or there is none, and is down otherwise |
| ExpenseMatch.FlagCanMissACloseRival | stp-api/src/fiscal-invoices/expense-match.ts:191-198 | an invoice and three expenses whose only suggestion has a close rival and no flag |
| ExpenseMatch.RivalsAreAllTheOthers | stp-api/src/fiscal-invoices/expense-match.ts:190-201 | the rivals of a suggestion are the other expenses kept, as many times as they are listed |
| UniqueCodes.RetryOnUniqueViolation | stp-api/src/common/save-with-unique-code.ts:23-43 | every attempt before the last was a unique violation, there are at most as many as allowed, five if not said and at least one, and the answer is what the last one did |
| UniqueCodes.EveryRunKeepsCodesDistinct | stp-api/src/common/save-with-unique-code.ts:13-51 | in any interleaving of reads and inserts saved codes differ, and each failure is due to a commit of somebody else made between its reading and its failing, attempts following one another |
| UniqueCodes.FailuresAreFewerThanCreators | stp-api/src/common/save-with-unique-code.ts:29-42 | nobody fails more often than there are other creators |
| UniqueCodes.NoCodeIsSkipped | stp-api/src/common/save-with-unique-code.ts:13-51 | in any interleaving the codes saved follow the greatest that was there one by one, in the order of the commits |
| UniqueCodes.TurnDoes | stp-api/src/common/save-with-unique-code.ts:23-43 | a creator reads a code nobody has, saves it if it still is free, counts a failure if not, and gives up with its last attempt; nobody else is touched |
| UniqueCodes.AttemptsAreExactlyEnough | stp-api/src/common/save-with-unique-code.ts:23-43 | some run leaves a creator without a code exactly when there are more creators than attempts |
| CorrelativeCodes.ParseUndoesPadding | stp-api/src/fichas/fichas.service.ts:179-183 | a padded code parses back to its number, whatever the width |
| CorrelativeCodes.BodyWidth | stp-api/src/costs/acus.service.ts:433-440 | a code has exactly the width while its number fits, and past it the digits alone |
| CorrelativeCodes.NoZeroInFront | stp-api/src/costs/acus.service.ts:433-440 | the digits of a number have no zero in front |
| CorrelativeCodes.TextOrderIsNumberOrder | stp-api/src/costs/acus.service.ts:434-438 | while numbers fit the width, codes compare as text as their numbers do |
| CorrelativeCodes.TextNextIsFresh | stp-api/src/fichas/fichas.service.ts:169-184 | while every number fits, the greatest text gives a code past every number, which nobody has |
| CorrelativeCodes.NumericNextIsFresh | stp-api/src/costs/materials.service.ts:333-340 | the greatest number gives a fresh code, one more than a number there is, with no bound on the numbers |
| CorrelativeCodes.OthersCountForNothing | stp-api/src/costs/materials.service.ts:332-340 | whatever texts are in the table, the next number is one more than the greatest of those that have one |
| CorrelativeCodes.TextNextWorksUntilTheWidthIsFull | stp-api/src/costs/acus.service.ts:433-440 | creating row after row, the code generated is fresh exactly while fewer than ten to the width exist, and the same taken code for ever after |
| SessionRefresh.OnePromisePerWindow | stp-landing/lib/session-refresh.ts:47-83 | in any run whoever arrives after a holder of a promise while it is pending or within five seconds of settling is given that promise |
| SessionRefresh.OneCallPerWindow | stp-landing/lib/session-refresh.ts:47-83 | two API calls with one token are a whole tail apart |
| SessionRefresh.TimersDeleteTheirOwnEntry | stp-landing/lib/session-refresh.ts:79-81 | a timer that deletes by token finds its own promise there, and no other entry goes |
| SessionRefresh.TokensAreConsumedOnce | stp-api/src/auth/auth.service.ts:161-185 | in a run where no promise gives up on a request the API has in hand, no token is rotated twice |
| SessionRefresh.OneEarlyTimeout | stp-landing/lib/session-refresh.ts:50-80 | from any state of such a run, giving a promise up lets its token be rotated twice exactly when the API has its request in hand, looked up or not, and the token would be accepted for another tail |
| SessionRefresh.RotatedIsNeverInvalid | stp-landing/lib/session-refresh.ts:47-83 | in any run the promise that rotated a token never says that the token is invalid |
| SessionRefresh.OnlyTheRotatingPromiseRenews | stp-landing/lib/session-refresh.ts:47-83 | of the callers of a rotated token only those of the promise that rotated it are told it was renewed, as long as no promise gives up early |
| SessionRefresh.NoSpuriousLogout | stp-landing/lib/session-refresh.ts:29-83 | nobody who arrives within the window of a rotated token is told that it is invalid |
| SessionRefresh.TimeoutCanConsumeTwice | stp-api/src/auth/auth.service.ts:161-185 | a run in which a timeout between reading and saving lets one token be rotated twice |
| SessionRefresh.WhatUnavailableMeans | stp-landing/lib/session-refresh.ts:18-27 | in any run a promise that said `unavailable` had rotated its token exactly when the API had got as far as an answer other than a refusal; that is final once the API is done with the request, as it always is when no promise gives up early, and otherwise the token can yet be rotated exactly when its row was found already or can still be used |
| SessionRefresh.UnavailableCanMeanConsumed | stp-landing/lib/session-refresh.ts:18-27 | the token is rotated and the promise says `unavailable` when the reply is lost, and when the promise gives up early |
| SessionEffects.CallersAfter | stp-landing/lib/session-refresh.ts:47-50 | a caller gets the promise in flight for the token, or a new one |
| SessionEffects.RequestsAfter | stp-landing/lib/session-refresh.ts:47-76 | a request is sent exactly for who finds no promise in flight |
| SessionEffects.InFlightAfter | stp-landing/lib/session-refresh.ts:76-81 | a promise is in flight from who first asks until five seconds after it settled and its timer fired |
| SessionEffects.SettledAfter | stp-landing/lib/session-refresh.ts:50-74 | a pending promise settles once: renewed with the token accepted, invalid on a refusal, unavailable on an error of server or network; nothing else settles it |
| SessionEffects.SettledExactlyWhen | stp-landing/lib/session-refresh.ts:50-74 | in any run a promise says invalid exactly when a refusal was delivered to it, renewed with a token exactly when that token was, and unavailable exactly when server or network failed |
| SessionEffects.RenewedForTheSameUser | stp-api/src/auth/auth.service.ts:161-185 | in any run a promise that says renewed hands out a newer token of the same user, the one presented is revoked, and no two promises hand out the same |
| SessionEffects.RenewedExactlyWhenUsable | stp-landing/lib/session-refresh.ts:47-83 | from any state, with nothing in flight, who presents a token that can be used is given a new one good for thirty days, and who presents any other is told that it is invalid |
| SessionEffects.StageAfter | stp-api/src/auth/auth.service.ts:161-185 | a known token neither revoked nor expired, of a user not disabled, is found and any other refused; one found is answered with the next token or an error |
| SessionEffects.RowAfter | stp-api/src/auth/auth.service.ts:161-185 | a token is revoked exactly when it is rotated, logged out or found expired, and for good |
| SessionEffects.TokensIssued | stp-api/src/auth/auth.service.ts:246-258 | a token is issued exactly to who logs in or to the owner of the one rotated, for thirty days |
| SessionEffects.RestAfter | stp-api/src/auth/auth.service.ts:161-185 | rotations are logged, users disabled and time passes only by the step that says so |
| SessionEffects.LoggedOutIsRefused | stp-api/src/auth/auth.service.ts:224-227 | in any run a token logged out is refused afterwards, and never rotated again but by a request whose row had been read before |
| SessionRefresh.Sessions.RefreshSession | stp-landing/lib/session-refresh.ts:47-83 | the promise in flight or a new call, as the step specifies |
| SessionRefresh.Sessions.TimerFires | stp-landing/lib/session-refresh.ts:79-81 | deletes the entry of the token, as the step specifies |
| SessionRefresh.Sessions.FindToken | stp-api/src/auth/auth.service.ts:161-178 | refuses unknown, revoked, expired and disabled, revoking the expired, as the step specifies |
| SessionRefresh.Sessions.RotateToken | stp-api/src/auth/auth.service.ts:180-185 | revokes the row and issues the next token, as the step specifies |
| SessionRefresh.Sessions.IssueRefreshToken | stp-api/src/auth/auth.service.ts:246-258 | adds one live row for the user, valid for thirty days |
| SessionRefresh.Sessions.LogOut | stp-api/src/auth/auth.service.ts:224-227 | revokes the row if there is one |
| WhatsappFlow.OnePhotoPerSender | stp-api/src/fiscal-invoices/whatsapp-invoice-flow.service.ts:160-181 | in any interleaving two photos of one sender are never being read at once |
| WhatsappFlow.NoSessionIsOverwritten | stp-api/src/fiscal-invoices/whatsapp-invoice-flow.service.ts:160-284 | a pending session is never replaced by another: a photo opens one only where there is none |
| WhatsappFlow.OneInvoicePerSession | stp-api/src/fiscal-invoices/whatsapp-invoice-flow.service.ts:443-525 | two invoices never come from one session, however often its button is pressed |
| WhatsappFlow.InvoicesWereConfirmed | stp-api/src/fiscal-invoices/whatsapp-invoice-flow.service.ts:415-525 | every invoice was confirmed by the person who sent the photo, with the last destination picked in that session before confirming |
| WhatsappFlow.ScanWithRetry | stp-api/src/fiscal-invoices/whatsapp-invoice-flow.service.ts:203-234 | only passing failures are tried again, four tries at most, one warning, and the photo is kept exactly when all four were passing failures |
| WhatsappFlow.PagesShowEveryProjectOnce | stp-api/src/fiscal-invoices/whatsapp-invoice-flow.service.ts:357-367 | following the pages shows every project once and in order, in lists of at most ten rows and at least one project |
| WhatsappEffects.SessionClosesExactlyWhen | stp-api/src/fiscal-invoices/whatsapp-invoice-flow.service.ts:376-487 | a pending invoice is dropped exactly when its sender cancels, when its owner saves it with a destination, or when anybody writes once its time has passed |
| WhatsappEffects.SessionOpensExactlyWhen | stp-api/src/fiscal-invoices/whatsapp-invoice-flow.service.ts:247-287 | a session is opened exactly when a photo of its sender was read as a whole invoice not registered before |
| WhatsappEffects.SessionsThereHaveBeen | stp-api/src/fiscal-invoices/whatsapp-invoice-flow.service.ts:284 | the session opened has who sent the photo, what was read, no destination and twenty minutes |
| WhatsappEffects.SessionKeepsItsPhoto | stp-api/src/fiscal-invoices/whatsapp-invoice-flow.service.ts:376-472 | a session keeps its sender and what was read |
| WhatsappEffects.DestinationAfter | stp-api/src/fiscal-invoices/whatsapp-invoice-flow.service.ts:376-472 | its destination is the last one found for it, or none since its owner went back or searched |
| WhatsappEffects.ExpiryAfter | stp-api/src/fiscal-invoices/whatsapp-invoice-flow.service.ts:415-427 | every button its owner presses gives it twenty minutes more, and nothing else does |
| WhatsappEffects.ReadingExactlyWhen | stp-api/src/fiscal-invoices/whatsapp-invoice-flow.service.ts:160-181 | a photo is read from when it, or the word to try again, comes in at a free moment until the replies are sent |
| WhatsappEffects.PhotoKept | stp-api/src/fiscal-invoices/whatsapp-invoice-flow.service.ts:203-234 | a photo is kept six hours when the service stayed saturated, until another of its sender is read without a code |
| WhatsappEffects.WaitsAfter | stp-api/src/fiscal-invoices/whatsapp-invoice-flow.service.ts:160-525 | what waits, waits on until it is answered |
| WhatsappEffects.WaitsBegin | stp-api/src/fiscal-invoices/whatsapp-invoice-flow.service.ts:160-487 | a wait begins exactly for a photo to read, a destination to look up and an invoice to create |
| WhatsappEffects.ConfirmedAfter | stp-api/src/fiscal-invoices/whatsapp-invoice-flow.service.ts:480-487 | only an owner who saves confirms, and confirms the destination the session has then |
| WhatsappEffects.PickedAfter | stp-api/src/fiscal-invoices/whatsapp-invoice-flow.service.ts:447-472 | a pick is made when the destination chosen is found, in the session it was chosen for |
| WhatsappEffects.RegisteredAfter | stp-api/src/fiscal-invoices/whatsapp-invoice-flow.service.ts:487-525 | an invoice is registered exactly when it could be created |
| WhatsappEffects.CancelledIsNeverRegistered | stp-api/src/fiscal-invoices/whatsapp-invoice-flow.service.ts:376-423 | in any run what was pending when its sender cancels, or when its time passed, leaves the map at once and is never confirmed nor registered; nobody else's live session is touched |
| WhatsappEffects.PhotoOpensASession | stp-api/src/fiscal-invoices/whatsapp-invoice-flow.service.ts:160-287 | from any state the photo of somebody with nothing pending, read as a whole and new invoice, is pending for its sender |
| WhatsappEffects.SavedBecomesInvoice | stp-api/src/fiscal-invoices/whatsapp-invoice-flow.service.ts:415-525 | from any state a pending invoice whose owner chooses a destination and saves is registered: of that photo, by that person, to that destination |
| WhatsappFlow.InvoiceFlow.ReceiveFile | stp-api/src/fiscal-invoices/whatsapp-invoice-flow.service.ts:160-181 | takes the sender's place and starts reading, or does nothing, as the step specifies |
| WhatsappFlow.InvoiceFlow.ReceiveText | stp-api/src/fiscal-invoices/whatsapp-invoice-flow.service.ts:376-413 | the words that cancel and those that retry, and any other text of 2 to 60 characters, which clears the destination, as the step specifies |
| WhatsappFlow.InvoiceFlow.ReceiveChoice | stp-api/src/fiscal-invoices/whatsapp-invoice-flow.service.ts:415-465 | the branches on the button pressed, as the step specifies |
| WhatsappFlow.InvoiceFlow.SaveSession | stp-api/src/fiscal-invoices/whatsapp-invoice-flow.service.ts:480-487 | the session leaves the map before anything is created, as specified |
| WhatsappFlow.InvoiceFlow.FinishReading | stp-api/src/fiscal-invoices/whatsapp-invoice-flow.service.ts:254-287 | opens a session for a complete invoice that is not registered yet, as the step specifies |
| WhatsappFlow.InvoiceFlow.FinishLookup | stp-api/src/fiscal-invoices/whatsapp-invoice-flow.service.ts:447-472 | writes the destination on the session the handler was holding, as the step specifies |
| Rounding.TicksMonotone | stp-api/src/costs/acu-cost.ts:90 | rounding to four decimals keeps order |
| Rounding.RoundingError | stp-api/src/costs/acu-cost.ts:90 | rounding to four decimals moves a number by half a ten-thousandth at most |
| Rounding.TicksOfAmount | stp-api/src/costs/acu-cost.ts:83-90 | an amount of whole ten-thousandths is left as it is, so rounding a sum of rounded lines changes nothing |
| Rounding.TicksIsNearest | stp-api/src/costs/acu-cost.ts:90 | rounding gives the nearest ten-thousandth, and the higher one half way |
| PriceSelection.NetRecoversThePrice | stp-api/src/costs/price-selection.ts:38-64 | putting the tax back on a net price gives the discounted price in DOP, up to half a ten-thousandth before tax |
| PriceSelection.NetPriceInFull | stp-api/src/costs/price-selection.ts:38-64 | which prices and terms are accepted, and that the comparable price with its tax put back is the price in DOP less its discount, to half a ten-thousandth before tax |
| PriceSelection.PickIsNewest | stp-api/src/costs/price-selection.ts:94-98 | the price in force is live and none live is more recent; there is one unless all are void |
| PriceSelection.InForceExactlyWhen | stp-api/src/costs/price-selection.ts:81-98 | a row is the price in force exactly when it is live and the first of the newest, by day and then by capture |
| PriceSelection.PickIgnoresOrder | stp-api/src/costs/price-selection.ts:81-98 | with distinct stamps it depends on the rows, not on their order |
| PriceSelection.Buckets | stp-api/src/costs/materials.service.ts:270-275 | the loop groups the rows by material, in order |
| PriceSelection.CappedSummaryIsRight | stp-api/src/costs/materials.service.ts:256-280 | from the capped read the price in force is right exactly when a row of the material was kept or it has none, the previous one when two were kept or it has at most one, the count when all were kept |
| PriceSelection.PreviousIsNextInForce | stp-api/src/costs/materials.service.ts:256-280 | the previous price is the one that would be in force without the one that is |
| PriceSelection.CappedSummaryAgreesWithHistory | stp-api/src/costs/materials.service.ts:256-280 | with a row kept and distinct stamps it is the price in force of the full history |
| PriceSelection.CapCanHideAMaterial | stp-api/src/costs/materials.service.ts:263-268 | past the cap a material with a price is shown with none |
| SupplierComparison.CappedExtremes | stp-api/src/costs/price-selection.ts:128-169 | from the capped read the lowest and highest are never beyond the real ones, and right exactly when nothing cut off goes beyond them; the average is right exactly when nothing was cut off or what was has the same average |
| SupplierComparison.AverageIsBetween | stp-api/src/costs/price-selection.ts:128-169 | the average lies between the extremes, and of one row is its comparable price |
| SupplierComparison.ComputeBySupplier | stp-api/src/costs/price-selection.ts:101-114 | the buckets, the picks and the sort give the specified list |
| SupplierComparison.BySupplierIsRight | stp-api/src/costs/price-selection.ts:100-114 | every supplier with a live price is listed once, with its price in force, cheapest first |
| SupplierComparison.SortIsStable | stp-api/src/costs/price-selection.ts:111-114 | of suppliers that cost the same the first met stays first |
| AcuCost.ComputeAcuCost | stp-api/src/costs/acu-cost.ts:103-182 | the two loops give the cost of the specification: lines, totals, missing materials |
| AcuCost.OneLinePerItem | stp-api/src/costs/acu-cost.ts:108-168 | every recipe item has exactly one line |
| AcuCost.EachItemHasItsLine | stp-api/src/costs/acu-cost.ts:103-186 | the lines are those of the items, each once and no other: labour and equipment given as a percentage are that part of the cost of materials and come last, every other item is worth its quantity times its cost, and both groups keep the order of the recipe |
| AcuCost.LinesAddUp | stp-api/src/costs/acu-cost.ts:151-182 | the lines add up to the direct cost to the last ten-thousandth, and those of each kind to the cost of that kind |
| AcuCost.LineIsWorthItsRecipe | stp-api/src/costs/acu-cost.ts:109-149 | a line is worth its quantity with the waste added, times the unit cost, up to half a ten-thousandth of each |
| AcuCost.WhereTheCostComesFrom | stp-api/src/costs/acu-cost.ts:119-138 | the cost written in the recipe wins over the catalogue, and a line is missing its price, and worth nothing, exactly when neither has one |
| AcuCost.PctLineIsAPart | stp-api/src/costs/acu-cost.ts:153-168 | a percentage line is worth that part of the cost of materials, to half a ten-thousandth |
| AcuCost.IncompleteMeansMissing | stp-api/src/costs/acu-cost.ts:128-133 | a cost is incomplete exactly when some material has neither price nor cost of its own, and those are the materials listed |
| AcuCost.CostIsAFloor | stp-api/src/costs/acu-cost.ts:72-78 | adding missing prices or raising prices never lowers any part of the cost nor makes it incomplete |
| AcuCost.CompleteCostIsFinal | stp-api/src/costs/acu-cost.ts:72-78 | a complete cost is not changed by any price added to the catalogue |
| AcuCost.OrderIsIrrelevant | stp-api/src/costs/acu-cost.ts:103-182 | reordering the recipe changes no total and no missing material |
| AcuBatch.ConversionKeepsTheMagnitude | stp-api/src/costs/acu-cost.ts:201-217 | counted in base units, the converted quantity is the one given, up to half a ten-thousandth of the unit converted to |
| AcuBatch.ConvertsExactlyWhen | stp-api/src/costs/acu-cost.ts:201-217 | two units convert exactly when they are one or share their base one step up with usable factors, and what the quantity becomes |
| AcuBatch.ConvertThereAndBack | stp-api/src/costs/acu-cost.ts:201-217 | converting a quantity and back loses half a ten-thousandth a leg at most |
| AcuBatch.ShareOut | stp-api/src/costs/acus.service.ts:243-246 | one pass shares the inputs out by recipe |
| AcuBatch.ComputeCurrentPrices | stp-api/src/costs/acus.service.ts:263-282 | the loops give the price in force of every material read |
| AcuBatch.ShareNext | stp-api/src/costs/acus.service.ts:243-246 | the rows of a recipe are shared out in order, and no other |
| AcuBatch.InputCarriesTheLine | stp-api/src/costs/acus.service.ts:312-341 | a line is valued with all it says; only the quantity of a material in another unit may be another |
| AcuBatch.InputsAreTheLines | stp-api/src/costs/acus.service.ts:312-341 | each line of the recipe is valued once, in order |
| AcuBatch.PriceInForceIsUsed | stp-api/src/costs/acus.service.ts:263-282 | a material is valued at the comparable price of its row in force, exactly if one of its rows is live |
| AcuBatch.CostsOfMany | stp-api/src/costs/acus.service.ts:225-252 | exactly the ids asked for that are recipes, each valued with its own lines |
| AcuBatch.BatchAgreesWithSingle | stp-api/src/costs/acus.service.ts:211-282 | for every recipe the batch gives the totals and missing materials it has alone, in whatever order the database returns rows, as long as no two prices of one material share date and time of capture |
| AcuBatch.InputIsInTheBuyingUnit | stp-api/src/costs/acus.service.ts:312-341 | what is priced is the same magnitude in the unit the material is bought in, or the quantity as written when the units do not convert |
| AcuBatch.FailedConversionIsStillPriced | stp-api/src/costs/acus.service.ts:284-341 | for every line that cannot be converted, the catalogue price multiplies the quantity as written exactly when the line is a material with no cost of its own and the material is priced |
| AcuBatch.RebasingCanUnconvert | stp-api/src/costs/acus.service.ts:393-410 | a line just saved converts, and once its unit is given another base it no longer does exactly when that is not the base of the unit the material is bought in |
| AcuBatch.FailedConversionIsReached | stp-api/src/costs/acus.service.ts:312-341 | two quintals accepted at 600.00 are valued at 6.00 once the quintal is rebased |
| AcuBatch.OnlyOneBaseUp | stp-api/src/costs/acu-cost.ts:201-217 | a unit with usable factors converts to its base exactly when that base has no other base |
| AcuBatch.ChainsDoNotConvert | stp-api/src/costs/acu-cost.ts:201-217 | a box of ten packs does not convert to packs of six units |
| MaterialPrices.DerivedNetIsWithoutTax | stp-api/src/costs/material-prices.service.ts:239-258 | the comparable price of a derived row, with the tax put back if it was in, is the unit price of the expense |
| MaterialPrices.RunsKeepHistory | stp-api/src/costs/material-prices.service.ts:53-291 | over any run, with other operations between the reading, the mark and the insert of a sync, no row disappears or changes but in its void mark, no mark is taken back, and no expense has two live prices |
| MaterialPrices.MarksAreFinal | stp-api/src/costs/material-prices.service.ts:178-291 | every operation that is not a late mark leaves each void row exactly as it was |
| MaterialPrices.SyncLeavesAMatch | stp-api/src/costs/material-prices.service.ts:198-270 | after a sync there is no live price if the expense yields none; if it does there is one, which matches it exactly when it matched already or the unit price fits in four decimals |
| MaterialPrices.SyncAgainChangesNothing | stp-api/src/costs/expense-price.ts:57-88 | repeating a sync changes nothing exactly in those cases |
| MaterialPrices.SyncTouchesOnlyItsExpense | stp-api/src/costs/material-prices.service.ts:198-270 | a sync leaves the prices of every other expense alone |
| MaterialPrices.DeleteVoidsItsPrices | stp-api/src/costs/material-prices.service.ts:273-280 | deleting an expense voids its prices, no others, and loses none |
| PriceEffects.AfterASync | stp-api/src/costs/material-prices.service.ts:198-270 | after a sync every live price of the expense is of the material, supplier, day and tax flag it tells, at its unit price to half a ten-thousandth, and there is one exactly when it tells a price |
| PriceEffects.RowsAfterSync | stp-api/src/costs/material-prices.service.ts:198-270 | a row is added exactly when the expense tells a price no live row says, and the live row is marked, with when, who and why, exactly when it does not say what the expense tells |
| PriceEffects.AddedBySync | stp-api/src/costs/material-prices.service.ts:239-258 | the columns of the row that a sync adds |
| PriceEffects.AfterADeletion | stp-api/src/costs/material-prices.service.ts:273-280 | deleting an expense marks its live prices, with when, who and why, and touches no other |
| PriceEffects.CreatedInFull | stp-api/src/costs/material-prices.service.ts:65-109 | the columns of a price typed by hand |
| PriceEffects.WhyAPriceIsRefused | stp-api/src/costs/material-prices.service.ts:53-96 | which error is given to which price, and which prices are taken |
| PriceEffects.VoidedInFull | stp-api/src/costs/material-prices.service.ts:178-188 | a live price that is voided says when, by whom and why; nothing else changes |
| MaterialPrices.ReceivableSyncSettles | stp-api/src/expenses/dto/create-expense.dto.ts:47-50 | for every expense a request can carry, a sync leaves the ledger saying what the expense says and the next one changes nothing |
| MaterialPrices.SecondWriteIsDropped | stp-api/src/costs/material-prices.service.ts:198-270 | of two syncs that read before either wrote, the second is dropped if the first put its price in, puts its own over a price the first took away unless it read that price as right, and is as good as alone otherwise |
| MaterialPrices.SecondIsUpToDateExactlyWhen | stp-api/src/costs/material-prices.service.ts:198-270 | the cases in which such a pair leaves the ledger saying what the second one says, exactly |
| MaterialPrices.TheOlderPriceCanStay | stp-api/src/costs/material-prices.service.ts:260-269 | an expense saved at 1.00 and again at 2.00 whose syncs overlap leaves the ledger at 1.00 |
| MaterialPrices.Service.CreatePrice | stp-api/src/costs/material-prices.service.ts:65-109 | appends the price or answers the error of the first check that fails |
| MaterialPrices.Service.VoidPrice | stp-api/src/costs/material-prices.service.ts:178-188 | marks the row once, or answers why not |
| MaterialPrices.Service.SyncFromExpense | stp-api/src/costs/material-prices.service.ts:198-270 | voids and inserts as specified, keeping the history |
| MaterialPrices.Service.VoidByExpense | stp-api/src/costs/material-prices.service.ts:273-280 | the loop marks the live rows of the expense as specified |
| PriceImports.LinesAndPricesCorrespond | stp-api/src/costs/price-imports.service.ts:359-388 | in any run approved lines and the prices made from them are one to one, and each price has the material, price, tax flag and comparable net price of its line and the supplier of its import |
| PriceImports.ApprovedLinesNeverChange | stp-api/src/costs/price-imports.service.ts:301-330 | once approved a line is as it was at the end of any run, or gone with its import |
| PriceImports.CountsAddUp | stp-api/src/costs/price-imports.service.ts:336-397 | the created counts of a run add up to its approved lines |
| PriceImports.DoneRightAfterApprove | stp-api/src/costs/price-imports.service.ts:457-466 | right after an approval a batch is done exactly when it has no pending line |
| ImportEffects.ApproveDoes | stp-api/src/costs/price-imports.service.ts:336-397 | an approval turns into prices exactly the lines asked for that can be priced, each into a row with the columns of its line, for the day given or that of the document; other lines stay and the batch is done exactly when nothing is pending |
| ImportEffects.SkipsSay | stp-api/src/costs/price-imports.service.ts:350-392 | the lines not turned into prices are answered, each with its reason |
| ImportEffects.UnknownSay | stp-api/src/costs/price-imports.service.ts:348-354 | the ids that are not lines of the batch are answered so |
| ImportEffects.UpdateDoes | stp-api/src/costs/price-imports.service.ts:301-330 | a correction taken leaves in the line exactly the price, terms, material and status that came, a null material included, and the rest as it was; no other line changes |
| ImportEffects.RematchDoes | stp-api/src/costs/price-imports.service.ts:258-277 | a material is given exactly to pending lines of the batch with none and one safe match; one set by hand stays |
| ImportEffects.MakeMaterialDoes | stp-api/src/costs/price-imports.service.ts:218-229 | a pending line takes the material made for it, which the catalogue has from then on |
| ImportEffects.EndDoes | stp-api/src/costs/price-imports.service.ts:123-159 | what was read becomes pending lines, in order, with its price, terms and safe match; the batch is to be reviewed with the date of the document, or failed |
| ImportEffects.QueueDoes | stp-api/src/costs/price-imports.service.ts:284-298 | a batch is taken from the queue only, and goes back exactly when it failed or nothing was read of it |
| ImportEffects.WhatIsAnswered | stp-api/src/costs/price-imports.service.ts:284-345 | which error is given to a retry, a correction and an approval |
| ImportEffects.UploadDoes | stp-api/src/costs/price-imports.service.ts:92-113 | a batch uploaded waits in the queue, of its supplier and without a date |
| ImportEffects.RemoveDoes | stp-api/src/costs/price-imports.service.ts:400-411 | a deleted batch goes with its lines, and its prices stay |
| PriceImports.UpdateKeepsTheStatus | stp-api/src/costs/price-imports.service.ts:301-330 | after an update a batch is done exactly when nothing is pending, as before it, unless the update discards the last pending line of a batch or reopens a line of one that is done |
| PriceImports.StatusCanBeOutrun | stp-api/src/costs/price-imports.service.ts:301-330 | runs that end in a batch under review with nothing pending, and in a done one with a pending line |
| PriceImports.ApprovalIgnoresDiscards | stp-api/src/costs/price-imports.service.ts:336-397 | a line asked for and not approved yet is approved exactly when it has a material and the ledger takes its price, discarded or not; otherwise it stays as it was |
| PriceImports.DiscardedLineIsApproved | stp-api/src/costs/price-imports.service.ts:336-397 | a run that approves a line discarded by hand |
| PriceImports.RetryAddsToWhatWasThere | stp-api/src/costs/price-imports.service.ts:284-298 | a batch read again ends with the lines of one reading exactly when the failed one had saved none |
| PriceImports.RetryCanDouble | stp-api/src/costs/price-imports.service.ts:123-159 | a run that reads a batch again and stores its line twice |
| OverlappingImports.EveryReadingAddsItsLines | stp-api/src/costs/price-imports.service.ts:123-159 | every worker that found the batch queued adds the lines of its own reading, whatever another one has done |
| OverlappingImports.TwoWorkersReadTwice | stp-api/src/costs/price-imports.service.ts:123-159 | two workers that both found a batch queued store its line twice |
| OverlappingImports.OneToOneExactlyWhenNeverStale | stp-api/src/costs/price-imports.service.ts:301-397 | however requests overlap, prices and lines end one to one exactly when no line was saved after somebody approved or deleted it since it was loaded |
| OverlappingImports.ApprovedStayWhenNeverStale | stp-api/src/costs/price-imports.service.ts:301-397 | in such runs an approved line is as it was at the end, or gone with its import |
| OverlappingImports.ApproveIsItsSteps | stp-api/src/costs/price-imports.service.ts:336-397 | the loads, the saves and the refresh of an approval, with nothing in between, are the approval of `PriceImports` |
| OverlappingImports.UpdateIsItsSteps | stp-api/src/costs/price-imports.service.ts:301-330 | the load and the save of a correction, with nothing in between, are the correction of `PriceImports` |
| OverlappingImports.ReadingIsItsSteps | stp-api/src/costs/price-imports.service.ts:123-159 | the finding, the mark and the end of a reading are the reading of `PriceImports` |
| OverlappingImports.TwoApprovalsTwoPrices | stp-api/src/costs/price-imports.service.ts:348-388 | a run in which two approvals that loaded a line before either saved it make two prices of it |
| OverlappingImports.LateEditTakesTheApprovalBack | stp-api/src/costs/price-imports.service.ts:301-330 | a run in which a correction loaded before an approval is saved after it, and the line is pending again with its price in the ledger |
| PriceImports.Service.ApproveLines | stp-api/src/costs/price-imports.service.ts:336-397 | prices, lines, count and status as specified; the lines that are not of the import and those skipped, in order, each with its reason |
| PriceImports.Service.UpdateLine | stp-api/src/costs/price-imports.service.ts:301-330 | patches the line or answers the first check that fails |
| PriceImports.Service.CreateMaterialForLine | stp-api/src/costs/price-imports.service.ts:218-229 | assigns the new material to a pending line only, and answers which of the three checks failed otherwise |
| PriceImports.Service.RematchLines | stp-api/src/costs/price-imports.service.ts:258-277 | the loop gives safe matches to the pending lines without material and to no other |
| PriceImports.Service.PrepareRetry | stp-api/src/costs/price-imports.service.ts:284-298 | only a batch that failed, or is under review without lines, is queued again |
| PriceImports.Service.FinishProcess | stp-api/src/costs/price-imports.service.ts:132-159 | the lines read are saved and the status follows, as specified |
| QuoteTree.FillChildrenOf | stp-landing/lib/quote-tree.ts:239-247 | the loop groups the rows by parent, orphans under the root |
| QuoteTree.ItemsToTree | stp-landing/lib/quote-tree.ts:237-259 | builds the specified tree and terminates on any links |
| QuoteTree.ChildrenMembers | stp-landing/lib/quote-tree.ts:249-252 | the children of a row are the rows that name it, each once, by sort order |
| QuoteTree.ChildrenByParent | stp-landing/lib/quote-tree.ts:239-252 | the children of a row are the rows that name it, and those of the root the rows whose parent is absent |
| QuoteTree.ChildrenBySortOrder | stp-landing/lib/quote-tree.ts:249-252 | they come by ascending sort order, none counting as zero, and those of one order as in the list |
| QuoteTree.ChildrenComeInOrder | stp-landing/lib/quote-tree.ts:249-256 | under each row come its children in sort order, numbered from one after its own number and one level deeper, each with its own under it |
| QuoteTree.ChainFits | stp-landing/lib/quote-tree.ts:249-258 | going down always ends: no chain of parents is longer than the list |
| QuoteTree.TreeListsTheRooted | stp-landing/lib/quote-tree.ts:237-263 | whatever the links, the tree lists exactly the rows whose chain of parents ends, each once, and read from the top its numbers come in order, so all differ |
| QuoteTree.TreeIsAPermutation | stp-landing/lib/quote-tree.ts:232-263 | no row is lost or repeated exactly when the links have no cycle |
| QuoteTree.LabelsAreDistinct | stp-landing/lib/quote-tree.ts:115-117 | no two lines carry the same label as text |
| QuoteTree.RenderedIsInjective | stp-landing/lib/quote-tree.ts:115-117 | different numbers are written differently |
| QuoteTree.RenderedReads | stp-landing/lib/quote-tree.ts:114-117 | numbers are written with a point between their parts |
| QuoteEditor.SubtotalIsTheLeaves | stp-landing/lib/quote-tree.ts:102-112 | the subtotal is the sum of the leaves |
| QuoteEditor.RemoveUndoesAdd | stp-landing/lib/quote-tree.ts:134-151 | removing what was just added gives the tree back, its parent now a group |
| QuoteEditor.AddedAtTheEnd | stp-landing/lib/quote-tree.ts:134-145 | the child comes after those its parent had, which turns into a group, or at the end of the tree; every other node stays |
| QuoteEditor.RemovedIsGone | stp-landing/lib/quote-tree.ts:147-151 | nothing of what was removed is left, wherever it was |
| QuoteEditor.AddingShiftsTheSubtotal | stp-landing/lib/quote-tree.ts:102-145 | a child adds its total and a line that gets one gives up its own amount |
| ParentLinks.CategoryWalk | stp-api/src/costs/material-categories.service.ts:82-97 | terminates on any links and accepts exactly when the way up ends and does not come by the category |
| ParentLinks.UnitWalk | stp-api/src/costs/units.service.ts:77-91 | terminates on any links and accepts exactly when the way up does not come by the unit |
| ParentLinks.LinkKeepsAcyclic | stp-api/src/costs/material-categories.service.ts:38-51 | from acyclic links a new link keeps them acyclic exactly when its parent does not lead back |
| ParentLinks.AcyclicEnds | stp-api/src/costs/units.service.ts:77-91 | in acyclic links every way up ends, so both walks agree |
| ParentLinks.Categories.Update | stp-api/src/costs/material-categories.service.ts:38-51 | every answer is pinned: the cycle error is given exactly to a category that would get a parent leading back to it, and links stay acyclic |
| ParentLinks.Categories.Remove | stp-api/src/costs/material-categories.service.ts:53-69 | only a category without children or materials goes, and links stay acyclic |
| ParentLinks.Units.Update | stp-api/src/costs/units.service.ts:37-51 | every answer is pinned, in the order of the checks: the cycle error is given exactly to an update that is coherent, names a base that exists and would close a cycle; bases stay acyclic |
| ParentLinks.WhyAUnitIsRefused | stp-api/src/costs/units.service.ts:37-91 | which refusal is given to a base: half a conversion, no such unit, or one that leads back |
| ParentLinks.WhatIsCheckedAndSaved | stp-api/src/costs/units.service.ts:37-51 | a field that came is saved as it came, null included, and checked unless null; one that did not stays |
| ParentLinks.NullLeavesHalfAConversion | stp-api/src/costs/units.service.ts:41-50 | what an accepted update leaves is coherent exactly when base and factor are not taken away one without the other |
| ParentLinks.NullBaseLeavesTheFactor | stp-api/src/costs/units.service.ts:41-50 | a unit of two of another accepts a null base alone and keeps its factor |
| JsonExtract.ExtractJsonObject | stp-api/src/fiscal-invoices/invoice-scan.ts:152-168 | the loop over depth and strings extracts what is specified |
| JsonExtract.ExtractsTheObject | stp-api/src/fiscal-invoices/invoice-scan.ts:148-168 | for any text without an opening brace before and any text after, what is extracted is the printed object to the character, per sections 2 to 7 of RFC 8259 |
| JsonExtract.CutOffObject | stp-api/src/fiscal-invoices/invoice-scan.ts:167 | an object cut off comes back from its brace to the end |
| JsonExtract.NoObjectNoChange | stp-api/src/fiscal-invoices/invoice-scan.ts:155 | a text without a brace comes back whole |

## Left out

- InvoiceSplit.PercentParts: percentages are basis points and totals are whole cents; the conversion from floating-point
  amounts to cents is not modelled.
- The suppliers an invoice creates on the way, its photo and PDF, the audit log and the tax authority's answers: they
  never touch the ledger. The supplier of an expense is the issuer of its invoice.
- Derived prices of expenses that a split or a removal discards: `MaterialPrices` models the voiding on its own.
- Direct edits and removals of an invoice-owned expense through the expenses screen, which legitimately break
  "amount equals total": runs of the ledger are of the invoice service's operations and of new expenses.
- LedgerProperties.UpdateKeepsGood: the balance leaves out the notes that an expense joins from its invoice and its
  line, so an update of the notes alone to a project that does not exist counts as balanced.
- Overlaps inside the operations of the invoice ledger other than a link: each is one step. `applySplits` and `remove`
  run in transactions; `update` and `assign` do not, and what two of them that overlap leave behind is not modelled.
- The format of document numbers and dates, which the request classes enforce.
- Name similarity and text folding in `ExpenseMatch`: the evidence about the supplier is an input, and the reasons
  shown to the user are not modelled.
- UniqueCodes.EveryRunKeepsCodesDistinct: rows are not deleted during the race.
- WhatsappFlow.OnePhotoPerSender: senders are phone numbers as they arrive; who may use the flow, the automatic reply
  to strangers, the texts sent and the search of projects by words are not modelled.
- SessionRefresh.TokensAreConsumedOnce: cookies, access tokens and password resets are not modelled; new tokens are
  taken never to repeat.
- SessionRefresh.OneEarlyTimeout: the token is one the API has issued; the same of SessionRefresh.WhatUnavailableMeans.
- MaterialPrices.DeleteVoidsItsPrices: the reading and the mark are one step.
- PriceImports.LinesAndPricesCorrespond: the date of a price is the one asked for on approval, which the line does not
  keep; `ImportEffects.ApproveDoes` states it.
- SupplierComparison.CappedExtremes: the extremes and the average before they are rounded to cents. The variation and
  the age in the price summary are not modelled.
- AcuBatch.BatchAgreesWithSingle: prices of one material that share date and time of capture may be told apart by the
  order of the database, so distinct stamps are required.
- Matching of imported descriptions to materials: the safe match is an input. Text of notes and discarded lines.
- QuoteTree.TreeListsTheRooted: ids are unique, as the primary key of the rows has it.
- Validation of a quotation before it is sent, and its conversion to the request body.
- Stripping code fences before extraction: it also strips them inside strings, which is not modelled.
- Screens, document generators, mail, calendar, electronic invoicing and the wiring of the framework.
