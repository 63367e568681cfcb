# The paid-print path, modelled and proved

A kiosk session ends in four steps: pages are selected, the selection is priced, the device
outcome settles job, session and money, and the kiosk is told. This project models the code
behind those steps and proves what it keeps, for every input, every run and every
interleaving that is described below.

| files | what they model |
|---|---|
| `Wrappers`, `CodeUnits` | options and results, JavaScript's safe integers; UTF-16 text, decimal numerals, splitting and joining |
| `PageRanges`, `PageRangeText` | interval merging, printing and counting; the page-range grammar and its parser |
| `PrintSettings`, `Normalization`, `PrintSettingsLaws`, `PrintContract` | normalization of a settings request, and the two consumers that check its result again |
| `CanonicalJson`, `CanonicalJsonLaws`, `CanonicalJsonMeaning`, `SettingsManifest`, `SettingsRevision`, `SettingsText` | the canonical JSON printer, a parser for the grammar of RFC 8259 (sections 4, 5, 7; integers only), the settings manifest, and the recheck of a stored revision |
| `Pricing`, `PricingLaws` | basis-point rounding, rule selection, quotes |
| `PrintJob`, `Session`, `Cleanup` | the settlement of a device result, the versioned session state machine, the deletion schedule |
| `Records`, `Settlement`, `EventWriters`, `Store` | the tables, one function per statement of the shared writers, and the writers as methods of a class that update the tables in place |
| `SettlementRuns`, `SettlementLaws`, `SettlementMeaning`, `RefundLaws`, `PaperLaws` | settlements cut where they read and where they commit, and what every run of them keeps |
| `EventNumbering`, `EventRuns` | the one event sequence of a session and its many writers |
| `RelaySteps`, `Relay`, `RelayLaws`, `RelayRegistry`, `RelaySystem` | the kiosk's event relay: one subscription as a class and as a step relation, the registry, and the system of all subscriptions |
| `ReplayTable`, `Replay`, `ReplayRuns` | the paged replay over a table that may have holes, and what the relay makes of its pages |
| `Submission`, `Streams` | the last check of a submission; chunked byte streams |

Numbers are mathematical integers; where the code checks for safe integers or limits, the
model has the same check as a failure result. Identifiers are UUIDs taken as numbers, clocks,
fresh identifiers and pattern tests that concern nothing else are parameters. A guarded
`updateMany` is an atomic compare-and-set on the row as it is at that moment.

In `SettlementRuns` a run is any sequence of events, each of which is one phase of one of any
number of settlement transactions, or any change another transaction commits. A transaction reads
the job, claims it, reads the session, and commits, each at its own moment. The claim holds the
job's row, so its guard is decided by whoever commits first, and nobody sees what a transaction
writes before it commits. An insert that the unique index on a session's event numbers refuses
rolls the whole transaction back.

What the laws about these runs take for granted:

* A change of others satisfies `Rely`: jobs are created open and keep their owner, only
  settlements settle them and nobody rewrites a settled outcome (`updatedAt` apart), a job has its
  payment to itself (a session has one job and a job prints with its own session's payment), the
  payment of a job stays as captured, refunds are only added and never with the reason
  `PRINT_FAILED`, and a session's state changes only together with its version. The modelled
  payment release and quote invalidation, with the callers that chain them, are shown to satisfy
  it (`EventRuns.EndUnpaidComplies`, `EventRuns.RepriceComplies`).
* The audit table of the model holds the entries of settlements only, so others leave it alone.
* Where event numbers are concerned, others only append to the outbox and number the events of
  their own (`EventRuns.OthersNumber`); the same two lemmas show it of the modelled writers.
* Every settlement is coherent (`Untouched`): all four callers pass what
  `settlePrintDeviceResult` returned, and `PrintJob.SettleMeaning` shows that to be coherent.

Where the code does less than one might expect, the exact condition is proved:

* A printed page range parses back to the same ranges if and only if the text was not blank or
  the document has at most 999,999 pages (`PageRangeText.PrintedTextParsesBack`). Settings stored
  as text normalize to themselves, and pass the recheck before a quote, under the same condition
  for every document.
* A settlement's write of the session is guarded by the version alone. If the session's events
  have moved on since it was read, which the row lock rules out, the unique index refuses the
  event and the transaction is rolled back, if and only if they have
  (`EventNumbering.RolledBackExactly`). So the numbering holds with or without the lock.
* Events may be published out of order, because one that failed is put back for later. The relay
  then reports a gap if and only if the page goes on without the cursor's next number, which the
  table did not have (`ReplayRuns.GapsAreHoles`). It delivers nothing out of order and tries again.
* Calling the closure that `subscribe` returned a second time cuts off the session's present
  subscriptions if and only if its own set is empty and the session has been subscribed to anew
  (`RelayRegistry.SecondCallExactly`). The kiosk's own server calls each closure once.
* Retained output of exactly 64 KiB is flagged truncated if an empty chunk follows, and a
  scanner's frames end early at an empty chunk; neither happens with non-empty chunks
  (`Streams.Retain`, `Streams.FramesDecode`).

## Model

| member | source | states |
|---|---|---|
| PageRanges.MergePageRanges | packages/domain/src/print-settings.ts:214-227 | the loop over sorted ranges that extends the last one in place computes the merge; of valid ranges it is canonical and covers exactly the same pages |
| PageRanges.MergeIsCanonical | packages/domain/src/print-settings.ts:214-227 | the merge of valid ranges is sorted with gaps of at least two, covers exactly the input's pages and has no more ranges |
| PageRanges.CanonicalIsUnique | packages/domain/src/print-settings.ts:214-227 | two canonical range lists covering the same pages are the same list |
| PageRanges.MergeDecidesSamePages | packages/domain/src/print-settings.ts:214-227 | two valid lists merge to the same list if and only if they cover the same pages |
| PageRanges.MergedCountIsPageSetSize | packages/domain/src/print-settings.ts:233-235 | the page count of a merged list is the size of the set of pages selected |
| PageRangeText.ScanIsPattern | packages/domain/src/print-settings.ts:171-200 | a segment is read as a range exactly when it has the form the pattern describes, with the numbers the pattern captures |
| CodeUnits.JoinSplit | packages/domain/src/print-settings.ts:186 | the segments hold no comma, and joined by commas they are the text |
| PageRangeText.TrimMeaning | packages/domain/src/print-settings.ts:180 | trimming takes white space off both ends and leaves none there |
| PageRangeText.ParseMeaning | packages/domain/src/print-settings.ts:175-212 | a text is accepted exactly when the page count is a positive safe integer and the text is blank or within 200 characters and 50 segments, each naming pages of the document in order; the page count or the first refused segment decides between the two errors; an accepted text selects exactly the pages some segment names, or all of the document if blank |
| PageRangeText.ParsePageRangeText | packages/domain/src/print-settings.ts:175-212 | the parsing loop with its four refusals computes the parse: accepted texts, errors and selected pages are as just said, and the ranges are canonical, non-empty and within the document |
| PageRangeText.ParsedIsInBounds | packages/domain/src/print-settings.ts:175-212 | accepted ranges are canonical and in bounds, and a non-blank text gives at most 50 of them with six-digit pages |
| PageRangeText.PrintedTextIsNoLonger | packages/domain/src/print-settings.ts:175-231 | printing an accepted non-blank text gives no more characters and no more segments than it had, so the re-parse meets no limit |
| PageRangeText.PrintedTextParsesBack | packages/domain/src/print-settings.ts:175-231 | parsing the printed ranges gives back exactly the parse, if and only if the text was not blank or the document has at most 999,999 pages |
| PageRangeText.LongDocumentIsRefused | packages/domain/src/print-settings.ts:171-185 | the printed whole of a document of more than 999,999 pages is refused |
| CodeUnits.DecimalRoundTrip | packages/domain/src/print-settings.ts:229-231 | a printed number has no leading zero and reads back as itself |
| CodeUnits.LeadingZero | packages/domain/src/print-settings.ts:196-197 | zeros in front of a number change nothing, so the captured digits read as their canonical numeral does |
| Normalization.NormalizePrintSettings | packages/domain/src/print-settings.ts:252-369 | the statement-by-statement normalization accepts exactly the acceptable requests, refuses each other one with the error of the first check it fails, and returns the described documents with the totals of what was asked for, within limits |
| Normalization.FillSelections | packages/domain/src/print-settings.ts:262-300 | the loop that fills the lookup refuses exactly a list that names a file twice, and otherwise maps every file to its selection |
| PrintSettingsLaws.LengthsAndLookupsAreOneToOne | packages/domain/src/print-settings.ts:262-318 | the length, duplicate and lookup checks amount to a bijection: the order is a permutation of the available files and selections match files one to one |
| PrintSettingsLaws.LastOfItsNameIsFound | packages/domain/src/print-settings.ts:263 | of several documents with one identifier the lookup finds the last |
| PrintSettingsLaws.NormalizeAcceptsExactly | packages/domain/src/print-settings.ts:252-356 | a request is accepted exactly when paper size, scaling and monochrome are among the device's capabilities, the files match one to one, every document is printable and the totals are within limits; each error exactly when its check is the first to fail, over the whole request, then document by document, then over the totals |
| PrintSettingsLaws.NormalizedMeaning | packages/domain/src/print-settings.ts:302-369 | an accepted request becomes one described document per name in order, and its pages, sides and sheets are the sums of what the documents ask for, within the limits |
| PrintSettingsLaws.NormalizeFileMeaning | packages/domain/src/print-settings.ts:302-336 | one document is accepted exactly when the device has its duplex mode and orientation, its copies are at least one and at most both the deployment's and the device's limit, and its text parses; each error is that of the first check that fails; its pages, sides and sheets are those of its ranges, copies and duplex mode |
| PrintSettingsLaws.StoredSettingsNormalizeToThemselves | services/api/src/modules/quotes/service.ts:375-391 | settings stored as text and normalized again are unchanged, if and only if every document's text survives the round trip |
| PrintContract.RefineManifest | packages/contracts/src/print-jobs.ts:179-230 | the refinement raises no issue exactly when documents and positions are distinct and the three totals are the sums |
| PrintContract.NormalizedPassesConsumers | packages/contracts/src/print-jobs.ts:116-230 | the projection of any normalized settings passes the manifest and document refinements, and passes the pricing usage check exactly when its sides are a safe integer |
| PrintContract.RevisionIsPriced | services/api/src/modules/quotes/service.ts:130-147 | a quote for a revision is of a rule for A4 monochrome printing, names the revision's pages, sides and sheets, and charges every document its sides with the duplex share of its own choice |
| CanonicalJsonLaws.StringRoundTrip | packages/domain/src/print-settings.ts:410-423 | every string of UTF-16 units, lone surrogates included, is read back from its escaped form |
| CanonicalJsonLaws.EscapeForm | packages/domain/src/print-settings.ts:410-423 | a unit is printed as itself, as its two-character escape, or as four lower-case hexadecimal digits, each exactly where JSON.stringify does |
| CanonicalJsonLaws.CopiedExactly | packages/domain/src/print-settings.ts:410-423 | a string is copied unchanged exactly when it holds no control character, quotation mark, backslash or lone surrogate |
| CanonicalJsonLaws.NumberRoundTrip | packages/domain/src/print-settings.ts:410-423 | every safe integer is read back from its numeral |
| CanonicalJsonLaws.DecodePrint | packages/domain/src/print-settings.ts:410-423 | a parser over the JSON grammar recovers the value up to key order and undefined members |
| CanonicalJsonLaws.PrintNormal | packages/domain/src/print-settings.ts:410-423 | sorting keys and dropping undefined members first, at every depth, changes no text |
| CanonicalJsonLaws.PrintIsInjective | packages/printer-adapters/src/types.ts:345-362 | two values print alike if and only if they are equal up to key order and undefined members |
| CanonicalJsonMeaning.LessIsCodeUnitOrder | packages/domain/src/print-settings.ts:417-420 | keys are compared by the first code unit in which they differ, a proper prefix coming first |
| CanonicalJsonMeaning.PrintsExactly | packages/domain/src/print-settings.ts:410-423 | a value is printed exactly when undefined occurs in it only as a field of an object |
| CanonicalJsonMeaning.SameTextIffSameMeaning | packages/printer-adapters/src/types.ts:345-362 | two values with unique keys print alike if and only if they denote the same value, objects being read as maps |
| SettingsManifest.ManifestTextDeterminesManifest | packages/domain/src/print-settings.ts:376-408 | two settings manifests have the same canonical text if and only if they are equal, field by field |
| SettingsManifest.KeyOrderDoesNotMatter | packages/domain/src/print-settings.ts:406-423 | however the object of a manifest is assembled, its text is the manifest's exactly when it denotes it |
| SettingsText.TextSaysRevision | packages/domain/src/print-settings.ts:376-423 | whoever parses the hashed text finds every setting and, document by document, its name, place, revision, digest, pages, copies, sides and orientation under their names and no other field, with the keys of every object in ascending order |
| SettingsRevision.NormalizedIsSafe | packages/domain/src/print-settings.ts:371-404 | what normalization accepts of a context with safe numbers has only safe numbers in its manifest |
| SettingsRevision.TextDeterminesRevision | packages/domain/src/print-settings.ts:371-408 | two accepted revisions, of whatever requests and documents, have the same text if and only if they are the same revision |
| SettingsRevision.RecheckDecides | services/api/src/modules/quotes/service.ts:351-400 | the recheck before a quote passes exactly when the stored selections normalize to the stored revision, and then every document and the device's capabilities are unchanged |
| SettingsRevision.RecheckOfUnchanged | services/api/src/modules/quotes/service.ts:372-400 | with nothing changed it passes if and only if every page text survives being stored |
| Pricing.AssertRule | packages/pricing/src/index.ts:252-273 | the checks of a rule pass exactly when every component is in its range |
| Pricing.AssertUsage | packages/pricing/src/index.ts:275-312 | the loop passes exactly when all counts are positive safe integers, sheets do not exceed sides and the documents account for every side |
| PricingLaws.ApplyIsOdd | packages/pricing/src/index.ts:111-146 | negating the amount negates the result and fails exactly as the amount does, in all four modes |
| PricingLaws.ApplyMeaning | packages/pricing/src/index.ts:111-146 | each failure exactly when its check says so; otherwise the result is the share: within half a unit in the half modes with ties as named, within one unit on the named side in the directed modes, exact where whole |
| PricingLaws.ShareIsUnique | packages/pricing/src/index.ts:111-146 | no other number meets that description of a share |
| PricingLaws.TiesAsNamed | packages/pricing/src/index.ts:128-141 | ties go away from zero under HALF_UP and to the even unit under HALF_EVEN |
| PricingLaws.SelectedRule | packages/pricing/src/index.ts:148-164 | the selected rule matches, has the highest priority, and is the first of those |
| PricingLaws.DuplexAdjustmentMeaning | packages/pricing/src/index.ts:181-192 | print amount plus duplex adjustment is the sum of the documents' charges, never negative, at most twice the amount |
| PricingLaws.ChargeIsMonotone | packages/pricing/src/index.ts:181-192 | more sides never cost less under any adjustment between -10000 and 10000 and any rounding |
| PricingLaws.QuoteWithMeaning | packages/pricing/src/index.ts:166-228 | a quote succeeds exactly when its components are within limits, with the error named otherwise; each line is pinned on its own: sides at the unit price, the documents' duplex shares, the fee, what is missing to the minimum before or after tax, the tax as the share of the subtotal, and the total; what was priced is that of the rule set and the usage |
| PricingLaws.QuoteReconciles | packages/pricing/src/index.ts:166-228 | for exactly the quotable inputs a quote results, and each of the four errors exactly when its check fails first; its lines are as just said and sum to the total, the zero floor never fires, the total reaches the minimum and every component is within the limit |
| PricingLaws.QuoteIsMonotone | packages/pricing/src/index.ts:166-228 | adding sides to any document or raising the unit price never lowers the total, in every rounding and minimum mode and any duplex mix |
| PricingLaws.PerDocumentRoundingDrift | packages/pricing/src/index.ts:181-192 | under the half modes, rounding per document differs from rounding the sum by at most half of the duplex documents plus one |
| PrintJob.SettleMeaning | packages/domain/src/print-job.ts:50-140 | money is owed exactly for a confirmed empty failure, cancellation or refusal; completion needs confirmed positive sheets; every settlement keeps the sheets and the warning the device reported, and its failure code, or gets the default of the device's state |
| PrintJob.HonestyChangesNoSettlement | packages/printer-adapters/src/submission.ts:94-106 | downgrading an unsupported claim first changes no settlement and nothing but the claim, and what stays confirmed is what settles as confirmed |
| Session.TransitionMeaning | packages/domain/src/session.ts:59-98 | a transition succeeds exactly when the version is current and the move is one stage on, past the configuration, back while documents are chosen or from payment to configuration, a cancellation or expiry before payment, or an outcome of printing; a stale version is refused first |
| Session.UploadableMeaning | packages/domain/src/session.ts:31-39 | documents are taken exactly in FILES_UPLOADED and where that is a state the session may move to |
| Session.VersionCountsSteps | packages/domain/src/session.ts:78-98 | over any run of writers the version is the start plus the number of transitions that succeeded |
| Session.OneWinnerPerVersion | packages/domain/src/session.ts:78-98 | of writers holding the same version at most one succeeds, in any order |
| Session.PaidIsForever | packages/domain/src/session.ts:31-72 | after payment a session is never uploadable, canceled or expired again |
| Session.TerminalIsForever | packages/domain/src/session.ts:31-72 | a session in a terminal state never changes again |
| Session.OnlyThroughPaid | packages/domain/src/session.ts:31-98 | a run that begins before payment reaches printing and its outcomes only through PAID, entered from AWAITING_PAYMENT; from there PRINTING follows only on PAID and an outcome only on PRINTING |
| Session.EveryOutcomeIsReached | packages/domain/src/session.ts:59-98 | from its creation a session can reach every outcome of printing in seven transitions, all of which succeed |
| Cleanup.ScheduledOnce | packages/database/src/session-cleanup.ts:66-134 | over the four successive updates each file that must go is DELETE_PENDING with its generation raised exactly once and every claim on it gone, an upload without a deadline gets one, every deadline is the one named, and every other column and file is untouched |
| Cleanup.PassMeaning | packages/domain/src/retention.ts:93-143 | one pass is refused exactly for a policy out of range; otherwise documents are due at once after a cancellation or expiry and after the configured grace of the outcome otherwise, and a session that was not due before is due then |
| Cleanup.FirstPassSchedules | packages/database/src/session-cleanup.ts:66-134 | after one pass nothing of the session is left that a further pass would give a new deadline |
| Cleanup.RepeatedEndMovesNoDeadline | packages/database/src/session-cleanup.ts:66-134 | however often, whenever and with whatever grace a session ends again, no file or session deadline moves |
| Store.Store.ScheduleSessionFilesForCleanup | packages/database/src/session-cleanup.ts:66-134 | the ordered bulk updates of the class have that effect on every row, and a refused policy writes nothing |
| Store.Store.RevokeSessionAccess | packages/database/src/session-cleanup.ts:137-149 | the two bulk updates revoke, as of now, exactly the session's active and claimed grants and its active clients |
| Store.Store.NextPrintJobEventSequence | packages/database/src/print-jobs.ts:28-38 | one more than the highest number in the job's ledger, and one for its first entry |
| Store.Store.RecordPrintJobEvent | packages/database/src/print-jobs.ts:47-80 | appends one entry under the next number of its job, with the outcome, its codes, its sheets and whether a refund was recorded |
| Store.Store.RecordPrintFailureCompensation | packages/database/src/print-jobs.ts:93-135 | an applied, captured, non-zero payment gets one obligation over its amount, or keeps the one it has; otherwise nothing is written |
| Store.Store.ApplyKioskPaperDeduction | packages/database/src/kiosk-paper.ts:95-122 | subtracts with a floor at zero, reports the signed change, and leaves an untracked kiosk untracked |
| Store.Store.CloseCommands | packages/database/src/print-jobs.ts:207-219 | the bulk update closes exactly the outstanding commands of the job, with the outcome or its reason as their result, and touches no other |
| Store.Store.RecordOutcome | packages/database/src/print-jobs.ts:207-281 | everything written between the claim of the job and the write of the session, in order |
| Store.Store.CreateOutboxEvent | packages/database/prisma/migrations/20260714000000_phase2_sessions/migration.sql:130 | the insert is refused exactly when the session has an event of that number, and otherwise appends the row |
| Store.Store.MovePhase | packages/database/src/print-jobs.ts:293-339 | the guarded write of the session, its event, revoked access and cleanup schedule, or the refusal of the event |
| Store.Store.ApplyPrintJobSettlement | packages/database/src/print-jobs.ts:180-340 | the whole settlement in place: a job that is gone or settled is left alone; an open one has its row, commands, obligation, ledger, paper and audit trail written as described below, and its printing session ended with its event, credentials and documents; a taken event number is thrown; every other row and column stays |
| Store.Store.SettleInTransaction | packages/database/src/print-jobs.ts:180-340 | around it, nothing of a settlement that threw or was not applied is left behind |
| Store.Store.NextAttemptNumber | packages/database/src/session-payments.ts:125-136 | one more than the highest attempt of the payment, and one for its first |
| Store.Store.ReleaseFound | packages/database/src/session-payments.ts:47-118 | given reads of any age, exactly the payment that was found open is closed if it is still as it was read, with its attempt and its event, and nothing is written otherwise |
| Store.Store.ReleaseSessionPayments | packages/database/src/session-payments.ts:32-119 | whatever captured or open payment the reads find, no open payment is left unless a capture stopped it |
| Store.Store.RetireQuote | packages/database/src/session-pricing.ts:48-84 | given a read of any age, the session's row is cleared, and the quote that was found is retired with its event if it is still active |
| Store.Store.InvalidateSessionPricing | packages/database/src/session-pricing.ts:32-85 | whatever active quote the read finds, none is left afterwards |
| SettlementLaws.AtMostOneIsApplied | packages/database/src/print-jobs.ts:184-205 | of any number of settlements of one job, interleaved at every read and commit, at most one reports applied |
| SettlementLaws.LosersChangeNothing | packages/database/src/print-jobs.ts:184-205 | no phase of a settlement that is not applied in the end changed any table |
| SettlementLaws.SettledIsForever | packages/database/src/print-jobs.ts:189-205 | a settled job's status, confidence, sheets and codes never change again |
| SettlementLaws.SettledByItsWinner | packages/database/src/print-jobs.ts:184-205 | a job that became settled during a run was settled by one of its winners, with exactly that winner's outcome and the instant of that outcome in the column of its kind |
| SettlementLaws.SettledOnceUnderTheLock | packages/database/src/print-jobs.ts:171-205 | with nobody in between, a settlement is applied exactly when its job is open and its event's number free, writes nothing otherwise, and makes any later one of the job a no-op |
| SettlementLaws.SettlementMovesSessionsLegally | packages/database/src/print-jobs.ts:287-308 | whatever a settlement does to a session row, in any interleaving, is nothing or one legal transition out of PRINTING |
| SettlementMeaning.ClaimSettles | packages/database/src/print-jobs.ts:189-205 | the claimed row has the outcome, and the instant as completion or as failure, whichever it is; its other columns, and other jobs, stay as they were |
| SettlementMeaning.SettledSessionIsOver | packages/database/src/print-jobs.ts:180-340 | settling an open job writes its row, its commands, at most one obligation, one ledger entry, the paper estimate and one audit entry, all of the one outcome; if the session is printing it also ends it: row, event, credentials and document deadlines; what is reported is what was written; with the number taken nothing is done; nothing else changes |
| SettlementMeaning.ClosingClosesCommands | packages/database/src/print-jobs.ts:207-219 | the outstanding commands of the job are closed as of now with the outcome and its code, closed ones are not reopened, other jobs' commands are untouched |
| SettlementMeaning.AccessRevoked | packages/database/src/session-cleanup.ts:137-149 | exactly the session's active and claimed grants and active clients are revoked as of now, so no grant or client stays usable, and every other row is untouched |
| SettlementMeaning.FindRefundMeaning | packages/database/src/print-jobs.ts:116-134 | the unique key of the upsert finds an obligation exactly when one exists |
| RefundLaws.RefundIffDue | packages/database/src/print-jobs.ts:93-135 | in any database that is in order, a job has a refund for a failed print exactly when it is due one, over the captured amount |
| RefundLaws.RunsKeepRefundsRight | packages/database/src/print-jobs.ts:221-228 | every run keeps the obligations in order: one per payment, each for a job that is due it, none missing |
| RefundLaws.RefundsOverRuns | packages/database/src/print-jobs.ts:93-228 | at every moment of every run: a refund exists if and only if the job settled as a definite failure and its payment was captured, applied and not free; at most one, of that amount, and then with confirmed zero sheets |
| RefundLaws.CommitReportsRefund | packages/database/src/print-jobs.ts:221-228 | an applied settlement reports exactly the refund it recorded, and one only when the job it settled is due it |
| PaperLaws.EstimateOverRuns | packages/database/src/kiosk-paper.ts:95-122 | the estimate is the initial one minus all sheets produced, floored at zero, and the recorded deltas sum to the change |
| PaperLaws.EstimateStaysInRange | packages/database/src/kiosk-paper.ts:95-122 | the estimate never leaves 0 to initial, and an untracked kiosk stays untracked |
| PaperLaws.DeductedOncePerCompletion | packages/database/src/print-jobs.ts:247-285 | every settled job has exactly one audit entry, with a deduction of exactly its sheets if and only if it completed with confirmation |
| EventWriters.ReleaseIsGuarded | packages/database/src/session-payments.ts:47-118 | however old the reads are, a capture they found stops the release, and a payment they found open is canceled, with its code, instant, attempt and event, exactly if it is still as it was read |
| EventWriters.ReleaseLeavesNoOpenPayment | packages/database/src/session-payments.ts:32-119 | a capture stops the release, which then writes nothing; otherwise no open payment is left, the one there was is canceled with its attempt and its event, and nothing else is touched |
| EventWriters.InvalidationIsGuarded | packages/database/src/session-pricing.ts:48-84 | however old the read is, the row loses its quote and, exactly on demand, its settings revision; the quote that was found is retired with reason, instant and event exactly if it is still the session's active one |
| EventWriters.InvalidationLeavesNoQuote | packages/database/src/session-pricing.ts:32-85 | afterwards the session has no active quote, and an event is written exactly when there was one |
| EventNumbering.ReleaseContinues | packages/database/src/session-payments.ts:88-119 | whatever the reads answered, the events of a release continue the numbering it was given up to the number it returns |
| EventNumbering.InvalidationContinues | packages/database/src/session-pricing.ts:68-85 | the same for a quote invalidation |
| EventNumbering.EndUnpaidNumbers | services/api/src/modules/sessions/service.ts:394-430 | release, invalidation and the caller's own event, chained through nextSequence and persisted once, keep every session numbered 1 to eventSequence |
| EventNumbering.EndUnpaidMeaning | services/api/src/modules/sessions/service.ts:394-430 | an unpaid session that ends keeps no open payment, unless one was captured, and no active quote; its row moves on with its reason, and its events, in order and consecutively numbered, are the payment closed, the quote retired and its own |
| EventNumbering.RepriceNumbers | services/worker/src/jobs/process-document.ts:664-714 | so does an invalidation followed by the caller's own event, with or without a change of state and version |
| EventNumbering.RepriceMeaning | services/worker/src/jobs/process-document.ts:664-714 | a change leaves no active quote, clears the settings and moves state and version exactly when it says so, and is announced right after the quote it cost |
| EventNumbering.AnnounceMeaning | services/api/src/modules/print-jobs/service.ts:530-578 | a transition announced by one event moves the row one version and number on and nothing else |
| EventNumbering.CommitKeepsNumbering | packages/database/src/print-jobs.ts:293-329 | whatever others committed since the session was read, a settlement's commit leaves every session numbered |
| EventNumbering.RolledBackExactly | packages/database/src/print-jobs.ts:293-329 | with the version unchanged, it is rolled back if and only if the session's events have moved on since it was read |
| EventNumbering.NumberedIsUnique | packages/database/prisma/migrations/20260714000000_phase2_sessions/migration.sql:130 | events numbered in order never share a number |
| EventNumbering.RecordingKeepsLedgers | packages/database/src/print-jobs.ts:28-80 | recording an entry keeps every job's ledger numbered 1, 2, 3 and adds one entry to its own |
| EventNumbering.ReleaseKeepsAttempts | packages/database/src/session-payments.ts:88-136 | a release keeps every payment's attempts numbered 1, 2, 3 and adds one to the payment it closes |
| EventRuns.LockedWritersNumber | packages/database/src/print-jobs.ts:293-329 | however settlements, endings and changes follow each other under the session row lock, every session's events are numbered 1 to eventSequence |
| EventRuns.LockedWritersAreUnique | packages/database/prisma/migrations/20260714000000_phase2_sessions/migration.sql:130 | under the lock the unique index never has anything to refuse |
| EventRuns.LockedSettlementIsNotRefused | packages/database/src/print-jobs.ts:310-329 | in particular no settlement is rolled back |
| EventRuns.RacingSettlementsNumber | packages/database/src/print-jobs.ts:287-329 | settlements racing each other and any change of the session, at every point and without the lock, never disturb any session's numbering |
| EventRuns.EndUnpaidComplies | services/api/src/modules/sessions/service.ts:741-774 | ending an unpaid session is among the changes the laws about runs of settlements let others make at any point |
| EventRuns.RepriceComplies | services/worker/src/jobs/process-document.ts:664-714 | so is a change of documents or settings of any session |
| EventRuns.StaleReadIsRefused | packages/database/src/print-jobs.ts:293-329 | after a change committed between a settlement's read and write of the session, which the lock rules out, the settlement passes the version guard, is refused its event's number, and writes nothing |
| Relay.Subscription.Synchronize | services/kiosk-agent/src/events.ts:79-89 | the entry of a run: nothing when closed, a request when busy, else a run with no timer pending |
| Relay.Subscription.Replied | services/kiosk-agent/src/events.ts:90-123 | the loop over a page and what follows it, up to the next await or the end of the run, is the uninterrupted sequence of steps |
| Relay.SessionEventRelay.Accept | services/kiosk-agent/src/events.ts:61-71 | an announcement prompts exactly the session's open subscriptions that are behind it |
| Relay.SessionEventRelay.Unsubscribe | services/kiosk-agent/src/events.ts:53-58 | the closure empties its own set, and then deletes whatever set the session has |
| RelaySteps.ConsumeIsSteps | services/kiosk-agent/src/events.ts:90-123 | reading a whole page without interruption is the reply followed by nothing but the run going on |
| RelayLaws.RunsAreSafe | services/kiosk-agent/src/events.ts:39-149 | under every interleaving and any server, the listener saw exactly after+1 to cursor in order; at most one run per subscription; no timer pending while it waits; no more pages than cursor progress |
| RelayLaws.PromptMeaning | services/kiosk-agent/src/events.ts:61-89 | news beyond the cursor, a reconnect or the timer starts one run at the cursor if there is none, is remembered if there is one, and does nothing when closed; old news does nothing |
| RelayLaws.NothingBeginsAfterUnsubscribe | services/kiosk-agent/src/events.ts:53-122 | from an unsubscription on, over any steps, no run, no page and no timer begins, the run there was only ends, and an idle subscription does nothing |
| RelayLaws.NoLostWakeUp | services/kiosk-agent/src/events.ts:61-148 | with an honest server an open, idle subscription has no resync pending and its cursor has reached every announced number |
| RelayLaws.IdleHasDelivered | services/kiosk-agent/src/events.ts:61-148 | every announced number beyond the start has then been delivered |
| RelayRegistry.OpenIsReached | services/kiosk-agent/src/events.ts:39-71 | as long as every closure is called at most once, announcements reach every open subscription |
| RelayRegistry.SecondCallExactly | services/kiosk-agent/src/events.ts:53-58 | a second call cuts others off if and only if the closure's set is empty and the session has been subscribed to anew |
| RelayRegistry.SecondCallCutsOff | services/kiosk-agent/src/events.ts:48-58 | subscribe, unsubscribe, subscribe, and the first closure again: the open subscription is no longer reached |
| RelaySystem.PromptedExactly | services/kiosk-agent/src/events.ts:61-77 | an announcement prompts exactly the open subscriptions of its session, a reconnection exactly all open ones |
| RelaySystem.AcceptedIsDelivered | services/kiosk-agent/src/events.ts:39-149 | over any number of subscriptions, every number accepted for a session since a subscription to it was made has been delivered to it as soon as it is idle, as long as it is open |
| ReplayTable.PageMeaning | services/api/src/modules/events/routes.ts:44-66 | a page of any table is in order and leaves out nothing of the table up to its last number; it has at most a hundred events, all hundred when it promises more, and then there is more |
| ReplayTable.PrefixIsATable | services/worker/src/jobs/publish-outbox.ts:128-190 | a table published in order reaches without a hole to its end |
| Replay.PageIsDelivered | services/kiosk-agent/src/events.ts:92-116 | a page of any table is delivered up to the first hole; the run ends with a retry scheduled exactly when not everything has been delivered |
| Replay.DrainDeliversToTheHole | services/kiosk-agent/src/events.ts:91-116 | page after page, the run delivers the table up to the first hole |
| ReplayRuns.GapsAreHoles | services/kiosk-agent/src/events.ts:92-106 | whatever falls between the steps and in whatever order events are published, no run stalls, and one reports a gap if and only if the page goes on without the cursor's next number, which the table did not have |
| ReplayRuns.WholeTableNeverGaps | services/kiosk-agent/src/events.ts:92-106 | as long as events are published in order, no run ever reports a gap |
| ReplayRuns.HoleIsReported | services/worker/src/jobs/publish-outbox.ts:118-213 | number 2 published before number 1: a gap is reported, nothing is delivered, and a retry is scheduled |
| ReplayRuns.WrittenIsHanded | services/kiosk-agent/src/events.ts:95-102 | whatever transactions write to a session, in whatever order its events are published, and whatever falls between the relay's steps, a listener is handed exactly its later events, each once, in the order written |
| ReplayRuns.WrittenIsDelivered | services/kiosk-agent/src/events.ts:91-116 | with nothing in between, it is handed all of them up to the first not yet published, and a retry is scheduled exactly when there is such a one |
| Submission.AssertSubmittable | packages/printer-adapters/src/submission.ts:19-64 | the loop accepts exactly the submissions whose manifest fits and whose artifacts are distinct and each its document's; the errors come in the order of the checks |
| Submission.SubmittedOneToOne | packages/printer-adapters/src/submission.ts:23-64 | an accepted submission carries every document of the manifest exactly once |
| Streams.InputInspectionTransform.Transform | services/document-processor/src/streams.ts:20-42 | a chunk is forwarded and captured in place, or refused without a trace when it would exceed a limit |
| Streams.Inspect | services/document-processor/src/streams.ts:20-59 | however the bytes are cut, they are accepted exactly when their number is the declared one within the maximum, forwarded unchanged, with the first eight captured; each error as named |
| Streams.Limit | services/document-processor/src/streams.ts:61-80 | all bytes pass exactly when their number is within the limit |
| Streams.Retain | services/document-processor/src/native-tools.ts:82-96 | however the bytes are cut, the first 64 KiB are retained, flagged truncated exactly when more existed or an empty chunk followed exactly 64 KiB |
| Streams.WriteStream | services/document-processor/src/clamav.ts:82-98 | a file within the maximum is written as its frames and the terminator, a longer one is refused |
| Streams.FramesDecode | services/document-processor/src/clamav.ts:87-98 | the frames decode to exactly the file with nothing left over, if and only if no chunk is empty |
| Streams.HeaderRoundTrip | services/document-processor/src/clamav.ts:93-95 | the four big-endian bytes of a length give the length back |

## Left out

- HTTP routes, authentication, Socket.IO, S3, Redis and the internals of Prisma and PostgreSQL: a guarded update is atomic, and transactions see each other's writes when they commit.
- Transactions that the database aborts for other reasons than the event number, such as serialization: they are ones whose phases are not in the run.
- The order of statements inside one commit is kept, but nobody looks in between: PostgreSQL shows others committed rows only.
- The unique indexes on ledger entries and payment attempts, and the one on event numbers for inserts other than a settlement's: `EventNumbering.RecordingKeepsLedgers`, `EventNumbering.ReleaseKeepsAttempts` and `EventRuns.LockedWritersAreUnique` show that they have nothing to refuse.
- Refund provider, currency and status columns, audit actors and request identifiers, event identifiers and device diagnostics: written but never read on this path.
- The artifact barrier functions of packages/database/src/session-cleanup.ts, lines 28-48, beyond the two constants the schedule uses: a sum and a range check each.
- Settlement with an invalid retention policy: the configuration validates it before any settlement, so the type of the policy says so.
- PaperLaws.EstimateOverRuns: over runs in which staff neither refill nor correct the estimate; a refill starts a new run.
- ReplayRuns.WrittenIsDelivered: the pages are read with no other event in between; `ReplayRuns.WrittenIsHanded` is the statement for every interleaving.
- The publisher's claims, retries and backoff: its table is any ascending selection of the session's numbers, at every moment another one.
- RelaySystem.AcceptedIsDelivered: answers are honest, so the server never answers with a latest number below one it had announced when it was asked.
- A listener that throws, and how many events a page still in flight delivers after unsubscription: `RelayLaws.NothingBeginsAfterUnsubscribe` says that no further page is asked for.
- The schema of a replay answer: a malformed answer is a failed fetch.
- Fractional and non-finite JSON numbers, and integers that are not safe: manifests carry none, and the printer fails on them in the model.
- Hashing of manifests and of received bytes, and the digest of the input inspection.
- `Array.prototype.sort` and key sorting are modelled by a stable insertion sort with the same comparison.
- PrintContract.NormalizedPassesConsumers: the bounds of single manifest fields in the schema are not repeated.
- The date range of JavaScript: instants are unbounded integers.
- SNMP decoding, queue selection, liveness thresholds, admin capabilities and all user interfaces: settled by reading one branch.
