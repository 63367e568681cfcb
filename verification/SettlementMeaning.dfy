/**
 * What a whole settlement under the session row lock amounts to, table by table and
 * column by column, for the session it ends: everything that tells of the outcome tells
 * the same one, nothing of the session stays open, and nothing else is touched.
 */
module SettlementMeaning {
  import opened Records
  import opened Wrappers
  import opened Settlement
  import opened SettlementRuns
  import Cleanup
  import PrintJob
  import Session

  // ---------- The job ----------

  /** Only the outcome is new, and the instant of its kind. */
  predicate SettledAs(before: Job, after: Job, input: Input) {
    && Carries(after, input) && SameOwner(before, after) && after.updatedAt == input.now
    && (if input.settlement.status == PrintJob.JobCompleted then after.failedAt == before.failedAt
        else after.completedAt == before.completedAt)
  }

  predicate OneJobSettled(before: map<Id, Job>, after: map<Id, Job>, input: Input) {
    && input.printJobId in before && input.printJobId in after
    && SettledAs(before[input.printJobId], after[input.printJobId], input)
    && after == before[input.printJobId := after[input.printJobId]]
  }

  lemma ClaimSettles(db: Db, input: Input)
    requires input.printJobId in db.jobs
    ensures var claimed := ClaimJob(db, input); claimed == db.(jobs := claimed.jobs) && OneJobSettled(db.jobs, claimed.jobs, input)
  {
  }

  // ---------- Commands ----------

  predicate Outstanding(c: Command) {
    c.status == CommandPending || c.status == CommandClaimed
  }

  /** The result is the reason, or the outcome where there is none. */
  predicate Names(code: string, s: PrintJob.Settlement) {
    match s.failureCode
    case Some(reason) => code == reason
    case None => code == match s.status
                         case JobCompleted => "COMPLETED"
                         case JobFailed => "FAILED"
                         case JobCanceled => "CANCELED"
                         case JobRecoveryRequired => "RECOVERY_REQUIRED"
  }

  predicate ClosedAs(before: Command, after: Command, input: Input) {
    && after.printJobId == before.printJobId
    && after.status == (if input.settlement.status == PrintJob.JobCompleted then CommandCompleted else CommandFailed)
    && after.claimToken.None? && after.leaseExpiresAt.None?
    && after.resultCode.Some? && Names(after.resultCode.value, input.settlement)
    && after.completedAt == Some(input.now) && after.updatedAt == input.now
  }

  /** Nothing is left for the agent to do, nothing closed is reopened, and other jobs' commands stay. */
  predicate CommandsClosed(before: map<Id, Command>, after: map<Id, Command>, input: Input) {
    && before.Keys == after.Keys
    && forall id :: id in before ==>
         if before[id].printJobId == input.printJobId && Outstanding(before[id]) then ClosedAs(before[id], after[id], input)
         else after[id] == before[id]
  }

  lemma ClosingClosesCommands(db: Db, input: Input)
    ensures var closed := CloseCommands(db, input);
            closed == db.(commands := closed.commands) && CommandsClosed(db.commands, closed.commands, input)
  {
  }

  // ---------- Money ----------

  /** The settlement bought nothing, and the session's own payment had moved money. */
  predicate Owed(db: Db, read: Job, input: Input) {
    && input.settlement.refundObligation && read.paymentId in db.payments
    && var p := db.payments[read.paymentId];
       p.sessionId == read.sessionId && p.status == Captured && p.appliedToSession && p.amountMinor != 0
  }

  /** An obligation for the failed print of that payment is recorded under that identifier. */
  predicate Obliges(refunds: seq<Refund>, n: int, paymentId: Id) {
    0 <= n < |refunds| && refunds[n].paymentId == paymentId && refunds[n].reason == PrintFailed
  }

  /** At most one more obligation, over the whole amount, and only for a payment without one. */
  ghost predicate Refunded(db: Db, after: seq<Refund>, read: Job, input: Input, refundId: Option<Id>) {
    if !Owed(db, read, input) then after == db.refunds && refundId.None?
    else if exists n :: Obliges(db.refunds, n, read.paymentId) then
      after == db.refunds && exists n :: Obliges(db.refunds, n, read.paymentId) && refundId == Some(db.refunds[n].id)
    else
      && refundId == Some(input.newRefundId)
      && after == db.refunds + [Refund(input.newRefundId, read.paymentId, read.sessionId, PrintFailed,
                                       db.payments[read.paymentId].amountMinor, input.now)]
  }

  lemma {:induction false} FindRefundMeaning(refunds: seq<Refund>, paymentId: Id)
    ensures var found := FindRefund(refunds, paymentId, PrintFailed);
            && (found.Some? <==> exists n :: Obliges(refunds, n, paymentId))
            && (found.Some? ==> exists n :: Obliges(refunds, n, paymentId) && refunds[n] == found.value)
  {
    if refunds != [] {
      FindRefundMeaning(refunds[1..], paymentId);
      assert Obliges(refunds, 0, paymentId) <==> refunds[0].paymentId == paymentId && refunds[0].reason == PrintFailed;
      forall n ensures Obliges(refunds[1..], n, paymentId) <==> n >= 0 && Obliges(refunds, n + 1, paymentId) {
      }
      assert forall n :: Obliges(refunds, n, paymentId) && n > 0 ==> Obliges(refunds[1..], n - 1, paymentId);
    }
  }

  lemma PaidRefunds(db: Db, read: Job, input: Input)
    ensures var paid := Paid(db, read, input);
            && paid.db == db.(commands := paid.db.commands, refunds := paid.db.refunds)
            && paid.db.commands == CloseCommands(db, input).commands
            && Refunded(db, paid.db.refunds, read, input, paid.refundId)
  {
    hide CloseCommand;
    FindRefundMeaning(db.refunds, read.paymentId);
    hide FindRefund, Obliges;
  }

  // ---------- Ledger ----------

  /** One more than the highest number of the job, and one for its first entry. */
  ghost predicate NextNumber(ledger: seq<LedgerEntry>, printJobId: Id, sequence: int) {
    && (forall n :: 0 <= n < |ledger| && ledger[n].printJobId == printJobId ==> ledger[n].sequence < sequence)
    && (sequence == 1
        || (sequence > 1 && exists n :: 0 <= n < |ledger| && ledger[n].printJobId == printJobId && ledger[n].sequence == sequence - 1))
  }

  lemma {:induction false} LatestIsHighest(ledger: seq<LedgerEntry>, printJobId: Id)
    ensures NextNumber(ledger, printJobId, LatestSequence(ledger, printJobId) + 1)
  {
    if ledger != [] {
      var k := |ledger| - 1;
      var earlier := ledger[..k];
      LatestIsHighest(earlier, printJobId);
      assert forall n :: 0 <= n < k ==> earlier[n] == ledger[n];
    }
  }

  /** The entry says what the job row says. */
  ghost predicate Tells(db: Db, e: LedgerEntry, input: Input, refundId: Option<Id>) {
    var s := input.settlement;
    && e.printJobId == input.printJobId && e.ledgerType == input.ledgerType && e.operationId == input.operationId
    && e.status == Settled(s.status) && e.resultConfidence == Known(s.resultConfidence)
    && e.failureCode == s.failureCode && e.warningCode == s.warningCode && e.sheetsProduced == s.sheetsProduced
    && (e.refundRecorded <==> refundId.Some?) && e.createdAt == input.now
    && NextNumber(db.ledger, input.printJobId, e.sequence)
  }

  lemma RecordTells(db: Db, input: Input, refundId: Option<Id>)
    ensures var after := RecordEvent(db, input, refundId);
            && after == db.(ledger := after.ledger)
            && |after.ledger| == |db.ledger| + 1 && after.ledger[..|db.ledger|] == db.ledger
            && Tells(db, after.ledger[|db.ledger|], input, refundId)
  {
    hide LatestSequence, NextNumber;
    LatestIsHighest(db.ledger, input.printJobId);
  }

  // ---------- Paper and audit ----------

  /** A completed print takes its sheets off a tracked estimate, down to nothing; no other settlement does. */
  predicate Deducts(before: map<Id, int>, after: map<Id, int>, kioskId: Id, input: Input, paper: Option<Deduction>) {
    if input.settlement.status != PrintJob.JobCompleted then after == before && paper.None?
    else
      && input.settlement.sheetsProduced.Some?
      && var sheets := input.settlement.sheetsProduced.value;
         if kioskId in before then
           var left := Max(0, before[kioskId] - sheets);
           after == before[kioskId := left] && paper == Some(Deduction(sheets, left - before[kioskId], true, Some(left)))
         else after == before && paper == Some(Deduction(sheets, 0, false, None))
  }

  predicate Audits(e: AuditEvent, read: Job, input: Input, refundId: Option<Id>) {
    && e.printJobId == input.printJobId && e.kioskId == read.kioskId && e.sessionId == read.sessionId
    && e.status == input.settlement.status && e.resultConfidence == input.settlement.resultConfidence
    && e.failureCode == input.settlement.failureCode && e.refundId == refundId && e.occurredAt == input.now
  }

  lemma SheetsTaken(db: Db, kioskId: Id, sheets: int)
    requires sheets > 0
    ensures var d := DeductPaper(db, kioskId, sheets);
            && d.db == db.(paper := d.db.paper)
            && if kioskId in db.paper then
                 var left := Max(0, db.paper[kioskId] - sheets);
                 d.db.paper == db.paper[kioskId := left] && d.deduction == Deduction(sheets, left - db.paper[kioskId], true, Some(left))
               else d.db.paper == db.paper && d.deduction == Deduction(sheets, 0, false, None)
  {
  }

  lemma DeductionAudits(db: Db, read: Job, input: Input, refundId: Option<Id>)
    requires PrintJob.Coherent(input.settlement)
    ensures var after := DeductAndAudit(db, read, input, refundId);
            && after == db.(paper := after.paper, audit := after.audit)
            && |after.audit| == |db.audit| + 1 && after.audit[..|db.audit|] == db.audit
            && Audits(after.audit[|db.audit|], read, input, refundId)
            && Deducts(db.paper, after.paper, read.kioskId, input, after.audit[|db.audit|].paper)
  {
    if ConsumesPaper(input.settlement) {
      SheetsTaken(db, read.kioskId, input.settlement.sheetsProduced.value);
    }
    hide DeductPaper;
  }

  // ---------- Everything but the session ----------

  /** What a settlement leaves of its outcome, whatever has become of the session. */
  ghost predicate Recorded(db: Db, after: Db, read: Job, input: Input, refundId: Option<Id>) {
    && OneJobSettled(db.jobs, after.jobs, input)
    && CommandsClosed(db.commands, after.commands, input)
    && Refunded(db, after.refunds, read, input, refundId)
    && |after.ledger| == |db.ledger| + 1 && after.ledger[..|db.ledger|] == db.ledger
    && Tells(db, after.ledger[|db.ledger|], input, refundId)
    && |after.audit| == |db.audit| + 1 && after.audit[..|db.audit|] == db.audit
    && Audits(after.audit[|db.audit|], read, input, refundId)
    && Deducts(db.paper, after.paper, read.kioskId, input, after.audit[|db.audit|].paper)
    && after.payments == db.payments && after.quotes == db.quotes && after.attempts == db.attempts
  }

  predicate SameSessions(db: Db, after: Db) {
    && after.sessions == db.sessions && after.outbox == db.outbox && after.files == db.files
    && after.grants == db.grants && after.clients == db.clients
  }

  lemma SameMoney(a: Db, b: Db, refunds: seq<Refund>, read: Job, input: Input, refundId: Option<Id>)
    requires a.payments == b.payments && a.refunds == b.refunds
    ensures Refunded(a, refunds, read, input, refundId) <==> Refunded(b, refunds, read, input, refundId)
  {
    hide Obliges;
  }

  lemma SameLedger(a: Db, b: Db, e: LedgerEntry, input: Input, refundId: Option<Id>)
    requires a.ledger == b.ledger
    ensures Tells(a, e, input, refundId) <==> Tells(b, e, input, refundId)
  {
    hide NextNumber;
  }

  lemma OutcomeIsRecorded(db: Db, read: Job, input: Input)
    requires input.printJobId in db.jobs && PrintJob.Coherent(input.settlement)
    ensures var written := RecordOutcome(ClaimJob(db, input), read, input);
            Recorded(db, written.db, read, input, written.refundId) && SameSessions(db, written.db)
  {
    hide ClaimJob, CloseCommands, Paid, RecordEvent, DeductAndAudit, OneJobSettled, CommandsClosed, Refunded, Tells, Audits,
      Deducts, PrintJob.Coherent;
    ClaimSettles(db, input);
    var claimed := ClaimJob(db, input);
    ClosingClosesCommands(claimed, input);
    PaidRefunds(claimed, read, input);
    var paid := Paid(claimed, read, input);
    RecordTells(paid.db, input, paid.refundId);
    var recorded := RecordEvent(paid.db, input, paid.refundId);
    DeductionAudits(recorded, read, input, paid.refundId);
    SameMoney(db, claimed, paid.db.refunds, read, input, paid.refundId);
    SameLedger(db, paid.db, recorded.ledger[|db.ledger|], input, paid.refundId);
  }

  /** What an applied settlement reports is what it recorded. */
  lemma CommitReports(db: Db, read: Job, session: Option<SessionRow>, input: Input)
    requires Applied(Commit(db, read, session, input).phase)
    ensures input.printJobId in db.jobs
    ensures Commit(db, read, session, input).phase.outcome.refundId == Paid(ClaimJob(db, input), read, input).refundId
  {
    hide ClaimJob, MovePhase, Paid, RecordEvent, DeductAndAudit;
    var written := RecordOutcome(ClaimJob(db, input), read, input);
    if session.Some? && session.value.state == Session.Printing {
      MoveEffect(written.db, read, session.value, written.refundId, input);
    }
  }

  // ---------- The session ----------

  /** The event names the outcome, and the version and sequence the row now has. */
  predicate Announces(e: OutboxEvent, row: SessionRow, sessionId: Id, input: Input) {
    && e.sessionId == sessionId && e.sequence == row.eventSequence
    && match e.body
       case SessionCompleted(version) => version == row.stateVersion && row.state == Session.Completed
       case PrintStopped(state, version, printJobId, failureCode, confidence) =>
         && version == row.stateVersion && state == row.state && state != Session.Completed
         && printJobId == input.printJobId && Some(failureCode) == input.settlement.failureCode
         && confidence == input.settlement.resultConfidence
       case _ => false
  }

  /** The documents of the session are due after the grace its outcome is given. */
  function DueAt(input: Input): Time {
    input.now + if input.settlement.sessionState == PrintJob.SessionRecoveryRequired
                then input.retentionPolicy.recoveryGraceMilliseconds
                else input.retentionPolicy.settledGraceMilliseconds
  }

  /** The reason is the failure code, of which the first 80 characters are kept. */
  predicate GivesReason(reason: Option<string>, input: Input) {
    && reason.Some?
    && match input.settlement.sessionState
       case SessionCompleted => reason.value == "PRINT_COMPLETED"
       case _ =>
         && input.settlement.failureCode.Some? && reason.value <= input.settlement.failureCode.value
         && |reason.value| == Min(80, |input.settlement.failureCode.value|)
  }

  predicate NamesState(s: PrintJob.SettledSession, state: Session.SessionState) {
    match s
    case SessionCompleted => state == Session.Completed
    case SessionFailed => state == Session.Failed
    case SessionRecoveryRequired => state == Session.RecoveryRequired
  }

  predicate Ended(before: SessionRow, row: SessionRow, input: Input) {
    && NamesState(input.settlement.sessionState, row.state)
    && row.stateVersion == before.stateVersion + 1 && row.eventSequence == before.eventSequence + 1
    && GivesReason(row.terminalReason, input)
    && row.activeQuoteId == before.activeQuoteId && row.currentSettingsRevision == before.currentSettingsRevision
    && (if before.cleanupStatus == NotDue then row.cleanupStatus == CleanupPending && row.cleanupDueAt == Some(DueAt(input))
        else row.cleanupStatus == before.cleanupStatus && row.cleanupDueAt == before.cleanupDueAt)
    && row.completedAt == (if row.state == Session.Completed then Some(input.now) else before.completedAt)
    && row.updatedAt == input.now
  }

  /** No credential of the session is left that could still be used, claimed grants included. */
  predicate NoAccess(rows: map<Id, Access>, sessionId: Id) {
    forall id :: id in rows && rows[id].sessionId == sessionId ==> rows[id].status != Active && rows[id].status != AccessClaimed
  }

  /** A mobile client is active, revoked or expired; only a grant is ever claimed. */
  predicate NoneClaimed(rows: map<Id, Access>) {
    forall id :: id in rows ==> rows[id].status != AccessClaimed
  }

  /** The session's rows of these statuses are revoked now, and no other row changes. */
  predicate Cut(before: map<Id, Access>, after: map<Id, Access>, statuses: set<AccessStatus>, sessionId: Id, now: Time) {
    && before.Keys == after.Keys
    && forall id :: id in before ==>
         after[id] == if before[id].sessionId == sessionId && before[id].status in statuses
                      then Access(sessionId, Revoked, Some(now)) else before[id]
  }

  lemma AccessRevoked(db: Db, sessionId: Id, now: Time)
    ensures var after := Cleanup.RevokeAccess(db, sessionId, now);
            && after == db.(grants := after.grants, clients := after.clients)
            && Cut(db.grants, after.grants, {Active, AccessClaimed}, sessionId, now)
            && Cut(db.clients, after.clients, {Active}, sessionId, now)
            && NoAccess(after.grants, sessionId) && (NoneClaimed(db.clients) ==> NoAccess(after.clients, sessionId))
  {
  }

  /** The session's documents and credentials once it has ended. */
  ghost predicate Closed(db: Db, after: Db, sessionId: Id, input: Input) {
    && Cut(db.grants, after.grants, {Active, AccessClaimed}, sessionId, input.now)
    && Cut(db.clients, after.clients, {Active}, sessionId, input.now)
    && NoAccess(after.grants, sessionId) && (NoneClaimed(db.clients) ==> NoAccess(after.clients, sessionId))
    && after.files == Cleanup.ScheduleFiles(db.files, sessionId, input.now, DueAt(input))
    && Cleanup.Scheduled(after, sessionId)
  }

  predicate SameRecords(db: Db, after: Db) {
    && after.jobs == db.jobs && after.commands == db.commands && after.refunds == db.refunds && after.ledger == db.ledger
    && after.audit == db.audit && after.paper == db.paper && after.payments == db.payments
    && after.quotes == db.quotes && after.attempts == db.attempts
  }

  lemma EndingEnds(db: Db, sessionId: Id, input: Input)
    requires sessionId in db.sessions
    ensures var after := EndSession(db, sessionId, input);
            && Closed(db, after, sessionId, input) && SameRecords(db, after) && after.outbox == db.outbox
            && after.sessions == Cleanup.ScheduleSession(db.sessions, sessionId, input.now, DueAt(input))
  {
    hide Cleanup.ScheduleFiles, Cleanup.ScheduleSession, Cleanup.RevokeAccess, Cleanup.Scheduled, NoAccess, Cut, NoneClaimed;
    AccessRevoked(db, sessionId, input.now);
    var revoked := Cleanup.RevokeAccess(db, sessionId, input.now);
    var terminal := TerminalStateOf(input.settlement.sessionState);
    Cleanup.FirstPassSchedules(revoked, sessionId, Cleanup.Pass(input.now, Cleanup.Schedule(terminal, input.retentionPolicy)));
  }

  lemma MoveAnnounces(db: Db, sessionId: Id, read: SessionRow, input: Input)
    requires sessionId in db.sessions && read == db.sessions[sessionId] && PrintJob.Coherent(input.settlement)
    ensures var moved := MoveSession(db, sessionId, read, input);
            && moved == db.(sessions := moved.sessions, outbox := moved.outbox)
            && sessionId in moved.sessions
            && var after := Cleanup.ScheduleSession(moved.sessions, sessionId, input.now, DueAt(input));
            && sessionId in after && after == db.sessions[sessionId := after[sessionId]]
            && Ended(read, after[sessionId], input)
            && moved.outbox == db.outbox + [moved.outbox[|db.outbox|]]
            && Announces(moved.outbox[|db.outbox|], after[sessionId], sessionId, input)
  {
  }

  /** The one session has ended, and its event says so. */
  ghost predicate SessionOver(db: Db, after: Db, sessionId: Id, input: Input)
    requires sessionId in db.sessions
  {
    && sessionId in after.sessions && after.sessions == db.sessions[sessionId := after.sessions[sessionId]]
    && Ended(db.sessions[sessionId], after.sessions[sessionId], input)
    && |after.outbox| == |db.outbox| + 1 && after.outbox[..|db.outbox|] == db.outbox
    && Announces(after.outbox[|db.outbox|], after.sessions[sessionId], sessionId, input)
    && Closed(db, after, sessionId, input)
  }

  lemma ClosedByTables(a: Db, b: Db, after: Db, sessionId: Id, input: Input)
    requires a.grants == b.grants && a.clients == b.clients && a.files == b.files
    ensures Closed(a, after, sessionId, input) <==> Closed(b, after, sessionId, input)
  {
    hide Cut, NoAccess, NoneClaimed, Cleanup.ScheduleFiles, Cleanup.Scheduled;
  }

  lemma MoveWrites(db: Db, read: Job, session: SessionRow, refundId: Option<Id>, input: Input)
    requires read.sessionId in db.sessions && session == db.sessions[read.sessionId] && PrintJob.Coherent(input.settlement)
    requires !KeyTaken(db.outbox, read.sessionId, session.eventSequence + 1)
    ensures MovePhase(db, read, session, refundId, input).Success?
    ensures var p := MovePhase(db, read, session, refundId, input).value;
            && SessionOver(db, p.db, read.sessionId, input) && SameRecords(db, p.db)
            && var row := p.db.sessions[read.sessionId];
               p.phase == Finished(Outcome(true, refundId, Some(row.state), Some(row.stateVersion)))
  {
    hide MoveSession, EndSession, Closed, Announces, GivesReason, KeyTaken, Cleanup.ScheduleSession;
    MoveAnnounces(db, read.sessionId, session, input);
    var moved := MoveSession(db, read.sessionId, session, input);
    EndingEnds(moved, read.sessionId, input);
    ClosedByTables(db, moved, EndSession(moved, read.sessionId, input), read.sessionId, input);
  }

  // ---------- The whole settlement ----------

  /** All that is left in the tables by a settlement that ended its session, and what it reports. */
  ghost predicate Over(db: Db, after: Db, read: Job, input: Input, outcome: Outcome)
    requires read.sessionId in db.sessions
  {
    && Recorded(db, after, read, input, outcome.refundId)
    && SessionOver(db, after, read.sessionId, input)
    && outcome.applied
    && outcome.sessionState == Some(after.sessions[read.sessionId].state)
    && outcome.sessionVersion == Some(after.sessions[read.sessionId].stateVersion)
  }

  /** A settlement whose session has gone, or is not printing, records its outcome and leaves the session be. */
  ghost predicate Beside(db: Db, after: Db, read: Job, input: Input, outcome: Outcome) {
    && Recorded(db, after, read, input, outcome.refundId) && SameSessions(db, after)
    && outcome.applied && outcome.sessionVersion.None?
    && outcome.sessionState == (if read.sessionId in db.sessions then Some(db.sessions[read.sessionId].state) else None)
  }

  lemma RecordedByTables(db: Db, a: Db, b: Db, read: Job, input: Input, refundId: Option<Id>)
    requires Recorded(db, a, read, input, refundId) && SameRecords(a, b)
    ensures Recorded(db, b, read, input, refundId)
  {
    hide OneJobSettled, CommandsClosed, Refunded, Tells, Audits, Deducts;
  }

  lemma SessionOverFrom(a: Db, b: Db, after: Db, sessionId: Id, input: Input)
    requires SameSessions(a, b) && sessionId in a.sessions && SessionOver(b, after, sessionId, input)
    ensures SessionOver(a, after, sessionId, input)
  {
    hide Ended, Announces, Closed;
    ClosedByTables(a, b, after, sessionId, input);
  }

  lemma CommitEnds(db: Db, read: Job, input: Input)
    requires PrintJob.Coherent(input.settlement) && ClaimSucceeds(db, read, input)
    ensures var p := Commit(db, read, FindSession(db, read.sessionId), input);
            if read.sessionId !in db.sessions || db.sessions[read.sessionId].state != Session.Printing then
              p.phase.Finished? && Beside(db, p.db, read, input, p.phase.outcome)
            else if KeyTaken(db.outbox, read.sessionId, db.sessions[read.sessionId].eventSequence + 1) then p == Progress(db, RolledBack)
            else p.phase.Finished? && Over(db, p.db, read, input, p.phase.outcome)
  {
    hide RecordOutcome, ClaimJob, Recorded, SessionOver, KeyTaken, PrintJob.Coherent;
    OutcomeIsRecorded(db, read, input);
    var written := RecordOutcome(ClaimJob(db, input), read, input);
    if read.sessionId in db.sessions && db.sessions[read.sessionId].state == Session.Printing {
      var session := db.sessions[read.sessionId];
      if !KeyTaken(db.outbox, read.sessionId, session.eventSequence + 1) {
        hide MovePhase;
        MoveWrites(written.db, read, session, written.refundId, input);
        var after := MovePhase(written.db, read, session, written.refundId, input).value.db;
        RecordedByTables(db, written.db, after, read, input, written.refundId);
        SessionOverFrom(db, written.db, after, read.sessionId, input);
        assert read.sessionId in after.sessions by {
          assert SessionOver(written.db, after, read.sessionId, input);
        }
      }
    }
  }

  lemma LockedSettlementCommits(db: Db, input: Input)
    requires input.printJobId in db.jobs && IsOpen(db.jobs[input.printJobId].status)
    ensures var read := db.jobs[input.printJobId];
            ApplySettlement(db, input) == Commit(db, read, FindSession(db, read.sessionId), input)
  {
    hide Commit;
  }

  /**
   * A settlement of an open job records its outcome once in every table. If its session is
   * printing it ends that session: the row, the event, the ledger, the audit trail and the
   * commands all tell the one outcome, nobody can upload to the session any more, and its
   * documents have their deadlines. Only if its event's number is taken does it do nothing
   * at all.
   */
  lemma SettledSessionIsOver(db: Db, input: Input)
    requires PrintJob.Coherent(input.settlement)
    requires input.printJobId in db.jobs && IsOpen(db.jobs[input.printJobId].status)
    ensures var read := db.jobs[input.printJobId];
            var p := ApplySettlement(db, input);
            if read.sessionId !in db.sessions || db.sessions[read.sessionId].state != Session.Printing then
              p.phase.Finished? && Beside(db, p.db, read, input, p.phase.outcome)
            else if KeyTaken(db.outbox, read.sessionId, db.sessions[read.sessionId].eventSequence + 1) then p == Progress(db, RolledBack)
            else p.phase.Finished? && Over(db, p.db, read, input, p.phase.outcome)
  {
    hide ApplySettlement, Commit, Over, Beside, KeyTaken, PrintJob.Coherent;
    LockedSettlementCommits(db, input);
    CommitEnds(db, db.jobs[input.printJobId], input);
  }

  /**
   * The body of a settlement, on the tables alone: a job that is gone or settled is left
   * alone, an open one has its outcome recorded, and a number that is taken is thrown.
   */
  ghost predicate Settles(db: Db, after: Db, input: Input, r: Result<Outcome, UniqueViolation>) {
    if input.printJobId !in db.jobs || db.jobs[input.printJobId].status.Settled? then
      after == db && r == Success(Outcome(false, None, None, None))
    else
      var read := db.jobs[input.printJobId];
      if read.sessionId !in db.sessions || db.sessions[read.sessionId].state != Session.Printing then
        r.Success? && Beside(db, after, read, input, r.value)
      else if KeyTaken(db.outbox, read.sessionId, db.sessions[read.sessionId].eventSequence + 1) then
        r == Failure(OutboxSequenceTaken)
      else r.Success? && Over(db, after, read, input, r.value)
  }

  lemma ApplyingSettles(db: Db, after: Db, input: Input, r: Result<Outcome, UniqueViolation>)
    requires PrintJob.Coherent(input.settlement)
    requires r.Success? ==> Progress(after, Finished(r.value)) == ApplySettlement(db, input)
    requires r.Failure? ==> ApplySettlement(db, input) == Progress(db, RolledBack)
    ensures Settles(db, after, input, r)
  {
    hide Over, Beside, KeyTaken, Commit, PrintJob.Coherent;
    assert r.Failure? ==> r.error.OutboxSequenceTaken?;
    if input.printJobId in db.jobs && IsOpen(db.jobs[input.printJobId].status) {
      SettledSessionIsOver(db, input);
      hide ApplySettlement;
    }
  }
}
