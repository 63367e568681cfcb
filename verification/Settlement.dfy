/**
 * Writing one settled print outcome: packages/database/src/print-jobs.ts and the paper
 * deduction of packages/database/src/kiosk-paper.ts. Each function is one statement of
 * the source over the tables; a guarded update looks at the row again.
 */
module Settlement {
  import opened Records
  import opened Wrappers
  import Cleanup
  import PrintJob
  import Session

  datatype Input = Input(
    printJobId: Id, settlement: PrintJob.Settlement, operationId: Option<Id>, ledgerType: LedgerType,
    now: Time, newRefundId: Id, retentionPolicy: Cleanup.CheckedPolicy)

  datatype Outcome = Outcome(
    applied: bool, refundId: Option<Id>, sessionState: Option<Session.SessionState>, sessionVersion: Option<int>)

  const NOT_APPLIED := Outcome(false, None, None, None)

  predicate IsOpen(status: JobStatus) {
    !status.Settled?
  }

  // ---------- The job and its commands ----------

  function SettledRow(row: Job, input: Input): Job {
    var s := input.settlement;
    row.(status := Settled(s.status), resultConfidence := Known(s.resultConfidence), failureCode := s.failureCode,
         warningCode := s.warningCode, sheetsProduced := s.sheetsProduced, updatedAt := input.now,
         completedAt := if s.status.JobCompleted? then Some(input.now) else row.completedAt,
         failedAt := if s.status.JobCompleted? then row.failedAt else Some(input.now))
  }

  /** The guarded update succeeds when the row still has the status that was read. */
  predicate ClaimSucceeds(db: Db, read: Job, input: Input) {
    input.printJobId in db.jobs && db.jobs[input.printJobId].status == read.status
  }

  function ClaimJob(db: Db, input: Input): Db
    requires input.printJobId in db.jobs
  {
    db.(jobs := db.jobs[input.printJobId := SettledRow(db.jobs[input.printJobId], input)])
  }

  function StatusName(status: PrintJob.SettledStatus): string {
    match status
    case JobCompleted => "COMPLETED"
    case JobFailed => "FAILED"
    case JobCanceled => "CANCELED"
    case JobRecoveryRequired => "RECOVERY_REQUIRED"
  }

  function CloseCommand(c: Command, input: Input): Command {
    if c.printJobId == input.printJobId && (c.status == CommandPending || c.status == CommandClaimed) then
      c.(status := if input.settlement.status.JobCompleted? then CommandCompleted else CommandFailed,
         claimToken := None, leaseExpiresAt := None,
         resultCode := Some(PrintJob.OrElse(input.settlement.failureCode, StatusName(input.settlement.status))),
         completedAt := Some(input.now), updatedAt := input.now)
    else c
  }

  function CloseCommands(db: Db, input: Input): Db {
    db.(commands := Cleanup.UpdateMany(db.commands, c => CloseCommand(c, input)))
  }

  // ---------- The money ----------

  /** A capture applied to this session that actually moved money. */
  predicate OwedOn(db: Db, paymentId: Id, sessionId: Id) {
    && paymentId in db.payments
    && db.payments[paymentId].sessionId == sessionId
    && db.payments[paymentId].status == Captured
    && db.payments[paymentId].appliedToSession
    && db.payments[paymentId].amountMinor != 0
  }

  /** The unique key of the upsert: one obligation per payment and reason. */
  function FindRefund(refunds: seq<Refund>, paymentId: Id, reason: RefundReason): Option<Refund> {
    if refunds == [] then None
    else if refunds[0].paymentId == paymentId && refunds[0].reason == reason then Some(refunds[0])
    else FindRefund(refunds[1..], paymentId, reason)
  }

  datatype Compensated = Compensated(db: Db, refundId: Option<Id>)

  function Compensate(db: Db, paymentId: Id, sessionId: Id, input: Input): Compensated {
    if !OwedOn(db, paymentId, sessionId) then Compensated(db, None)
    else
      match FindRefund(db.refunds, paymentId, PrintFailed)
      case Some(existing) => Compensated(db, Some(existing.id))
      case None =>
        var refund := Refund(input.newRefundId, paymentId, sessionId, PrintFailed, db.payments[paymentId].amountMinor, input.now);
        Compensated(db.(refunds := db.refunds + [refund]), Some(refund.id))
  }

  // ---------- The ledger ----------

  function LatestSequence(ledger: seq<LedgerEntry>, printJobId: Id): int {
    if ledger == [] then 0
    else
      var earlier, last := LatestSequence(ledger[..|ledger| - 1], printJobId), ledger[|ledger| - 1];
      if last.printJobId == printJobId then Max(earlier, last.sequence) else earlier
  }

  function RecordEvent(db: Db, input: Input, refundId: Option<Id>): Db {
    var s := input.settlement;
    var entry := LedgerEntry(
      input.printJobId, LatestSequence(db.ledger, input.printJobId) + 1, input.ledgerType, Settled(s.status),
      input.operationId, Known(s.resultConfidence), s.failureCode, s.warningCode, s.sheetsProduced,
      refundId.Some?, input.now);
    db.(ledger := db.ledger + [entry])
  }

  // ---------- The paper ----------

  datatype Deducted = Deducted(db: Db, deduction: Deduction)

  function DeductPaper(db: Db, kioskId: Id, sheetsProduced: int): Deducted {
    if kioskId !in db.paper then Deducted(db, Deduction(sheetsProduced, 0, false, None))
    else
      var applied := Min(db.paper[kioskId], Max(0, sheetsProduced));
      var remaining := db.paper[kioskId] - applied;
      Deducted(db.(paper := db.paper[kioskId := remaining]), Deduction(sheetsProduced, -applied, true, Some(remaining)))
  }

  predicate ConsumesPaper(s: PrintJob.Settlement) {
    s.status.JobCompleted? && s.resultConfidence.Confirmed? && s.sheetsProduced.Some? && s.sheetsProduced.value > 0
  }

  function AuditOf(read: Job, input: Input, paper: Option<Deduction>, refundId: Option<Id>): AuditEvent {
    AuditEvent(input.printJobId, read.kioskId, read.sessionId, input.settlement.status, input.settlement.resultConfidence,
               paper, input.settlement.failureCode, refundId, input.now)
  }

  function DeductAndAudit(db: Db, read: Job, input: Input, refundId: Option<Id>): Db {
    if ConsumesPaper(input.settlement) then
      var Deducted(after, deduction) := DeductPaper(db, read.kioskId, input.settlement.sheetsProduced.value);
      after.(audit := after.audit + [AuditOf(read, input, Some(deduction), refundId)])
    else
      db.(audit := db.audit + [AuditOf(read, input, None, refundId)])
  }

  /** The commands closed, and the obligation if money bought nothing. */
  function Paid(db: Db, read: Job, input: Input): Compensated {
    var closed := CloseCommands(db, input);
    if input.settlement.refundObligation then Compensate(closed, read.paymentId, read.sessionId, input)
    else Compensated(closed, None)
  }

  /** Everything written once the job is claimed and before the session is looked at. */
  function RecordOutcome(db: Db, read: Job, input: Input): Compensated {
    var paid := Paid(db, read, input);
    var recorded := RecordEvent(paid.db, input, paid.refundId);
    Compensated(DeductAndAudit(recorded, read, input, paid.refundId), paid.refundId)
  }

  // ---------- The session ----------

  function SessionStateOf(s: PrintJob.SettledSession): Session.SessionState {
    match s
    case SessionCompleted => Session.Completed
    case SessionFailed => Session.Failed
    case SessionRecoveryRequired => Session.RecoveryRequired
  }

  function TerminalStateOf(s: PrintJob.SettledSession): Cleanup.TerminalState {
    match s
    case SessionCompleted => Cleanup.Completed
    case SessionFailed => Cleanup.Failed
    case SessionRecoveryRequired => Cleanup.RecoveryRequired
  }

  /** `.slice(0, 80)` */
  function Slice80(s: string): string {
    if |s| <= 80 then s else s[..80]
  }

  function TerminalReason(s: PrintJob.Settlement): string {
    if s.sessionState.SessionCompleted? then "PRINT_COMPLETED" else Slice80(PrintJob.OrElse(s.failureCode, "DEVICE_ERROR"))
  }

  function EventOf(input: Input, version: int): EventBody {
    var s := input.settlement;
    if s.sessionState.SessionCompleted? then EventBody.SessionCompleted(version)
    else PrintStopped(SessionStateOf(s.sessionState), version, input.printJobId,
                      PrintJob.OrElse(s.failureCode, "DEVICE_ERROR"), s.resultConfidence)
  }

  /** The guard is the version that was read, not the event sequence. */
  predicate MoveSucceeds(db: Db, sessionId: Id, read: SessionRow) {
    sessionId in db.sessions && db.sessions[sessionId].stateVersion == read.stateVersion
  }

  function MovedRow(row: SessionRow, read: SessionRow, input: Input): SessionRow {
    row.(state := SessionStateOf(input.settlement.sessionState), stateVersion := read.stateVersion + 1,
         eventSequence := read.eventSequence + 1, terminalReason := Some(TerminalReason(input.settlement)),
         updatedAt := input.now,
         completedAt := if input.settlement.sessionState.SessionCompleted? then Some(input.now) else row.completedAt)
  }

  /** The unique index on (aggregate_id, sequence) of the outbox. */
  predicate KeyTaken(outbox: seq<OutboxEvent>, sessionId: Id, sequence: int) {
    exists i :: 0 <= i < |outbox| && outbox[i].sessionId == sessionId && outbox[i].sequence == sequence
  }

  function MoveSession(db: Db, sessionId: Id, read: SessionRow, input: Input): Db
    requires sessionId in db.sessions
  {
    db.(sessions := db.sessions[sessionId := MovedRow(db.sessions[sessionId], read, input)],
        outbox := db.outbox + [OutboxEvent(sessionId, read.eventSequence + 1, EventOf(input, read.stateVersion + 1))])
  }

  function EndSession(db: Db, sessionId: Id, input: Input): Db {
    var revoked := Cleanup.RevokeAccess(db, sessionId, input.now);
    var terminal := TerminalStateOf(input.settlement.sessionState);
    Cleanup.ScheduleCleanup(revoked, sessionId, input.now, Some(Cleanup.Schedule(terminal, input.retentionPolicy))).value
  }

  // ---------- The whole transaction ----------

  /**
   * A transaction reads the job, claims it, and reads the session; others may commit
   * between those moments. The claim holds the job's row until the end, and what it
   * writes is seen by nobody before it commits. A refused insert rolls all of it back.
   */
  datatype Phase =
    | Start
    | Claiming(job: Job)
    | Moving(job: Job, session: Option<SessionRow>)
    | Finished(outcome: Outcome)
    | RolledBack

  datatype Progress = Progress(db: Db, phase: Phase)

  datatype UniqueViolation = OutboxSequenceTaken

  function ReadJob(db: Db, input: Input): Phase {
    if input.printJobId !in db.jobs || !IsOpen(db.jobs[input.printJobId].status) then Finished(NOT_APPLIED)
    else Claiming(db.jobs[input.printJobId])
  }

  function FindSession(db: Db, sessionId: Id): Option<SessionRow> {
    if sessionId in db.sessions then Some(db.sessions[sessionId]) else None
  }

  /** A claim whose guard fails ends here; the session is read once it has not. */
  function ClaimPhase(db: Db, read: Job, input: Input): Phase {
    if !ClaimSucceeds(db, read, input) then Finished(NOT_APPLIED) else Moving(read, FindSession(db, read.sessionId))
  }

  function MovePhase(db: Db, read: Job, session: SessionRow, refundId: Option<Id>, input: Input): Result<Progress, UniqueViolation> {
    if !MoveSucceeds(db, read.sessionId, session) then
      Success(Progress(db, Finished(Outcome(true, refundId, Some(session.state), None))))
    else if KeyTaken(db.outbox, read.sessionId, session.eventSequence + 1) then Failure(OutboxSequenceTaken)
    else
      var moved := MoveSession(db, read.sessionId, session, input);
      Success(Progress(
        EndSession(moved, read.sessionId, input),
        Finished(Outcome(true, refundId, Some(SessionStateOf(input.settlement.sessionState)), Some(session.stateVersion + 1)))))
  }

  /** Every write of the transaction, in order, over the session row it has read. */
  function WriteAll(db: Db, read: Job, session: Option<SessionRow>, input: Input): Result<Progress, UniqueViolation>
    requires input.printJobId in db.jobs
  {
    var written := RecordOutcome(ClaimJob(db, input), read, input);
    match session
    case None => Success(Progress(written.db, Finished(Outcome(true, written.refundId, None, None))))
    case Some(row) =>
      if row.state != Session.Printing then
        Success(Progress(written.db, Finished(Outcome(true, written.refundId, Some(row.state), None))))
      else MovePhase(written.db, read, row, written.refundId, input)
  }

  /** A claim that waited for another's row finds that one's outcome, and does nothing. */
  function Commit(db: Db, read: Job, session: Option<SessionRow>, input: Input): Progress {
    if !ClaimSucceeds(db, read, input) then Progress(db, Finished(NOT_APPLIED))
    else
      match WriteAll(db, read, session, input)
      case Success(progress) => progress
      case Failure(_) => Progress(db, RolledBack)
  }

  /** One phase of one settlement. */
  function Advance(db: Db, phase: Phase, input: Input): Progress {
    match phase
    case Start => Progress(db, ReadJob(db, input))
    case Claiming(job) => Progress(db, ClaimPhase(db, job, input))
    case Moving(job, session) => Commit(db, job, session, input)
    case _ => Progress(db, phase)
  }

  /** All phases with nobody in between, as under the session row lock. */
  function ApplySettlement(db: Db, input: Input): Progress {
    var read := Advance(db, Start, input);
    var claimed := Advance(read.db, read.phase, input);
    Advance(claimed.db, claimed.phase, input)
  }
}
