/**
 * The rows the paid-print path reads and writes, as values. Identifiers are UUIDs,
 * taken as the numbers they are, instants are milliseconds, and only the columns this
 * path uses are kept.
 */
module Records {
  import opened Wrappers
  import PrintJob
  import Session

  type Id = nat
  type Time = int

  datatype JobStatus = Queued | Dispatched | Printing | Settled(as_: PrintJob.SettledStatus)

  datatype JobConfidence = Unknown | Known(confidence: PrintJob.Confidence)

  datatype Job = Job(
    sessionId: Id, paymentId: Id, kioskId: Id, status: JobStatus, resultConfidence: JobConfidence,
    failureCode: Option<string>, warningCode: Option<string>, sheetsProduced: Option<int>,
    completedAt: Option<Time>, failedAt: Option<Time>, updatedAt: Time)

  datatype CommandStatus = CommandPending | CommandClaimed | CommandCompleted | CommandFailed

  datatype Command = Command(
    printJobId: Id, status: CommandStatus, claimToken: Option<Id>, leaseExpiresAt: Option<Time>,
    resultCode: Option<string>, completedAt: Option<Time>, updatedAt: Time)

  datatype PaymentStatus = Pending | Authorized | Captured | Declined | PaymentCanceled | TimedOut

  datatype Payment = Payment(
    sessionId: Id, status: PaymentStatus, appliedToSession: bool, amountMinor: int,
    failureCode: Option<string>, failedAt: Option<Time>, updatedAt: Time)

  datatype RefundReason = PrintFailed | OtherReason(name: string)

  datatype Refund = Refund(id: Id, paymentId: Id, sessionId: Id, reason: RefundReason, amountMinor: int, createdAt: Time)

  datatype LedgerType =
    | JobCreated | JobDispatched | JobClaimed | JobSubmitted | JobProgress | JobCompleted | JobFailed
    | CancelRequested | JobCanceled | RecoveryRequired | LeaseExpired | DeadlineExceeded

  datatype LedgerEntry = LedgerEntry(
    printJobId: Id, sequence: int, ledgerType: LedgerType, status: JobStatus, operationId: Option<Id>,
    resultConfidence: JobConfidence, failureCode: Option<string>, warningCode: Option<string>,
    sheetsProduced: Option<int>, refundRecorded: bool, createdAt: Time)

  datatype Deduction = Deduction(
    consumedSheets: int, estimateDeltaSheets: int, estimateAffected: bool, estimatedSheets: Option<int>)

  datatype AuditEvent = AuditEvent(
    printJobId: Id, kioskId: Id, sessionId: Id, status: PrintJob.SettledStatus, resultConfidence: PrintJob.Confidence,
    paper: Option<Deduction>, failureCode: Option<string>, refundId: Option<Id>, occurredAt: Time)

  datatype CleanupStatus = NotDue | CleanupPending | InProgress | Done | DeadLetter

  datatype SessionRow = SessionRow(
    state: Session.SessionState, stateVersion: int, eventSequence: int, terminalReason: Option<string>,
    activeQuoteId: Option<Id>, currentSettingsRevision: Option<int>,
    cleanupStatus: CleanupStatus, cleanupDueAt: Option<Time>, completedAt: Option<Time>, updatedAt: Time)

  datatype InvalidationReason = SettingsChanged | DocumentsChanged | Superseded | SessionTerminal

  datatype EventBody =
    | SessionCompleted(version: int)
    | PrintStopped(state: Session.SessionState, version: int, printJobId: Id, failureCode: string,
                   resultConfidence: PrintJob.Confidence)
    | PaymentFailed(paymentId: Id, state: Session.SessionState, version: int)
    | QuoteInvalidated(quoteId: Id, reason: InvalidationReason)
    | OtherEvent(name: string)

  datatype OutboxEvent = OutboxEvent(sessionId: Id, sequence: int, body: EventBody)

  datatype FileStatus = Uploading | Quarantined | Validating | Ready | Rejected | Deleting | DeletePending | Deleted

  datatype File = File(
    sessionId: Id, status: FileStatus, processingGeneration: int, processingClaimToken: Option<Id>,
    processingLeaseExpiresAt: Option<Time>, processingEnqueuedAt: Option<Time>, deleteRequestedAt: Option<Time>,
    cleanupDueAt: Option<Time>, cleanupErrorCode: Option<string>, updatedAt: Time)

  datatype AccessStatus = Active | AccessClaimed | Revoked | AccessExpired

  /** An upload grant or a mobile client. */
  datatype Access = Access(sessionId: Id, status: AccessStatus, revokedAt: Option<Time>)

  datatype QuoteStatus = ActiveQuote | Invalidated | Accepted | QuoteExpired

  datatype QuoteRow = QuoteRow(
    sessionId: Id, status: QuoteStatus, invalidatedAt: Option<Time>, invalidationReason: Option<InvalidationReason>)

  datatype PaymentAttempt = PaymentAttempt(paymentId: Id, attempt: int, createdAt: Time)

  /** Every table the path touches, at one moment. */
  datatype Db = Db(
    jobs: map<Id, Job>, commands: map<Id, Command>, payments: map<Id, Payment>, refunds: seq<Refund>,
    ledger: seq<LedgerEntry>, audit: seq<AuditEvent>, paper: map<Id, int>, sessions: map<Id, SessionRow>,
    outbox: seq<OutboxEvent>, files: map<Id, File>, grants: map<Id, Access>, clients: map<Id, Access>,
    quotes: map<Id, QuoteRow>, attempts: seq<PaymentAttempt>)
}
