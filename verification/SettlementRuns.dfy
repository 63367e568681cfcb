/**
 * Any number of settlements interleaved with each other and with every other writer of
 * the tables, between the moments at which packages/database/src/print-jobs.ts, lines
 * 180-340, reads the job, claims it, reads the session, and commits.
 */
module SettlementRuns {
  import opened Records
  import opened Wrappers
  import opened Settlement
  import Cleanup
  import PrintJob
  import Session

  // ---------- The system ----------

  datatype Txn = Txn(input: Input, phase: Phase)

  datatype System = System(db: Db, txns: seq<Txn>)

  /** One phase of one settlement, or whatever another transaction committed meanwhile. */
  datatype Event = Settle(i: nat) | Elsewhere(after: Db)

  function Next(s: System, e: Event): System {
    match e
    case Settle(i) =>
      if i >= |s.txns| then s
      else
        var Progress(db, phase) := Advance(s.db, s.txns[i].phase, s.txns[i].input);
        System(db, s.txns[i := Txn(s.txns[i].input, phase)])
    case Elsewhere(after) => System(after, s.txns)
  }

  function After(start: System, events: seq<Event>, k: nat): System
    requires k <= |events|
  {
    if k == 0 then start else Next(After(start, events, k - 1), events[k - 1])
  }

  // ---------- What the other writers may do ----------

  predicate SameOwner(a: Job, b: Job) {
    a.sessionId == b.sessionId && a.paymentId == b.paymentId && a.kioskId == b.kioskId
  }

  /** The same settled row, but for its modification time. */
  predicate SameOutcome(a: Job, b: Job) {
    b == a.(updatedAt := b.updatedAt)
  }

  /** Dispatch and progress move open jobs; nobody else settles one or rewrites a settled one. */
  predicate JobKept(before: Job, after: Job) {
    if IsOpen(before.status) then SameOwner(before, after) && IsOpen(after.status) else SameOutcome(before, after)
  }

  /** One job per session is a unique index; a job prints with its session's own payment. */
  ghost predicate OneJobPerPayment(db: Db) {
    forall a, b :: a in db.jobs && b in db.jobs && db.jobs[a].paymentId == db.jobs[b].paymentId ==> a == b
  }

  predicate SamePayment(before: Db, after: Db, id: Id) {
    && (id in before.payments <==> id in after.payments)
    && (id in before.payments ==>
          var p, q := before.payments[id], after.payments[id];
          p.sessionId == q.sessionId && p.status == q.status && p.appliedToSession == q.appliedToSession && p.amountMinor == q.amountMinor)
  }

  /** A new version for every change of state. */
  predicate SessionKept(before: SessionRow, after: SessionRow) {
    before.stateVersion <= after.stateVersion && (before.stateVersion == after.stateVersion ==> before.state == after.state)
  }

  /** Refunds are only ever added, and only a settlement adds the one for a failed print. */
  ghost predicate RefundsKept(before: seq<Refund>, after: seq<Refund>) {
    && |before| <= |after|
    && (forall n :: 0 <= n < |before| ==> after[n] == before[n])
    && (forall n :: |before| <= n < |after| ==> after[n].reason != PrintFailed)
  }

  ghost predicate Rely(before: Db, after: Db) {
    && (forall id :: id in before.jobs ==> id in after.jobs && JobKept(before.jobs[id], after.jobs[id]))
    && (forall id :: id in after.jobs && id !in before.jobs ==> IsOpen(after.jobs[id].status))
    && OneJobPerPayment(after)
    && (forall id :: id in before.jobs ==> SamePayment(before, after, before.jobs[id].paymentId))
    && RefundsKept(before.refunds, after.refunds)
    && (forall id :: id in before.sessions ==> id in after.sessions && SessionKept(before.sessions[id], after.sessions[id]))
    && after.audit == before.audit
  }

  ghost predicate Lawful(start: System, events: seq<Event>) {
    forall k :: 0 <= k < |events| && events[k].Elsewhere? ==> Rely(After(start, events, k).db, events[k].after)
  }

  // ---------- What a settlement does to each table ----------

  lemma CompensateReads(a: Db, b: Db, read: Job, input: Input)
    requires a.payments == b.payments && a.refunds == b.refunds
    ensures var owed := Compensate(a, read.paymentId, read.sessionId, input);
            && owed.db == a.(refunds := owed.db.refunds)
            && owed.db.refunds == Compensate(b, read.paymentId, read.sessionId, input).db.refunds
            && owed.refundId == Compensate(b, read.paymentId, read.sessionId, input).refundId
  {
    hide FindRefund;
    assert OwedOn(a, read.paymentId, read.sessionId) <==> OwedOn(b, read.paymentId, read.sessionId);
    hide OwedOn;
  }

  lemma DeductReads(a: Db, b: Db, kioskId: Id, sheets: int)
    requires a.paper == b.paper
    ensures var d := DeductPaper(a, kioskId, sheets);
            && d.db == a.(paper := d.db.paper)
            && d.db.paper == DeductPaper(b, kioskId, sheets).db.paper
            && d.deduction == DeductPaper(b, kioskId, sheets).deduction
  {
  }

  predicate AuditedAs(e: AuditEvent, db: Db, read: Job, input: Input) {
    && e.printJobId == input.printJobId && e.kioskId == read.kioskId && e.sessionId == read.sessionId
    && e.failureCode == input.settlement.failureCode && e.occurredAt == input.now
    && e.status == input.settlement.status && e.resultConfidence == input.settlement.resultConfidence
    && e.paper == (if ConsumesPaper(input.settlement) then Some(DeductPaper(db, read.kioskId, input.settlement.sheetsProduced.value).deduction)
                   else None)
  }

  function RefundsAfter(db: Db, read: Job, input: Input): seq<Refund> {
    if input.settlement.refundObligation then Compensate(db, read.paymentId, read.sessionId, input).db.refunds else db.refunds
  }

  function PaperAfter(db: Db, read: Job, input: Input): map<Id, int> {
    if ConsumesPaper(input.settlement) then DeductPaper(db, read.kioskId, input.settlement.sheetsProduced.value).db.paper else db.paper
  }

  lemma AuditEffect(recorded: Db, db: Db, read: Job, input: Input, refundId: Option<Id>)
    requires recorded.paper == db.paper && recorded.audit == db.audit
    ensures var after := DeductAndAudit(recorded, read, input, refundId);
            && after == recorded.(paper := after.paper, audit := after.audit)
            && after.paper == PaperAfter(db, read, input)
            && |after.audit| == |db.audit| + 1 && after.audit[..|db.audit|] == db.audit
            && AuditedAs(after.audit[|db.audit|], db, read, input)
  {
    hide DeductPaper;
    if ConsumesPaper(input.settlement) {
      DeductReads(recorded, db, read.kioskId, input.settlement.sheetsProduced.value);
    }
  }

  lemma PaidEffect(db: Db, read: Job, input: Input)
    ensures var paid := Paid(db, read, input).db;
            && paid == db.(commands := paid.commands, refunds := paid.refunds)
            && paid.refunds == RefundsAfter(db, read, input)
  {
    hide Compensate;
    CompensateReads(CloseCommands(db, input), db, read, input);
  }

  lemma RecordsOnly(db: Db, input: Input, refundId: Option<Id>)
    ensures var after := RecordEvent(db, input, refundId); after == db.(ledger := after.ledger)
  {
  }

  lemma OutcomeEffect(db: Db, read: Job, input: Input)
    ensures var after := RecordOutcome(db, read, input).db;
            && after == db.(commands := after.commands, refunds := after.refunds, ledger := after.ledger,
                            paper := after.paper, audit := after.audit)
            && after.refunds == RefundsAfter(db, read, input)
            && after.paper == PaperAfter(db, read, input)
            && |after.audit| == |db.audit| + 1 && after.audit[..|db.audit|] == db.audit
            && AuditedAs(after.audit[|db.audit|], db, read, input)
  {
    hide Paid, RefundsAfter, PaperAfter, AuditedAs, RecordEvent, DeductAndAudit;
    PaidEffect(db, read, input);
    var paid := Paid(db, read, input);
    RecordsOnly(paid.db, input, paid.refundId);
    AuditEffect(RecordEvent(paid.db, input, paid.refundId), db, read, input, paid.refundId);
  }

  /** Everything an applied settlement does to the job, the money, the paper and the audit trail. */
  predicate Written(db: Db, after: Db, read: Job, input: Input) {
    && input.printJobId in db.jobs
    && after.jobs == db.jobs[input.printJobId := SettledRow(db.jobs[input.printJobId], input)]
    && after.payments == db.payments && after.quotes == db.quotes && after.attempts == db.attempts
    && after.refunds == RefundsAfter(db, read, input)
    && after.paper == PaperAfter(db, read, input)
    && |after.audit| == |db.audit| + 1 && after.audit[..|db.audit|] == db.audit
    && AuditedAs(after.audit[|db.audit|], db, read, input)
  }

  lemma ClaimedReads(claimed: Db, db: Db, read: Job, input: Input, e: AuditEvent)
    requires claimed == db.(jobs := claimed.jobs) && AuditedAs(e, claimed, read, input)
    ensures RefundsAfter(claimed, read, input) == RefundsAfter(db, read, input)
    ensures PaperAfter(claimed, read, input) == PaperAfter(db, read, input)
    ensures AuditedAs(e, db, read, input)
  {
    hide Compensate, DeductPaper;
    CompensateReads(claimed, db, read, input);
    if ConsumesPaper(input.settlement) {
      DeductReads(claimed, db, read.kioskId, input.settlement.sheetsProduced.value);
    }
  }

  lemma WriteEffect(db: Db, read: Job, input: Input)
    requires input.printJobId in db.jobs
    ensures var after := RecordOutcome(ClaimJob(db, input), read, input).db;
            && Written(db, after, read, input)
            && after.sessions == db.sessions && after.outbox == db.outbox
            && after.files == db.files && after.grants == db.grants && after.clients == db.clients
  {
    hide SettledRow, RecordOutcome, RefundsAfter, PaperAfter, AuditedAs;
    var claimed := ClaimJob(db, input);
    OutcomeEffect(claimed, read, input);
    ClaimedReads(claimed, db, read, input, RecordOutcome(claimed, read, input).db.audit[|db.audit|]);
  }

  /** The one row a settlement may move, from the version that was read to the next. */
  predicate MovedAtMost(db: Db, after: Db, read: Job, session: Option<SessionRow>, input: Input) {
    && after.sessions.Keys == db.sessions.Keys
    && forall id :: id in db.sessions ==>
         || after.sessions[id] == db.sessions[id]
         || (&& id == read.sessionId && session.Some? && session.value.state == Session.Printing
             && db.sessions[id].stateVersion == session.value.stateVersion
             && after.sessions[id].state == SessionStateOf(input.settlement.sessionState)
             && after.sessions[id].stateVersion == session.value.stateVersion + 1)
  }

  lemma RevokeKeeps(db: Db, sessionId: Id, now: Time)
    ensures var after := Cleanup.RevokeAccess(db, sessionId, now);
            after == db.(grants := after.grants, clients := after.clients)
  {
  }

  lemma MoveEffect(db: Db, read: Job, session: SessionRow, refundId: Option<Id>, input: Input)
    requires session.state == Session.Printing && MovePhase(db, read, session, refundId, input).Success?
    ensures var p := MovePhase(db, read, session, refundId, input).value;
            && p.db == db.(sessions := p.db.sessions, outbox := p.db.outbox, files := p.db.files,
                           grants := p.db.grants, clients := p.db.clients)
            && p.phase.Finished? && p.phase.outcome.applied && p.phase.outcome.refundId == refundId
            && MovedAtMost(db, p.db, read, Some(session), input)
  {
    hide Cleanup.ScheduleFiles, Cleanup.RevokeAccess, Slice80, EventOf;
    if MoveSucceeds(db, read.sessionId, session) {
      RevokeKeeps(MoveSession(db, read.sessionId, session, input), read.sessionId, input.now);
    }
  }

  predicate Applied(phase: Phase) {
    phase.Finished? && phase.outcome.applied
  }

  lemma WrittenByTables(db: Db, a: Db, b: Db, read: Job, input: Input)
    requires Written(db, a, read, input)
    requires b.jobs == a.jobs && b.payments == a.payments && b.quotes == a.quotes && b.attempts == a.attempts
    requires b.refunds == a.refunds && b.paper == a.paper && b.audit == a.audit
    ensures Written(db, b, read, input)
  {
  }

  /** A commit either writes everything, over a job that was still as read, or nothing at all. */
  lemma CommitEffect(db: Db, read: Job, session: Option<SessionRow>, input: Input)
    ensures var p := Commit(db, read, session, input);
            && (!Applied(p.phase) ==> p.db == db && (p.phase.RolledBack? || p.phase == Finished(NOT_APPLIED)))
            && (Applied(p.phase) ==>
                  && ClaimSucceeds(db, read, input)
                  && Written(db, p.db, read, input)
                  && MovedAtMost(db, p.db, read, session, input))
  {
    hide Written, RecordOutcome, MovePhase, ClaimJob;
    if ClaimSucceeds(db, read, input) {
      WriteEffect(db, read, input);
      var written := RecordOutcome(ClaimJob(db, input), read, input);
      if session.Some? && session.value.state == Session.Printing && MovePhase(written.db, read, session.value, written.refundId, input).Success? {
        MoveEffect(written.db, read, session.value, written.refundId, input);
        WrittenByTables(db, written.db, Commit(db, read, session, input).db, read, input);
      }
    }
  }

  /** What a phase can be, for whoever reasons about its effect: a read, nothing, or a whole commit. */
  lemma PhaseEffect(db: Db, phase: Phase, input: Input)
    ensures var p := Advance(db, phase, input);
            && (!Applied(p.phase) || Applied(phase) ==> p.db == db)
            && (Applied(phase) ==> p.phase == phase)
            && (Applied(p.phase) && !Applied(phase) ==>
                  && phase.Moving? && ClaimSucceeds(db, phase.job, input)
                  && Written(db, p.db, phase.job, input)
                  && MovedAtMost(db, p.db, phase.job, phase.session, input))
  {
    hide Commit, Written, MovedAtMost;
    if phase.Moving? {
      CommitEffect(db, phase.job, phase.session, input);
    }
  }

  // ---------- What every run keeps ----------

  predicate Won(t: Txn) {
    Applied(t.phase)
  }

  /** A job that was open when it was read still has its owner. */
  predicate JobReadHolds(db: Db, read: Job, input: Input) {
    input.printJobId in db.jobs && IsOpen(read.status) && SameOwner(read, db.jobs[input.printJobId])
  }

  /** The row says what the settlement said, and when it was said. */
  predicate Carries(j: Job, input: Input) {
    var s := input.settlement;
    && j.status == Settled(s.status) && j.resultConfidence == Known(s.resultConfidence)
    && j.sheetsProduced == s.sheetsProduced && j.failureCode == s.failureCode && j.warningCode == s.warningCode
    && (if s.status == PrintJob.JobCompleted then j.completedAt == Some(input.now) else j.failedAt == Some(input.now))
  }

  predicate ReadsHold(db: Db, t: Txn) {
    && PrintJob.Coherent(t.input.settlement)
    && (t.phase.Claiming? || t.phase.Moving? ==> JobReadHolds(db, t.phase.job, t.input))
    && (t.phase.Moving? && t.phase.session.Some? ==>
          && t.phase.job.sessionId in db.sessions
          && SessionKept(t.phase.session.value, db.sessions[t.phase.job.sessionId]))
    && (Won(t) ==>
          && t.input.printJobId in db.jobs
          && Carries(db.jobs[t.input.printJobId], t.input))
  }

  ghost predicate Consistent(s: System) {
    && (forall i :: 0 <= i < |s.txns| ==> ReadsHold(s.db, s.txns[i]))
    && (forall i, j :: 0 <= i < j < |s.txns| && Won(s.txns[i]) && Won(s.txns[j]) ==>
          s.txns[i].input.printJobId != s.txns[j].input.printJobId)
  }

  predicate Untouched(t: Txn) {
    t.phase.Start? && PrintJob.Coherent(t.input.settlement)
  }

  ghost predicate Starting(s: System) {
    forall i :: 0 <= i < |s.txns| ==> Untouched(s.txns[i])
  }

  /** What holds of one settlement's reads holds after a phase of another. */
  lemma PhaseKeepsReads(db: Db, phase: Phase, input: Input, other: Txn)
    requires ReadsHold(db, Txn(input, phase)) && ReadsHold(db, other)
    ensures ReadsHold(Advance(db, phase, input).db, other)
  {
    hide Advance, PrintJob.Coherent, RefundsAfter, PaperAfter, AuditedAs;
    PhaseEffect(db, phase, input);
  }

  lemma PhaseHoldsItsReads(db: Db, phase: Phase, input: Input)
    requires ReadsHold(db, Txn(input, phase))
    ensures var p := Advance(db, phase, input); ReadsHold(p.db, Txn(input, p.phase))
  {
    hide Commit, PrintJob.Coherent, RefundsAfter, PaperAfter, AuditedAs;
    PhaseEffect(db, phase, input);
    if phase.Moving? {
      CommitEffect(db, phase.job, phase.session, input);
    }
  }

  /** A phase becomes a winner only by committing over a job that is still open. */
  lemma WinningNeedsAnOpenJob(db: Db, phase: Phase, input: Input)
    requires ReadsHold(db, Txn(input, phase))
    requires Won(Txn(input, Advance(db, phase, input).phase)) && !Won(Txn(input, phase))
    ensures phase.Moving? && ClaimSucceeds(db, phase.job, input) && IsOpen(db.jobs[input.printJobId].status)
  {
    hide Advance, PrintJob.Coherent, Written, MovedAtMost;
    PhaseEffect(db, phase, input);
  }

  lemma StepKeepsConsistent(s: System, e: Event)
    requires Consistent(s) && (e.Elsewhere? ==> Rely(s.db, e.after))
    ensures Consistent(Next(s, e))
  {
    hide Advance, PrintJob.Coherent;
    match e
    case Elsewhere(after) =>
      forall i | 0 <= i < |s.txns| ensures ReadsHold(after, s.txns[i]) {
        assert ReadsHold(s.db, s.txns[i]);
      }
    case Settle(i) =>
      if i < |s.txns| {
        var t := s.txns[i];
        assert ReadsHold(s.db, t);
        var next := Next(s, e);
        PhaseHoldsItsReads(s.db, t.phase, t.input);
        forall j | 0 <= j < |s.txns| ensures ReadsHold(next.db, next.txns[j]) {
          assert ReadsHold(s.db, s.txns[j]);
          PhaseKeepsReads(s.db, t.phase, t.input, s.txns[j]);
        }
        if Won(next.txns[i]) && !Won(t) {
          WinningNeedsAnOpenJob(s.db, t.phase, t.input);
          forall j | 0 <= j < |s.txns| && j != i && Won(s.txns[j]) ensures s.txns[j].input.printJobId != t.input.printJobId {
            assert ReadsHold(s.db, s.txns[j]);
          }
        }
      }
  }

  lemma UntouchedReadsNothing(db: Db, t: Txn)
    requires Untouched(t)
    ensures ReadsHold(db, t) && !Won(t)
  {
  }

  lemma StartIsConsistent(start: System)
    requires Starting(start)
    ensures Consistent(start)
  {
    forall i | 0 <= i < |start.txns| ensures ReadsHold(start.db, start.txns[i]) && !Won(start.txns[i]) {
      UntouchedReadsNothing(start.db, start.txns[i]);
    }
  }

  lemma NextKeepsCount(s: System, e: Event)
    ensures |Next(s, e).txns| == |s.txns|
  {
    hide Advance;
  }

  lemma {:induction false} RunsAreConsistent(start: System, events: seq<Event>, k: nat)
    requires Starting(start) && Lawful(start, events) && k <= |events|
    ensures Consistent(After(start, events, k)) && |After(start, events, k).txns| == |start.txns|
  {
    hide Rely, Consistent, Starting, Next;
    if k == 0 {
      StartIsConsistent(start);
    } else {
      RunsAreConsistent(start, events, k - 1);
      StepKeepsConsistent(After(start, events, k - 1), events[k - 1]);
      NextKeepsCount(After(start, events, k - 1), events[k - 1]);
    }
  }

  lemma ReadsHoldAt(s: System, i: nat)
    requires Consistent(s) && i < |s.txns|
    ensures ReadsHold(s.db, s.txns[i]) && PrintJob.Coherent(s.txns[i].input.settlement)
  {
  }
}
