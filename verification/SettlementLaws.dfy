/**
 * At-most-once settlement, over every interleaving: one winner per job, losers that
 * write nothing, outcomes that never change, and sessions moved only by legal steps.
 */
module SettlementLaws {
  import opened Records
  import opened Wrappers
  import opened Settlement
  import opened SettlementRuns
  import PrintJob
  import Session

  /** Of all settlements of one job at most one reports that it was applied. */
  lemma AtMostOneIsApplied(start: System, events: seq<Event>, k: nat, i: nat, j: nat)
    requires Starting(start) && Lawful(start, events) && k <= |events|
    requires i < |start.txns| && j < |start.txns|
    ensures |After(start, events, k).txns| == |start.txns|
    ensures var s := After(start, events, k);
            Won(s.txns[i]) && Won(s.txns[j]) && s.txns[i].input.printJobId == s.txns[j].input.printJobId ==> i == j
  {
    hide After, ReadsHold;
    RunsAreConsistent(start, events, k);
  }

  // ---------- Losers ----------

  lemma WinnersStay(s: System, e: Event, i: nat)
    requires i < |s.txns| && Won(s.txns[i])
    ensures i < |Next(s, e).txns| && Won(Next(s, e).txns[i])
  {
    hide Advance, Applied;
    if e.Settle? && e.i == i {
      PhaseEffect(s.db, s.txns[i].phase, s.txns[i].input);
    }
  }

  lemma {:induction false} WinnersStayWinners(start: System, events: seq<Event>, a: nat, b: nat, i: nat)
    requires a <= b <= |events| && i < |After(start, events, a).txns| && Won(After(start, events, a).txns[i])
    ensures i < |After(start, events, b).txns| && Won(After(start, events, b).txns[i])
  {
    hide Next;
    if a < b {
      WinnersStayWinners(start, events, a, b - 1, i);
      WinnersStay(After(start, events, b - 1), events[b - 1], i);
    }
  }

  /**
   * A settlement that is not applied by the end of the run never wrote anything: none of
   * its phases, wherever it stood among the others, changed any table.
   */
  lemma LosersChangeNothing(start: System, events: seq<Event>, i: nat, k: nat, end: nat)
    requires k < end <= |events| && events[k] == Settle(i) && i < |After(start, events, k).txns|
    requires i < |After(start, events, end).txns| ==> !Won(After(start, events, end).txns[i])
    ensures After(start, events, k + 1).db == After(start, events, k).db
  {
    hide Advance;
    var s, next := After(start, events, k), After(start, events, k + 1);
    assert next == Next(s, events[k]);
    if Won(next.txns[i]) {
      WinnersStayWinners(start, events, k + 1, end, i);
    }
    PhaseEffect(s.db, s.txns[i].phase, s.txns[i].input);
  }

  // ---------- Outcomes ----------

  lemma PhaseJobs(db: Db, phase: Phase, input: Input, id: Id)
    requires ReadsHold(db, Txn(input, phase))
    ensures var p := Advance(db, phase, input);
            && p.db.jobs.Keys == db.jobs.Keys
            && (id in db.jobs ==>
                  && SameOwner(db.jobs[id], p.db.jobs[id])
                  && (if !IsOpen(db.jobs[id].status) || IsOpen(p.db.jobs[id].status) then p.db.jobs[id] == db.jobs[id]
                      else input.printJobId == id && phase.Moving? && ClaimSucceeds(db, phase.job, input)
                           && Won(Txn(input, p.phase)) && Carries(p.db.jobs[id], input)))
  {
    hide Advance, PrintJob.Coherent, RefundsAfter, PaperAfter, AuditedAs;
    PhaseEffect(db, phase, input);
  }

  /** One step, seen from one job. */
  lemma StepJob(s: System, e: Event, id: Id)
    requires Consistent(s) && (e.Elsewhere? ==> Rely(s.db, e.after))
    ensures var next := Next(s, e);
            && (id in s.db.jobs ==> id in next.db.jobs && SameOwner(s.db.jobs[id], next.db.jobs[id]))
            && (id in next.db.jobs && id !in s.db.jobs ==> e.Elsewhere? && IsOpen(next.db.jobs[id].status))
            && (id in s.db.jobs && !IsOpen(s.db.jobs[id].status) ==> SameOutcome(s.db.jobs[id], next.db.jobs[id]))
            && (id in s.db.jobs && IsOpen(s.db.jobs[id].status) && !IsOpen(next.db.jobs[id].status) ==>
                  && e.Settle? && e.i < |s.txns| && s.txns[e.i].input.printJobId == id
                  && Won(next.txns[e.i]) && Carries(next.db.jobs[id], s.txns[e.i].input))
  {
    hide Advance, ReadsHold, Carries;
    if e.Settle? && e.i < |s.txns| {
      PhaseJobs(s.db, s.txns[e.i].phase, s.txns[e.i].input, id);
    }
  }

  lemma RelyAt(start: System, events: seq<Event>, k: nat)
    requires Lawful(start, events) && k < |events|
    ensures events[k].Elsewhere? ==> Rely(After(start, events, k).db, events[k].after)
  {
  }

  /** Once settled, a job's status, confidence, sheets and codes are what they are. */
  lemma {:induction false} SettledIsForever(start: System, events: seq<Event>, a: nat, b: nat, id: Id)
    requires Starting(start) && Lawful(start, events) && a <= b <= |events|
    requires id in After(start, events, a).db.jobs && !IsOpen(After(start, events, a).db.jobs[id].status)
    ensures id in After(start, events, b).db.jobs
    ensures SameOutcome(After(start, events, a).db.jobs[id], After(start, events, b).db.jobs[id])
  {
    hide Next, Consistent, Starting;
    if a < b {
      SettledIsForever(start, events, a, b - 1, id);
      RunsAreConsistent(start, events, b - 1);
      RelyAt(start, events, b - 1);
      StepJob(After(start, events, b - 1), events[b - 1], id);
    }
  }

  lemma InputsStay(s: System, e: Event, i: nat)
    requires i < |s.txns|
    ensures i < |Next(s, e).txns| && Next(s, e).txns[i].input == s.txns[i].input
  {
    hide Advance;
  }

  lemma WinnerCarries(s: System, i: nat)
    requires Consistent(s) && i < |s.txns| && Won(s.txns[i])
    ensures s.txns[i].input.printJobId in s.db.jobs
    ensures Carries(s.db.jobs[s.txns[i].input.printJobId], s.txns[i].input)
  {
    ReadsHoldAt(s, i);
  }

  /** Exactly one: a job that became settled during a run was settled by one of its winners. */
  lemma {:induction false} SettledByItsWinner(start: System, events: seq<Event>, k: nat, id: Id) returns (i: nat)
    requires Starting(start) && Lawful(start, events) && k <= |events|
    requires id in After(start, events, k).db.jobs && !IsOpen(After(start, events, k).db.jobs[id].status)
    requires id in start.db.jobs ==> IsOpen(start.db.jobs[id].status)
    ensures i < |After(start, events, k).txns|
    ensures var s := After(start, events, k);
            Won(s.txns[i]) && s.txns[i].input.printJobId == id && Carries(s.db.jobs[id], s.txns[i].input)
  {
    hide Next, Starting, Won;
    RunsAreConsistent(start, events, k);
    RunsAreConsistent(start, events, k - 1);
    var s, e := After(start, events, k - 1), events[k - 1];
    StepJob(s, e, id);
    if IsOpen(s.db.jobs[id].status) {
      i := e.i;
    } else {
      i := SettledByItsWinner(start, events, k - 1, id);
      WinnersStay(s, e, i);
    }
    InputsStay(s, e, i);
    WinnerCarries(After(start, events, k), i);
  }

  // ---------- Under the session row lock ----------

  /** The next event number of a printing session is in the outbox already. */
  predicate NextNumberTaken(db: Db, sessionId: Id) {
    && sessionId in db.sessions && db.sessions[sessionId].state == Session.Printing
    && KeyTaken(db.outbox, sessionId, db.sessions[sessionId].eventSequence + 1)
  }

  lemma FreshCommitIsApplied(db: Db, read: Job, input: Input)
    requires ClaimSucceeds(db, read, input)
    ensures Applied(Commit(db, read, FindSession(db, read.sessionId), input).phase) <==> !NextNumberTaken(db, read.sessionId)
  {
    hide RecordOutcome, ClaimJob, MoveSession, EndSession, Written;
    WriteEffect(db, read, input);
  }

  /**
   * With nobody in between, a settlement is applied exactly when its job is still open and
   * its event's number is free, an unapplied one writes nothing, and after an applied one
   * any later one of the same job is unapplied.
   */
  lemma SettledOnceUnderTheLock(db: Db, input: Input, later: Input)
    requires PrintJob.Coherent(input.settlement) && later.printJobId == input.printJobId
    ensures var once := ApplySettlement(db, input);
            && (Applied(once.phase) <==>
                  && input.printJobId in db.jobs && IsOpen(db.jobs[input.printJobId].status)
                  && !NextNumberTaken(db, db.jobs[input.printJobId].sessionId))
            && (!Applied(once.phase) ==> once.db == db)
            && (Applied(once.phase) ==> ApplySettlement(once.db, later) == Progress(once.db, Finished(NOT_APPLIED)))
  {
    hide Commit, RefundsAfter, PaperAfter, AuditedAs;
    if input.printJobId in db.jobs && IsOpen(db.jobs[input.printJobId].status) {
      var read := db.jobs[input.printJobId];
      CommitEffect(db, read, FindSession(db, read.sessionId), input);
      FreshCommitIsApplied(db, read, input);
    }
  }

  // ---------- Sessions ----------

  function Versions(row: SessionRow): Session.Versioned {
    Session.Versioned(row.state, row.stateVersion)
  }

  predicate LegalMove(before: Session.Versioned, after: Session.Versioned) {
    before.state == Session.Printing && Session.TransitionSession(before, after.state, before.version) == Success(after)
  }

  lemma PhaseMovesSessions(db: Db, phase: Phase, input: Input, sessionId: Id)
    requires ReadsHold(db, Txn(input, phase)) && sessionId in db.sessions
    ensures var after := Advance(db, phase, input).db;
            && sessionId in after.sessions
            && (Versions(after.sessions[sessionId]) == Versions(db.sessions[sessionId])
                || LegalMove(Versions(db.sessions[sessionId]), Versions(after.sessions[sessionId])))
  {
    hide Advance, PrintJob.Coherent, Written;
    PhaseEffect(db, phase, input);
  }

  /**
   * Whatever a settlement does to any session is nothing, or one legal step of the
   * session state machine out of PRINTING at the version the row had.
   */
  lemma SettlementMovesSessionsLegally(start: System, events: seq<Event>, k: nat, i: nat, sessionId: Id)
    requires Starting(start) && Lawful(start, events) && k < |events|
    requires events[k] == Settle(i) && sessionId in After(start, events, k).db.sessions
    ensures sessionId in After(start, events, k + 1).db.sessions
    ensures var before := Versions(After(start, events, k).db.sessions[sessionId]);
            var after := Versions(After(start, events, k + 1).db.sessions[sessionId]);
            after == before || LegalMove(before, after)
  {
    hide Advance, ReadsHold, Starting, Lawful, LegalMove, Versions;
    RunsAreConsistent(start, events, k);
    var s := After(start, events, k);
    assert After(start, events, k + 1) == Next(s, events[k]);
    if i < |s.txns| {
      PhaseMovesSessions(s.db, s.txns[i].phase, s.txns[i].input, sessionId);
    }
  }
}
