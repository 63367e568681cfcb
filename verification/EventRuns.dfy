/**
 * Event numbers over runs: under the session row lock, in any order of writers, and for
 * settlements interleaved with anything, lock or no lock.
 */
module EventRuns {
  import opened Records
  import opened Wrappers
  import opened EventNumbering
  import opened EventWriters
  import opened Settlement
  import opened SettlementRuns
  import opened SettlementLaws
  import Session

  ghost predicate AllNumbered(db: Db) {
    forall id :: id in db.sessions ==> Numbered(db, id)
  }

  // ---------- Under the session row lock ----------

  /** One whole transaction of a writer that holds the lock of the session it reads. */
  datatype Write =
    | Outcome(input: Input)
    | EndBeforePayment(sessionId: Id, found: PaymentRead, active: Option<Id>, end: Ending)
    | Changed(sessionId: Id, active: Option<Id>, change: Change, body: EventBody)
    | Transition(sessionId: Id, state: Session.SessionState, now: Time, body: EventBody)

  function Apply(db: Db, w: Write): Db {
    match w
    case Outcome(input) => ApplySettlement(db, input).db
    case EndBeforePayment(sessionId, found, active, end) =>
      if sessionId in db.sessions then EndUnpaid(db, sessionId, found, active, end) else db
    case Changed(sessionId, active, change, body) =>
      if sessionId in db.sessions then Reprice(db, sessionId, active, change, body) else db
    case Transition(sessionId, state, now, body) =>
      if sessionId in db.sessions then Announce(db, sessionId, state, now, body) else db
  }

  function ApplyAll(db: Db, writes: seq<Write>): Db {
    if writes == [] then db else Apply(ApplyAll(db, writes[..|writes| - 1]), writes[|writes| - 1])
  }

  lemma CountIsNatural(outbox: seq<OutboxEvent>, sessionId: Id, n: int)
    requires NumberedTo(outbox, sessionId, n)
    ensures 0 <= n
  {
  }

  lemma LockedSettlementNumbers(db: Db, input: Input, id: Id)
    requires Numbered(db, id)
    ensures Numbered(ApplySettlement(db, input).db, id)
  {
    hide Commit, NumberedTo;
    if input.printJobId in db.jobs {
      var read := db.jobs[input.printJobId];
      CommitKeepsNumbering(db, read, FindSession(db, read.sessionId), input, id) by {
        assert NumberedTo(db.outbox, id, db.sessions[id].eventSequence);
        CountIsNatural(db.outbox, id, db.sessions[id].eventSequence);
      }
    }
  }

  /** Under the lock the number a settlement takes is always free. */
  lemma LockedSettlementIsNotRefused(db: Db, input: Input)
    requires AllNumbered(db)
    ensures !ApplySettlement(db, input).phase.RolledBack?
  {
    hide Commit, NumberedTo;
    if input.printJobId in db.jobs && IsOpen(db.jobs[input.printJobId].status) {
      var read := db.jobs[input.printJobId];
      FreshCommitIsApplied(db, read, input);
      if read.sessionId in db.sessions {
        var n := db.sessions[read.sessionId].eventSequence;
        assert Numbered(db, read.sessionId);
        TakenNumbers(db.outbox, read.sessionId, n, n + 1);
      }
    }
  }

  lemma ReleaseKeepsSessions(db: Db, found: PaymentRead, input: ReleaseInput)
    ensures ReleasePayments(db, found, input).db.sessions == db.sessions
  {
    hide LatestAttempt;
  }

  lemma ApplyAddsNoSession(db: Db, w: Write, id: Id)
    requires id in Apply(db, w).sessions
    ensures id in db.sessions
  {
    hide Commit, ReleasePayments, Written;
    match w
    case Outcome(input) =>
      if input.printJobId in db.jobs {
        var read := db.jobs[input.printJobId];
        CommitEffect(db, read, FindSession(db, read.sessionId), input);
      }
    case EndBeforePayment(sessionId, found, active, end) =>
      if sessionId in db.sessions {
        var session := db.sessions[sessionId];
        var release := ReleaseInput(sessionId, end.now, session.eventSequence, end.state, session.stateVersion + 1);
        ReleaseKeepsSessions(db, found, release);
      }
    case Changed(_, _, _, _) =>
    case Transition(_, _, _, _) =>
  }

  lemma AnnounceNumbers(db: Db, sessionId: Id, state: Session.SessionState, now: Time, body: EventBody, id: Id)
    requires AllNumbered(db) && sessionId in db.sessions && id in db.sessions
    ensures Numbered(Announce(db, sessionId, state, now, body), id)
  {
    var session := db.sessions[sessionId];
    var row := session.(state := state, stateVersion := session.stateVersion + 1, updatedAt := now);
    assert Numbered(db, sessionId) && Numbered(db, id);
    PersistNumbers(db, sessionId, row, session.eventSequence, body, id);
  }

  /** However the writers follow each other, every session's events are numbered 1 to eventSequence. */
  lemma {:induction false} LockedWritersNumber(db: Db, writes: seq<Write>)
    requires AllNumbered(db)
    ensures AllNumbered(ApplyAll(db, writes))
  {
    hide Numbered, EndUnpaid, Reprice, Announce, ApplySettlement;
    if writes != [] {
      var earlier, w := writes[..|writes| - 1], writes[|writes| - 1];
      LockedWritersNumber(db, earlier);
      var before := ApplyAll(db, earlier);
      forall id | id in Apply(before, w).sessions ensures Numbered(Apply(before, w), id) {
        ApplyAddsNoSession(before, w, id);
        match w
        case Outcome(input) => LockedSettlementNumbers(before, input, id);
        case EndBeforePayment(sessionId, found, active, end) =>
          if sessionId in before.sessions { EndUnpaidNumbers(before, sessionId, found, active, end, id); }
        case Changed(sessionId, active, change, body) =>
          if sessionId in before.sessions { RepriceNumbers(before, sessionId, active, change, body, id); }
        case Transition(sessionId, state, now, body) =>
          if sessionId in before.sessions { AnnounceNumbers(before, sessionId, state, now, body, id); }
      }
    }
  }

  /** So the unique key never has anything to refuse. */
  lemma LockedWritersAreUnique(db: Db, writes: seq<Write>, id: Id)
    requires AllNumbered(db) && id in ApplyAll(db, writes).sessions
    ensures UniqueKeys(ApplyAll(db, writes).outbox, id)
  {
    hide ApplyAll, NumberedTo;
    LockedWritersNumber(db, writes);
    var end := ApplyAll(db, writes);
    assert Numbered(end, id);
    NumberedIsUnique(end.outbox, id, end.sessions[id].eventSequence);
  }

  // ---------- Settlements interleaved with anything ----------

  /** Other writers only append to the outbox, and number the events of their own. */
  ghost predicate OthersNumber(before: Db, after: Db) {
    && before.outbox <= after.outbox
    && forall id :: id in after.sessions && (id in before.sessions ==> Numbered(before, id)) ==> Numbered(after, id)
  }

  ghost predicate LawfulNumbers(start: System, events: seq<Event>) {
    forall k :: 0 <= k < |events| && events[k].Elsewhere? ==> OthersNumber(After(start, events, k).db, events[k].after)
  }

  /** A session is read at some number it has reached since. */
  predicate ReadIsPast(db: Db, t: Txn) {
    t.phase.Moving? && t.phase.session.Some? && t.phase.job.sessionId in db.sessions ==>
      0 <= t.phase.session.value.eventSequence <= db.sessions[t.phase.job.sessionId].eventSequence
  }

  ghost predicate NumberedSystem(s: System) {
    AllNumbered(s.db) && forall i :: 0 <= i < |s.txns| ==> ReadIsPast(s.db, s.txns[i])
  }

  /** Numbers only go up, whoever appends. */
  lemma PastStaysPast(before: Db, after: Db, t: Txn)
    requires AllNumbered(before) && AllNumbered(after) && before.outbox <= after.outbox
    requires t.phase.Moving? && t.phase.session.Some? && t.phase.job.sessionId in after.sessions ==> t.phase.job.sessionId in before.sessions
    requires ReadIsPast(before, t)
    ensures ReadIsPast(after, t)
  {
    if t.phase.Moving? && t.phase.session.Some? && t.phase.job.sessionId in after.sessions {
      var id := t.phase.job.sessionId;
      assert Numbered(before, id) && Numbered(after, id);
      LogGrows(before.outbox, after.outbox, id);
    }
  }

  lemma PhaseNumbers(db: Db, phase: Phase, input: Input, id: Id)
    requires AllNumbered(db) && ReadIsPast(db, Txn(input, phase))
    requires id in db.sessions
    ensures Numbered(Advance(db, phase, input).db, id)
  {
    hide Commit, Numbered;
    if phase.Moving? {
      CommitKeepsNumbering(db, phase.job, phase.session, input, id);
    }
  }

  lemma PhaseGrowsOutbox(db: Db, phase: Phase, input: Input)
    ensures db.outbox <= Advance(db, phase, input).db.outbox
    ensures Advance(db, phase, input).db.sessions.Keys == db.sessions.Keys
  {
    hide Commit, Written;
    if phase.Moving? {
      CommitGrowsOutbox(db, phase.job, phase.session, input);
      CommitEffect(db, phase.job, phase.session, input);
    }
  }

  lemma PhaseReadsPast(db: Db, phase: Phase, input: Input)
    requires AllNumbered(db) && !phase.Moving?
    ensures var p := Advance(db, phase, input); ReadIsPast(p.db, Txn(input, p.phase))
  {
    if phase.Claiming? && phase.job.sessionId in db.sessions {
      assert Numbered(db, phase.job.sessionId);
    }
  }

  lemma CommitEndsPhases(db: Db, phase: Phase, input: Input)
    requires phase.Moving?
    ensures !Advance(db, phase, input).phase.Moving?
  {
    hide RecordOutcome, ClaimJob, MoveSession, EndSession;
  }

  lemma PastUnlessMoving(db: Db, t: Txn)
    requires !t.phase.Moving?
    ensures ReadIsPast(db, t)
  {
  }

  /** The session of a read is still there, so its number can be compared. */
  lemma PastByRead(db: Db, t: Txn)
    requires ReadsHold(db, t) && ReadIsPast(db, t)
    ensures t.phase.Moving? && t.phase.session.Some? ==> t.phase.job.sessionId in db.sessions
  {
  }

  lemma StepNumbers(s: System, e: Event)
    requires Consistent(s) && NumberedSystem(s)
    requires e.Elsewhere? ==> Rely(s.db, e.after) && OthersNumber(s.db, e.after)
    ensures NumberedSystem(Next(s, e))
  {
    hide Numbered, ReadIsPast, Advance, JobKept, JobReadHolds, Carries, SamePayment, RefundsKept;
    var next := Next(s, e);
    match e
    case Elsewhere(after) =>
      forall i | 0 <= i < |s.txns| ensures ReadIsPast(after, s.txns[i]) {
        assert ReadsHold(s.db, s.txns[i]);
        PastByRead(s.db, s.txns[i]);
        PastStaysPast(s.db, after, s.txns[i]);
      }
    case Settle(i) =>
      if i < |s.txns| {
        var t := s.txns[i];
        assert t == Txn(t.input, t.phase) && ReadIsPast(s.db, t);
        PhaseGrowsOutbox(s.db, t.phase, t.input);
        forall id | id in next.db.sessions ensures Numbered(next.db, id) {
          PhaseNumbers(s.db, t.phase, t.input, id);
        }
        forall j | 0 <= j < |s.txns| ensures ReadIsPast(next.db, next.txns[j]) {
          if j != i {
            PastStaysPast(s.db, next.db, s.txns[j]);
          } else if t.phase.Moving? {
            CommitEndsPhases(s.db, t.phase, t.input);
            PastUnlessMoving(next.db, next.txns[i]);
          } else {
            PhaseReadsPast(s.db, t.phase, t.input);
          }
        }
      }
  }

  /**
   * Settlements racing each other and any change of the session, at every point and with
   * or without the row lock, never disturb the numbering of any session: whoever read a
   * number too early is rolled back.
   */
  lemma {:induction false} RacingSettlementsNumber(start: System, events: seq<Event>, k: nat)
    requires Starting(start) && Lawful(start, events) && LawfulNumbers(start, events) && k <= |events| && AllNumbered(start.db)
    ensures NumberedSystem(After(start, events, k))
  {
    hide Next, Consistent, Rely, OthersNumber, AllNumbered, ReadIsPast;
    if k == 0 {
      forall i | 0 <= i < |start.txns| ensures ReadIsPast(start.db, start.txns[i]) {
        assert Untouched(start.txns[i]);
        PastUnlessMoving(start.db, start.txns[i]);
      }
    } else {
      RacingSettlementsNumber(start, events, k - 1);
      RunsAreConsistent(start, events, k - 1);
      RelyAt(start, events, k - 1);
      StepNumbers(After(start, events, k - 1), events[k - 1]);
    }
  }

  lemma RepriceKeeps(db: Db, sessionId: Id, active: Option<Id>, change: Change, body: EventBody)
    requires sessionId in db.sessions
    ensures var changed := Reprice(db, sessionId, active, change, body);
            && changed.jobs == db.jobs && db.outbox <= changed.outbox && sessionId in changed.sessions
            && changed.sessions[sessionId].eventSequence > db.sessions[sessionId].eventSequence
            && (change.moveTo.None? ==> changed.sessions[sessionId].stateVersion == db.sessions[sessionId].stateVersion)
  {
  }

  /**
   * A change of documents or settings that leaves the version alone, committed between a
   * settlement's read of the session and its write, which the row lock rules out: the
   * settlement passes the version guard, is refused by the unique key, and writes nothing.
   */
  lemma StaleReadIsRefused(db: Db, read: Job, input: Input, active: Option<Id>, change: Change, body: EventBody)
    requires Numbered(db, read.sessionId) && db.sessions[read.sessionId].state == Session.Printing
    requires ClaimSucceeds(db, read, input) && change.moveTo.None?
    ensures var changed := Reprice(db, read.sessionId, active, change, body);
            && MoveSucceeds(changed, read.sessionId, db.sessions[read.sessionId])
            && Commit(changed, read, Some(db.sessions[read.sessionId]), input) == Progress(changed, RolledBack)
  {
    hide Commit, NumberedTo;
    var session := db.sessions[read.sessionId];
    var changed := Reprice(db, read.sessionId, active, change, body);
    RepriceNumbers(db, read.sessionId, active, change, body, read.sessionId);
    RepriceKeeps(db, read.sessionId, active, change, body);
    CountIsNatural(db.outbox, read.sessionId, session.eventSequence);
    hide Reprice;
    RolledBackExactly(changed, read, session, input);
    CommitEffect(changed, read, Some(session), input);
  }

  // ---------- The writers of this model among the others ----------

  /** A job is only ever created for an applied capture. */
  ghost predicate JobsArePaid(db: Db) {
    forall id :: id in db.jobs ==> db.jobs[id].paymentId in db.payments && db.payments[db.jobs[id].paymentId].status == Captured
  }

  /** Nothing but payments, attempts, quotes, sessions and the outbox, and of those no capture and no state without a version. */
  ghost predicate Mild(before: Db, after: Db) {
    && after.jobs == before.jobs && after.refunds == before.refunds && after.audit == before.audit
    && (forall id :: id in before.payments && before.payments[id].status == Captured ==>
          id in after.payments && after.payments[id] == before.payments[id])
    && (forall id :: id in before.sessions ==> id in after.sessions && SessionKept(before.sessions[id], after.sessions[id]))
  }

  lemma MildComplies(before: Db, after: Db)
    requires OneJobPerPayment(before) && JobsArePaid(before) && Mild(before, after)
    ensures Rely(before, after)
  {
    forall id | id in before.jobs ensures SamePayment(before, after, before.jobs[id].paymentId) {
      assert before.payments[before.jobs[id].paymentId].status == Captured;
    }
  }

  lemma InvalidationIsMild(db: Db, active: Option<Id>, input: InvalidationInput)
    requires input.sessionId in db.sessions
    ensures var after := InvalidatePricing(db, active, input).db;
            && Mild(db, after)
            && (forall id :: id in db.sessions ==> after.sessions[id].stateVersion == db.sessions[id].stateVersion
                                                   && after.sessions[id].state == db.sessions[id].state
                                                   && after.sessions[id].eventSequence == db.sessions[id].eventSequence)
  {
  }

  lemma EndUnpaidGrowsOutbox(db: Db, sessionId: Id, found: PaymentRead, active: Option<Id>, end: Ending)
    requires sessionId in db.sessions
    ensures db.outbox <= EndUnpaid(db, sessionId, found, active, end).outbox
  {
    hide LatestAttempt, CanceledPayment;
  }

  lemma ReleaseOfAnswersIsMild(db: Db, found: PaymentRead, input: ReleaseInput)
    requires Answers(db, input.sessionId, found)
    ensures Mild(db, ReleasePayments(db, found, input).db)
  {
    hide LatestAttempt, Capturing;
    if found.captured.None? && found.open.Some? {
      var (id, status) := found.open.value;
      assert db.payments[id].status == status != Captured;
      hide Answers;
      assert ReleasePayments(db, found, input).db.payments == db.payments[id := CanceledPayment(db.payments[id], input.now)];
    }
    hide Answers, CanceledPayment;
  }

  /**
   * Ending an unpaid session, and changing documents or settings of any session, are among
   * the changes that every law about runs of settlements lets others make at any point.
   */
  lemma EndUnpaidComplies(db: Db, sessionId: Id, found: PaymentRead, active: Option<Id>, end: Ending)
    requires AllNumbered(db) && sessionId in db.sessions && OneJobPerPayment(db) && JobsArePaid(db)
    requires Answers(db, sessionId, found)
    ensures var after := EndUnpaid(db, sessionId, found, active, end); Rely(db, after) && OthersNumber(db, after)
  {
    hide ReleasePayments, InvalidatePricing, Numbered;
    var session, after := db.sessions[sessionId], EndUnpaid(db, sessionId, found, active, end);
    var first := ReleaseInput(sessionId, end.now, session.eventSequence, end.state, session.stateVersion + 1);
    ReleaseOfAnswersIsMild(db, found, first);
    ReleaseKeepsSessions(db, found, first);
    var release := ReleasePayments(db, found, first);
    var second := InvalidationInput(sessionId, SessionTerminal, end.now, release.nextSequence, false);
    InvalidationIsMild(release.db, active, second);
    MildComplies(db, after);
    EndUnpaidGrowsOutbox(db, sessionId, found, active, end);
    forall id | id in after.sessions ensures Numbered(after, id) {
      ApplyAddsNoSession(db, EndBeforePayment(sessionId, found, active, end), id);
      EndUnpaidNumbers(db, sessionId, found, active, end, id);
    }
  }

  lemma RepriceComplies(db: Db, sessionId: Id, active: Option<Id>, change: Change, body: EventBody)
    requires AllNumbered(db) && sessionId in db.sessions && OneJobPerPayment(db) && JobsArePaid(db)
    ensures var after := Reprice(db, sessionId, active, change, body); Rely(db, after) && OthersNumber(db, after)
  {
    hide InvalidatePricing, Numbered;
    var after := Reprice(db, sessionId, active, change, body);
    var input := InvalidationInput(
      sessionId, change.reason, change.now, db.sessions[sessionId].eventSequence, change.clearSettingsRevision);
    InvalidationIsMild(db, active, input);
    MildComplies(db, after);
    RepriceKeeps(db, sessionId, active, change, body);
    forall id | id in after.sessions ensures Numbered(after, id) {
      ApplyAddsNoSession(db, Changed(sessionId, active, change, body), id);
      RepriceNumbers(db, sessionId, active, change, body, id);
    }
  }
}
