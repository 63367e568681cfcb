/**
 * The paper estimate over runs of settlements: what the recorded deductions add up to,
 * and that every completed job is deducted exactly once.
 */
module PaperLaws {
  import opened Records
  import opened Wrappers
  import opened Settlement
  import opened SettlementRuns
  import opened SettlementLaws
  import PrintJob

  // ---------- Sums over the audit trail ----------

  function ConsumedBy(e: AuditEvent, kioskId: Id): int {
    if e.kioskId == kioskId && e.paper.Some? then e.paper.value.consumedSheets else 0
  }

  function DeltaBy(e: AuditEvent, kioskId: Id): int {
    if e.kioskId == kioskId && e.paper.Some? then e.paper.value.estimateDeltaSheets else 0
  }

  function Consumed(audit: seq<AuditEvent>, kioskId: Id): int {
    if audit == [] then 0 else Consumed(audit[..|audit| - 1], kioskId) + ConsumedBy(audit[|audit| - 1], kioskId)
  }

  function Deltas(audit: seq<AuditEvent>, kioskId: Id): int {
    if audit == [] then 0 else Deltas(audit[..|audit| - 1], kioskId) + DeltaBy(audit[|audit| - 1], kioskId)
  }

  lemma SumsSnoc(audit: seq<AuditEvent>, after: seq<AuditEvent>, from: nat, kioskId: Id)
    requires from <= |audit| && |after| == |audit| + 1 && after[..|audit|] == audit
    ensures Consumed(after[from..], kioskId) == Consumed(audit[from..], kioskId) + ConsumedBy(after[|audit|], kioskId)
    ensures Deltas(after[from..], kioskId) == Deltas(audit[from..], kioskId) + DeltaBy(after[|audit|], kioskId)
  {
    var longer := after[from..];
    assert longer[..|longer| - 1] == audit[from..];
  }

  // ---------- The estimate ----------

  function Since(start: Db, db: Db): seq<AuditEvent>
    requires |start.audit| <= |db.audit|
  {
    db.audit[|start.audit|..]
  }

  /** The floor, the sum of the deltas, and the kiosks nobody tracks. */
  ghost predicate EstimateFollows(start: Db, db: Db) {
    && |start.audit| <= |db.audit|
    && (forall kiosk :: kiosk in db.paper <==> kiosk in start.paper)
    && forall kiosk :: kiosk in start.paper ==>
         && 0 <= Consumed(Since(start, db), kiosk)
         && db.paper[kiosk] == Max(0, start.paper[kiosk] - Consumed(Since(start, db), kiosk))
         && db.paper[kiosk] == start.paper[kiosk] + Deltas(Since(start, db), kiosk)
  }

  ghost predicate NonNegative(db: Db) {
    forall kiosk :: kiosk in db.paper ==> 0 <= db.paper[kiosk]
  }

  /** No refill and no correction by staff during the run. */
  ghost predicate PaperLeftAlone(start: System, events: seq<Event>) {
    forall k :: 0 <= k < |events| && events[k].Elsewhere? ==> events[k].after.paper == After(start, events, k).db.paper
  }

  lemma DeductedPaper(db: Db, kioskId: Id, sheets: int, kiosk: Id)
    requires sheets > 0 && (kiosk in db.paper ==> 0 <= db.paper[kiosk])
    ensures DeductPaper(db, kioskId, sheets).deduction.consumedSheets == sheets
    ensures kiosk in DeductPaper(db, kioskId, sheets).db.paper <==> kiosk in db.paper
    ensures kiosk in db.paper ==>
              var d := DeductPaper(db, kioskId, sheets);
              var remaining := d.db.paper[kiosk];
              && remaining == (if kiosk == kioskId then Max(0, db.paper[kiosk] - sheets) else db.paper[kiosk])
              && (kiosk == kioskId ==> d.deduction.estimateDeltaSheets == remaining - db.paper[kiosk])
  {
    var d := DeductPaper(db, kioskId, sheets);
    if kioskId in db.paper {
      var remaining := db.paper[kioskId] - Min(db.paper[kioskId], sheets);
      assert d.db.paper == db.paper[kioskId := remaining];
      hide DeductPaper;
    }
  }

  /** One commit, seen from one kiosk: what it takes off and what it writes down agree. */
  lemma ClaimedPaper(db: Db, read: Job, input: Input, e: AuditEvent, kiosk: Id)
    requires AuditedAs(e, db, read, input) && (kiosk in db.paper ==> 0 <= db.paper[kiosk])
    ensures kiosk in PaperAfter(db, read, input) <==> kiosk in db.paper
    ensures 0 <= ConsumedBy(e, kiosk)
    ensures kiosk in db.paper ==> PaperAfter(db, read, input)[kiosk] == Max(0, db.paper[kiosk] - ConsumedBy(e, kiosk))
    ensures kiosk in db.paper ==> PaperAfter(db, read, input)[kiosk] == db.paper[kiosk] + DeltaBy(e, kiosk)
  {
    if ConsumesPaper(input.settlement) {
      DeductedPaper(db, read.kioskId, input.settlement.sheetsProduced.value, kiosk);
    }
    hide DeductPaper;
  }

  lemma WrittenFollows(start: Db, db: Db, after: Db, read: Job, input: Input)
    requires NonNegative(start) && EstimateFollows(start, db) && Written(db, after, read, input)
    ensures EstimateFollows(start, after)
  {
    hide RefundsAfter, PaperAfter, AuditedAs, Consumed, Deltas, ConsumedBy, DeltaBy, SettledRow;
    forall kiosk ensures kiosk in after.paper <==> kiosk in start.paper {
      ClaimedPaper(db, read, input, after.audit[|db.audit|], kiosk);
    }
    forall kiosk | kiosk in start.paper
      ensures 0 <= Consumed(Since(start, after), kiosk)
      ensures after.paper[kiosk] == Max(0, start.paper[kiosk] - Consumed(Since(start, after), kiosk))
      ensures after.paper[kiosk] == start.paper[kiosk] + Deltas(Since(start, after), kiosk)
    {
      SumsSnoc(db.audit, after.audit, |start.audit|, kiosk);
      ClaimedPaper(db, read, input, after.audit[|db.audit|], kiosk);
    }
  }

  lemma PhaseFollows(start: Db, db: Db, phase: Phase, input: Input)
    requires NonNegative(start) && EstimateFollows(start, db)
    ensures EstimateFollows(start, Advance(db, phase, input).db)
  {
    hide Advance, EstimateFollows, Written;
    PhaseEffect(db, phase, input);
    var after := Advance(db, phase, input);
    if Applied(after.phase) && !Applied(phase) {
      WrittenFollows(start, db, after.db, phase.job, input);
    }
  }

  lemma FollowsByTables(start: Db, a: Db, b: Db)
    requires EstimateFollows(start, a) && b.paper == a.paper && b.audit == a.audit
    ensures EstimateFollows(start, b)
  {
  }

  lemma AuditKept(start: System, events: seq<Event>, k: nat)
    requires Lawful(start, events) && k < |events| && events[k].Elsewhere?
    ensures events[k].after.audit == After(start, events, k).db.audit
  {
    RelyAt(start, events, k);
  }

  lemma NothingYet(db: Db)
    requires NonNegative(db)
    ensures EstimateFollows(db, db)
  {
  }

  lemma {:induction false} EstimateOverRuns(start: System, events: seq<Event>, k: nat)
    requires Lawful(start, events) && PaperLeftAlone(start, events) && k <= |events| && NonNegative(start.db)
    ensures EstimateFollows(start.db, After(start, events, k).db)
  {
    hide EstimateFollows, NonNegative, Lawful, Rely, Advance;
    if k == 0 {
      NothingYet(start.db);
    } else {
      EstimateOverRuns(start, events, k - 1);
      var s, e := After(start, events, k - 1), events[k - 1];
      match e
      case Elsewhere(after) =>
        AuditKept(start, events, k - 1);
        FollowsByTables(start.db, s.db, after);
      case Settle(i) =>
        if i < |s.txns| {
          PhaseFollows(start.db, s.db, s.txns[i].phase, s.txns[i].input);
        }
    }
  }

  /** It never rises, never goes below zero, and a kiosk nobody tracks stays untracked. */
  lemma EstimateStaysInRange(start: System, events: seq<Event>, k: nat, kiosk: Id)
    requires Lawful(start, events) && PaperLeftAlone(start, events) && k <= |events| && NonNegative(start.db)
    ensures kiosk in After(start, events, k).db.paper <==> kiosk in start.db.paper
    ensures kiosk in start.db.paper ==> 0 <= After(start, events, k).db.paper[kiosk] <= start.db.paper[kiosk]
  {
    hide Lawful, PaperLeftAlone, After;
    EstimateOverRuns(start, events, k);
  }

  // ---------- One deduction per completed job ----------

  /** The entry tells the job's own story, with a deduction exactly when the job completed. */
  predicate EntryRight(db: Db, e: AuditEvent) {
    && e.printJobId in db.jobs
    && var j := db.jobs[e.printJobId];
       && j.status == Settled(e.status)
       && (e.paper.Some? <==> e.status.JobCompleted?)
       && (e.paper.Some? ==>
             && j.resultConfidence == Known(PrintJob.Confirmed) && e.kioskId == j.kioskId
             && j.sheetsProduced == Some(e.paper.value.consumedSheets) && e.paper.value.consumedSheets > 0)
  }

  predicate EntryAt(audit: seq<AuditEvent>, n: int, id: Id) {
    0 <= n < |audit| && audit[n].printJobId == id
  }

  ghost predicate AuditRight(db: Db) {
    && (forall n :: 0 <= n < |db.audit| ==> EntryRight(db, db.audit[n]))
    && (forall m, n, id :: EntryAt(db.audit, m, id) && EntryAt(db.audit, n, id) ==> m == n)
    && (forall id :: id in db.jobs && !IsOpen(db.jobs[id].status) ==> exists n :: EntryAt(db.audit, n, id))
  }

  lemma OthersKeepAuditRight(before: Db, after: Db)
    requires AuditRight(before) && Rely(before, after)
    ensures AuditRight(after)
  {
    hide SamePayment, SessionKept, RefundsKept, OneJobPerPayment;
    forall n | 0 <= n < |after.audit| ensures EntryRight(after, after.audit[n]) {
      var e := before.audit[n];
      assert EntryRight(before, e);
      assert JobKept(before.jobs[e.printJobId], after.jobs[e.printJobId]);
    }
    forall id | id in after.jobs && !IsOpen(after.jobs[id].status) ensures exists n :: EntryAt(after.audit, n, id) {
      assert id in before.jobs;
      assert JobKept(before.jobs[id], after.jobs[id]);
    }
  }

  lemma WrittenKeepsAuditRight(db: Db, after: Db, read: Job, input: Input)
    requires AuditRight(db) && PrintJob.Coherent(input.settlement)
    requires JobReadHolds(db, read, input) && ClaimSucceeds(db, read, input) && Written(db, after, read, input)
    ensures AuditRight(after)
  {
    hide RefundsAfter, PaperAfter;
    var size := |db.audit|;
    forall n | 0 <= n < size ensures after.audit[n] == db.audit[n] && EntryRight(after, after.audit[n]) {
      assert after.audit[n] == after.audit[..size][n];
      assert EntryRight(db, db.audit[n]);
    }
    assert EntryRight(after, after.audit[size]);
    forall m, n, id | EntryAt(after.audit, m, id) && EntryAt(after.audit, n, id) ensures m == n {
      assert m < size ==> EntryAt(db.audit, m, id) && EntryRight(db, db.audit[m]);
      assert n < size ==> EntryAt(db.audit, n, id) && EntryRight(db, db.audit[n]);
    }
    forall id | id in after.jobs && !IsOpen(after.jobs[id].status) ensures exists n :: EntryAt(after.audit, n, id) {
      if id == input.printJobId {
        assert EntryAt(after.audit, size, id);
      } else {
        var n :| EntryAt(db.audit, n, id);
        assert EntryAt(after.audit, n, id);
      }
    }
  }

  lemma PhaseKeepsAuditRight(db: Db, phase: Phase, input: Input)
    requires AuditRight(db) && ReadsHold(db, Txn(input, phase))
    ensures AuditRight(Advance(db, phase, input).db)
  {
    hide Advance, Written, AuditRight;
    PhaseEffect(db, phase, input);
    var after := Advance(db, phase, input);
    if Applied(after.phase) && !Applied(phase) {
      WrittenKeepsAuditRight(db, after.db, phase.job, input);
    }
  }

  /**
   * Every settled job has exactly one entry in the trail, and the entry carries a
   * deduction of exactly the job's sheets if and only if the job completed: a job
   * deducts at most once, and only when COMPLETED and CONFIRMED.
   */
  lemma {:induction false} DeductedOncePerCompletion(start: System, events: seq<Event>, k: nat)
    requires Starting(start) && Lawful(start, events) && k <= |events| && AuditRight(start.db)
    ensures AuditRight(After(start, events, k).db)
  {
    hide AuditRight, Starting, Lawful, Rely, Advance, Consistent, ReadsHold;
    if k > 0 {
      DeductedOncePerCompletion(start, events, k - 1);
      RunsAreConsistent(start, events, k - 1);
      var s, e := After(start, events, k - 1), events[k - 1];
      match e
      case Elsewhere(after) =>
        RelyAt(start, events, k - 1);
        OthersKeepAuditRight(s.db, after);
      case Settle(i) =>
        if i < |s.txns| {
          ReadsHoldAt(s, i);
          PhaseKeepsAuditRight(s.db, s.txns[i].phase, s.txns[i].input);
        }
    }
  }
}
