/**
 * The money over runs: which jobs are owed a refund for a failed print, that each of
 * them has exactly one, of exactly the captured amount, and that no other job has any.
 */
module RefundLaws {
  import opened Records
  import opened Wrappers
  import opened Settlement
  import opened SettlementRuns
  import opened SettlementLaws
  import opened SettlementMeaning
  import PrintJob

  predicate DefiniteFailure(j: Job) {
    j.status == Settled(PrintJob.JobFailed) || j.status == Settled(PrintJob.JobCanceled)
  }

  predicate RefundDue(db: Db, id: Id)
    requires id in db.jobs
  {
    DefiniteFailure(db.jobs[id]) && OwedOn(db, db.jobs[id].paymentId, db.jobs[id].sessionId)
  }

  ghost predicate HasRefund(refunds: seq<Refund>, paymentId: Id) {
    exists n :: Obliges(refunds, n, paymentId)
  }

  ghost predicate OnePerPayment(refunds: seq<Refund>) {
    forall m, n, p :: Obliges(refunds, m, p) && Obliges(refunds, n, p) ==> m == n
  }

  /** The captured amount, owed to the session that paid, for a job that is due it. */
  predicate Justifies(db: Db, id: Id, r: Refund) {
    && id in db.jobs && db.jobs[id].paymentId == r.paymentId && RefundDue(db, id)
    && r.amountMinor == db.payments[r.paymentId].amountMinor && r.sessionId == db.jobs[id].sessionId
  }

  ghost predicate Justified(db: Db, r: Refund) {
    exists id :: Justifies(db, id, r)
  }

  ghost predicate RefundsRight(db: Db) {
    && OneJobPerPayment(db)
    && OnePerPayment(db.refunds)
    && (forall n :: 0 <= n < |db.refunds| && db.refunds[n].reason == PrintFailed ==> Justified(db, db.refunds[n]))
    && (forall id :: id in db.jobs && RefundDue(db, id) ==> HasRefund(db.refunds, db.jobs[id].paymentId))
  }

  /** What the ledger of obligations says in the end: a refund exists exactly when it is due. */
  lemma RefundIffDue(db: Db, id: Id)
    requires RefundsRight(db) && id in db.jobs
    ensures HasRefund(db.refunds, db.jobs[id].paymentId) <==> RefundDue(db, id)
    ensures forall n :: Obliges(db.refunds, n, db.jobs[id].paymentId) ==>
              db.refunds[n].amountMinor == db.payments[db.jobs[id].paymentId].amountMinor
  {
    forall n | Obliges(db.refunds, n, db.jobs[id].paymentId)
      ensures RefundDue(db, id) && db.refunds[n].amountMinor == db.payments[db.jobs[id].paymentId].amountMinor
    {
      var other :| Justifies(db, other, db.refunds[n]);
      assert other == id;
    }
  }

  // ---------- Other writers ----------

  lemma DueKept(before: Db, after: Db, id: Id)
    requires Rely(before, after) && id in before.jobs
    ensures RefundDue(before, id) <==> RefundDue(after, id)
  {
    assert JobKept(before.jobs[id], after.jobs[id]);
    assert SamePayment(before, after, before.jobs[id].paymentId);
  }

  lemma OpenIsNotDue(db: Db, id: Id)
    requires id in db.jobs && RefundDue(db, id)
    ensures !IsOpen(db.jobs[id].status) && db.jobs[id].paymentId in db.payments
  {
  }

  lemma OwnerKept(before: Db, after: Db, id: Id)
    requires Rely(before, after) && id in before.jobs
    ensures id in after.jobs && SameOwner(before.jobs[id], after.jobs[id])
  {
    assert JobKept(before.jobs[id], after.jobs[id]);
  }

  lemma JustifiesKept(before: Db, after: Db, id: Id, r: Refund)
    requires Rely(before, after) && Justifies(before, id, r)
    ensures Justifies(after, id, r)
  {
    DueKept(before, after, id);
    OwnerKept(before, after, id);
    assert SamePayment(before, after, before.jobs[id].paymentId);
  }

  lemma OthersKeepRefundsRight(before: Db, after: Db)
    requires RefundsRight(before) && Rely(before, after)
    ensures RefundsRight(after)
  {
    hide RefundDue, JobKept, SamePayment, SessionKept;
    forall m, p | Obliges(after.refunds, m, p) ensures Obliges(before.refunds, m, p) {
    }
    forall n | 0 <= n < |after.refunds| && after.refunds[n].reason == PrintFailed ensures Justified(after, after.refunds[n]) {
      assert n < |before.refunds|;
      var r := before.refunds[n];
      var id :| Justifies(before, id, r);
      JustifiesKept(before, after, id, r);
    }
    forall id | id in after.jobs && RefundDue(after, id) ensures HasRefund(after.refunds, after.jobs[id].paymentId) {
      OpenIsNotDue(after, id);
      DueKept(before, after, id);
      OwnerKept(before, after, id);
      var n :| Obliges(before.refunds, n, before.jobs[id].paymentId);
      assert Obliges(after.refunds, n, after.jobs[id].paymentId);
    }
  }

  // ---------- Settlements ----------

  function AmountOf(db: Db, paymentId: Id): int {
    if paymentId in db.payments then db.payments[paymentId].amountMinor else 0
  }

  /** The refunds after a commit: one more, and exactly then, when the job just settled is due one. */
  lemma WrittenRefunds(db: Db, after: Db, read: Job, input: Input)
    requires RefundsRight(db) && PrintJob.Coherent(input.settlement)
    requires JobReadHolds(db, read, input) && ClaimSucceeds(db, read, input) && Written(db, after, read, input)
    ensures var j := db.jobs[input.printJobId];
            var refund := Refund(input.newRefundId, j.paymentId, j.sessionId, PrintFailed, AmountOf(db, j.paymentId), input.now);
            && after.refunds == (if RefundDue(after, input.printJobId) then db.refunds + [refund] else db.refunds)
            && !HasRefund(db.refunds, j.paymentId)
  {
    hide RefundsRight, FindRefund, AuditedAs, PaperAfter;
    RefundIffDue(db, input.printJobId);
    FindRefundMeaning(db.refunds, read.paymentId);
  }

  lemma ClaimIsOneRow(db: Db, input: Input)
    requires input.printJobId in db.jobs
    ensures ClaimJob(db, input) == db.(jobs := ClaimJob(db, input).jobs)
  {
  }

  lemma ClaimedStatus(db: Db, read: Job, input: Input)
    requires ClaimSucceeds(db, read, input)
    ensures SettledRow(db.jobs[input.printJobId], input).status == Settled(input.settlement.status)
  {
  }

  lemma PaidReports(db: Db, claimed: Db, read: Job, input: Input)
    requires claimed == db.(jobs := claimed.jobs)
    ensures Paid(claimed, read, input).refundId
            == (if input.settlement.refundObligation then Compensate(db, read.paymentId, read.sessionId, input).refundId else None)
  {
    hide Compensate, CloseCommand;
    CompensateReads(CloseCommands(claimed, input), db, read, input);
  }

  lemma ClaimedOwner(db: Db, read: Job, input: Input)
    requires ClaimSucceeds(db, read, input)
    ensures forall row :: row == SettledRow(db.jobs[input.printJobId], input) ==> SameOwner(db.jobs[input.printJobId], row)
  {
  }

  lemma OwedSame(before: Db, after: Db, paymentId: Id, sessionId: Id)
    requires before.payments == after.payments
    ensures OwedOn(before, paymentId, sessionId) <==> OwedOn(after, paymentId, sessionId)
  {
  }

  /** An applied settlement reports exactly the refund it recorded, and only a due one. */
  lemma CommitReportsRefund(db: Db, read: Job, session: Option<SessionRow>, input: Input)
    requires RefundsRight(db) && PrintJob.Coherent(input.settlement) && JobReadHolds(db, read, input)
    requires Applied(Commit(db, read, session, input).phase)
    ensures var p := Commit(db, read, session, input);
            && input.printJobId in p.db.jobs
            && p.phase.outcome.refundId == (if RefundDue(p.db, input.printJobId) then Some(input.newRefundId) else None)
  {
    hide RefundsRight, FindRefund, AuditedAs, PaperAfter, SettledRow, CloseCommands, RecordOutcome, ClaimJob;
    CommitEffect(db, read, session, input);
    CommitReports(db, read, session, input);
    var after := Commit(db, read, session, input).db;
    hide Commit;
    WrittenRefunds(db, after, read, input);
    FindRefundMeaning(db.refunds, read.paymentId);
    ClaimIsOneRow(db, input);
    PaidReports(db, ClaimJob(db, input), read, input);
    OwedSame(db, after, read.paymentId, read.sessionId);
    ClaimedOwner(db, read, input);
    ClaimedStatus(db, read, input);
    hide ClaimSucceeds, OwedOn, Compensate, Paid;
  }

  lemma ClaimedWasOpen(db: Db, read: Job, input: Input)
    requires JobReadHolds(db, read, input) && ClaimSucceeds(db, read, input)
    ensures !RefundDue(db, input.printJobId)
  {
  }

  lemma AppendedRefund(before: seq<Refund>, after: seq<Refund>, paymentId: Id)
    requires |after| == |before| + 1 && after[..|before|] == before
    requires after[|before|].paymentId == paymentId && after[|before|].reason == PrintFailed
    requires OnePerPayment(before) && !HasRefund(before, paymentId)
    ensures OnePerPayment(after) && HasRefund(after, paymentId)
  {
    assert Obliges(after, |before|, paymentId);
    forall m, n, p | Obliges(after, m, p) && Obliges(after, n, p) ensures m == n {
      assert m < |before| ==> after[m] == before[m] && Obliges(before, m, p);
      assert n < |before| ==> after[n] == before[n] && Obliges(before, n, p);
    }
  }

  lemma KeptRefund(before: seq<Refund>, after: seq<Refund>, paymentId: Id)
    requires |before| <= |after| && after[..|before|] == before && HasRefund(before, paymentId)
    ensures HasRefund(after, paymentId)
  {
    var n :| Obliges(before, n, paymentId);
    assert after[n] == after[..|before|][n];
    assert Obliges(after, n, paymentId);
  }

  lemma WrittenKeepsRefundsRight(db: Db, after: Db, read: Job, input: Input)
    requires RefundsRight(db) && PrintJob.Coherent(input.settlement)
    requires JobReadHolds(db, read, input) && ClaimSucceeds(db, read, input) && Written(db, after, read, input)
    ensures RefundsRight(after)
  {
    hide FindRefund, AuditedAs, PaperAfter, RefundsAfter, PrintJob.Coherent, OwedOn, HasRefund;
    WrittenRefunds(db, after, read, input);
    var claimed := input.printJobId;
    ClaimedOwner(db, read, input);
    forall id | id in db.jobs && id != claimed ensures RefundDue(after, id) <==> RefundDue(db, id) {
      OwedSame(db, after, db.jobs[id].paymentId, db.jobs[id].sessionId);
    }
    ClaimedWasOpen(db, read, input);
    if RefundDue(after, claimed) {
      AppendedRefund(db.refunds, after.refunds, db.jobs[claimed].paymentId);
      OpenIsNotDue(after, claimed);
      assert Justifies(after, claimed, after.refunds[|db.refunds|]);
    }
    forall n | 0 <= n < |after.refunds| && after.refunds[n].reason == PrintFailed ensures Justified(after, after.refunds[n]) {
      if n < |db.refunds| {
        var id :| Justifies(db, id, db.refunds[n]);
        assert id != claimed;
        assert Justifies(after, id, after.refunds[n]);
      }
    }
    forall id | id in after.jobs && RefundDue(after, id) ensures HasRefund(after.refunds, after.jobs[id].paymentId) {
      if id != claimed {
        KeptRefund(db.refunds, after.refunds, db.jobs[id].paymentId);
      }
    }
  }

  lemma PhaseKeepsRefundsRight(db: Db, phase: Phase, input: Input)
    requires RefundsRight(db) && ReadsHold(db, Txn(input, phase))
    ensures RefundsRight(Advance(db, phase, input).db)
  {
    hide Advance, Written, RefundsRight;
    PhaseEffect(db, phase, input);
    var after := Advance(db, phase, input);
    if Applied(after.phase) && !Applied(phase) {
      WrittenKeepsRefundsRight(db, after.db, phase.job, input);
    }
  }

  lemma {:induction false} RunsKeepRefundsRight(start: System, events: seq<Event>, k: nat)
    requires Starting(start) && Lawful(start, events) && k <= |events| && RefundsRight(start.db)
    ensures RefundsRight(After(start, events, k).db)
  {
    hide RefundsRight, Starting, Lawful, Rely, Advance, Consistent, ReadsHold;
    if k > 0 {
      RunsKeepRefundsRight(start, events, k - 1);
      RunsAreConsistent(start, events, k - 1);
      var s, e := After(start, events, k - 1), events[k - 1];
      match e
      case Elsewhere(after) =>
        RelyAt(start, events, k - 1);
        OthersKeepRefundsRight(s.db, after);
      case Settle(i) =>
        if i < |s.txns| {
          ReadsHoldAt(s, i);
          PhaseKeepsRefundsRight(s.db, s.txns[i].phase, s.txns[i].input);
        }
    }
  }

  /**
   * At every moment of every run: a job has a refund for a failed print if and only if
   * it settled as a failure or cancellation and its payment was captured, applied and
   * not free; there is at most one, over the whole captured amount. A job settled during
   * the run that has one produced, with confirmation, no sheet at all.
   */
  lemma RefundsOverRuns(start: System, events: seq<Event>, k: nat, id: Id)
    requires Starting(start) && Lawful(start, events) && k <= |events| && RefundsRight(start.db)
    requires id in After(start, events, k).db.jobs
    requires id in start.db.jobs ==> IsOpen(start.db.jobs[id].status)
    ensures var db := After(start, events, k).db;
            var paymentId := db.jobs[id].paymentId;
            && (HasRefund(db.refunds, paymentId) <==>
                  DefiniteFailure(db.jobs[id]) && OwedOn(db, paymentId, db.jobs[id].sessionId))
            && (forall m, n :: Obliges(db.refunds, m, paymentId) && Obliges(db.refunds, n, paymentId) ==> m == n)
            && (forall n :: Obliges(db.refunds, n, paymentId) ==> db.refunds[n].amountMinor == db.payments[paymentId].amountMinor)
            && (HasRefund(db.refunds, paymentId) ==>
                  db.jobs[id].sheetsProduced == Some(0) && db.jobs[id].resultConfidence == Known(PrintJob.Confirmed))
  {
    hide Starting, Lawful, Next, OwedOn, Obliges;
    RunsKeepRefundsRight(start, events, k);
    var s := After(start, events, k);
    RefundIffDue(s.db, id);
    if RefundDue(s.db, id) {
      hide RefundsRight;
      var i := SettledByItsWinner(start, events, k, id);
      RunsAreConsistent(start, events, k);
      ReadsHoldAt(s, i);
    }
  }
}
