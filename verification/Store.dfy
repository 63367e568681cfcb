/**
 * The database a transaction works on, and the shared writers as they run: one statement
 * after another over rows that the earlier statements changed. Every method is tied to
 * the value-level description of the same writer.
 */
module Store {
  import opened Records
  import opened Wrappers
  import Cleanup
  import EventWriters
  import PrintJob
  import Session
  import Settlement
  import SettlementLaws
  import SettlementMeaning
  import SettlementRuns

  lemma UnappliedSettlesNothing(db: Db, input: Settlement.Input)
    ensures PrintJob.Coherent(input.settlement) && !SettlementRuns.Applied(Settlement.ApplySettlement(db, input).phase) ==>
              Settlement.ApplySettlement(db, input).db == db
  {
    hide PrintJob.Coherent, SettlementRuns.Applied, Settlement.ApplySettlement;
    if PrintJob.Coherent(input.settlement) {
      SettlementLaws.SettledOnceUnderTheLock(db, input, input);
    }
  }

  lemma ScheduledIfScheduled(db: Db, sessionId: Id, now: Time, schedule: Option<Cleanup.Schedule>)
    ensures var after := Cleanup.ScheduleCleanup(db, sessionId, now, schedule);
            schedule.Some? && after.Success? ==> Cleanup.Scheduled(after.value, sessionId)
  {
    hide Cleanup.ScheduleFiles, Cleanup.Scheduled;
    if schedule.Some? && Cleanup.ScheduleCleanup(db, sessionId, now, schedule).Success? {
      Cleanup.FirstPassSchedules(db, sessionId, Cleanup.Pass(now, schedule.value));
    }
  }

  lemma RecordingKeepsSessions(db: Db, read: Job, input: Settlement.Input)
    requires input.printJobId in db.jobs
    ensures Settlement.RecordOutcome(Settlement.ClaimJob(db, input), read, input).db.sessions == db.sessions
  {
    hide SettlementRuns.Written;
    SettlementRuns.WriteEffect(db, read, input);
  }

  lemma SettlesIfCoherent(db: Db, after: Db, input: Settlement.Input, r: Result<Settlement.Outcome, Settlement.UniqueViolation>)
    requires r.Success? ==> Settlement.Progress(after, Settlement.Finished(r.value)) == Settlement.ApplySettlement(db, input)
    requires r.Failure? ==> Settlement.ApplySettlement(db, input) == Settlement.Progress(db, Settlement.RolledBack)
    ensures PrintJob.Coherent(input.settlement) ==> SettlementMeaning.Settles(db, after, input, r)
  {
    hide PrintJob.Coherent, Settlement.ApplySettlement, SettlementMeaning.Settles;
    if PrintJob.Coherent(input.settlement) {
      SettlementMeaning.ApplyingSettles(db, after, input, r);
    }
  }

  class Store {
    var jobs: map<Id, Job>
    var commands: map<Id, Command>
    var payments: map<Id, Payment>
    var refunds: seq<Refund>
    var ledger: seq<LedgerEntry>
    var audit: seq<AuditEvent>
    var paper: map<Id, int>
    var sessions: map<Id, SessionRow>
    var outbox: seq<OutboxEvent>
    var files: map<Id, File>
    var grants: map<Id, Access>
    var clients: map<Id, Access>
    var quotes: map<Id, QuoteRow>
    var attempts: seq<PaymentAttempt>

    ghost function View(): Db
      reads this
    {
      Db(jobs, commands, payments, refunds, ledger, audit, paper, sessions, outbox, files, grants, clients, quotes, attempts)
    }

    constructor (db: Db)
      ensures View() == db
    {
      jobs, commands, payments, refunds, ledger := db.jobs, db.commands, db.payments, db.refunds, db.ledger;
      audit, paper, sessions, outbox, files := db.audit, db.paper, db.sessions, db.outbox, db.files;
      grants, clients, quotes, attempts := db.grants, db.clients, db.quotes, db.attempts;
    }

    // ---------- print-jobs.ts ----------

    method NextPrintJobEventSequence(printJobId: Id) returns (next: int)
      ensures next == Settlement.LatestSequence(ledger, printJobId) + 1
      ensures SettlementMeaning.NextNumber(ledger, printJobId, next)
    {
      SettlementMeaning.LatestIsHighest(ledger, printJobId);
      var latest := 0;
      for i := 0 to |ledger|
        invariant latest == Settlement.LatestSequence(ledger[..i], printJobId)
      {
        assert ledger[..i + 1][..i] == ledger[..i];
        if ledger[i].printJobId == printJobId && latest < ledger[i].sequence {
          latest := ledger[i].sequence;
        }
      }
      assert ledger[..|ledger|] == ledger;
      return latest + 1;
    }

    method RecordPrintJobEvent(input: Settlement.Input, refundId: Option<Id>) returns (sequence: int)
      modifies this`ledger
      ensures View() == Settlement.RecordEvent(old(View()), input, refundId)
      ensures |ledger| == |old(ledger)| + 1 && ledger[..|old(ledger)|] == old(ledger)
      ensures SettlementMeaning.Tells(old(View()), ledger[|old(ledger)|], input, refundId) && ledger[|old(ledger)|].sequence == sequence
    {
      hide SettlementMeaning.NextNumber;
      sequence := NextPrintJobEventSequence(input.printJobId);
      var s := input.settlement;
      ledger := ledger + [
        LedgerEntry(input.printJobId, sequence, input.ledgerType, Settled(s.status), input.operationId,
                    Known(s.resultConfidence), s.failureCode, s.warningCode, s.sheetsProduced, refundId.Some?, input.now)];
    }

    method RecordPrintFailureCompensation(paymentId: Id, sessionId: Id, input: Settlement.Input) returns (refundId: Option<Id>)
      modifies this`refunds
      ensures Settlement.Compensated(View(), refundId) == Settlement.Compensate(old(View()), paymentId, sessionId, input)
      ensures refundId.Some? <==> Settlement.OwedOn(View(), paymentId, sessionId)
    {
      if paymentId !in payments { return None; }
      var payment := payments[paymentId];
      if payment.sessionId != sessionId || payment.status != Captured || !payment.appliedToSession { return None; }
      if payment.amountMinor == 0 { return None; }
      var existing := Settlement.FindRefund(refunds, paymentId, PrintFailed);
      if existing.Some? { return Some(existing.value.id); }
      refunds := refunds + [Refund(input.newRefundId, paymentId, sessionId, PrintFailed, payment.amountMinor, input.now)];
      return Some(input.newRefundId);
    }

    method CloseCommands(input: Settlement.Input)
      modifies this`commands
      ensures View() == Settlement.CloseCommands(old(View()), input)
      ensures SettlementMeaning.CommandsClosed(old(commands), commands, input)
    {
      SettlementMeaning.ClosingClosesCommands(View(), input);
      commands := Cleanup.UpdateMany(commands, c => Settlement.CloseCommand(c, input));
    }

    /** The first statement after the read: `count` is the number of rows the guard let through. */
    method ClaimJob(read: Job, input: Settlement.Input) returns (count: nat)
      modifies this`jobs
      ensures count == 1 <==> Settlement.ClaimSucceeds(old(View()), read, input)
      ensures View() == if count == 1 then Settlement.ClaimJob(old(View()), input) else old(View())
      ensures count == 1 ==> SettlementMeaning.OneJobSettled(old(jobs), jobs, input)
    {
      count := 0;
      if input.printJobId in jobs && jobs[input.printJobId].status == read.status {
        jobs := jobs[input.printJobId := Settlement.SettledRow(jobs[input.printJobId], input)];
        count := 1;
      }
    }

    method ApplyKioskPaperDeduction(kioskId: Id, sheetsProduced: int) returns (deduction: Deduction)
      modifies this`paper
      ensures Settlement.Deducted(View(), deduction) == Settlement.DeductPaper(old(View()), kioskId, sheetsProduced)
      ensures old(paper).Keys == paper.Keys && (deduction.estimateAffected <==> kioskId in paper)
      ensures kioskId in paper && 0 <= old(paper)[kioskId] && 0 <= sheetsProduced ==>
                paper[kioskId] == Max(0, old(paper)[kioskId] - sheetsProduced) == old(paper)[kioskId] + deduction.estimateDeltaSheets
    {
      if kioskId !in paper { return Deduction(sheetsProduced, 0, false, None); }
      var current := paper[kioskId];
      var applied := Min(current, Max(0, sheetsProduced));
      var remaining := current - applied;
      paper := paper[kioskId := remaining];
      return Deduction(sheetsProduced, -applied, true, Some(remaining));
    }

    /** Everything between the claim of the job and the write of the session. */
    method RecordOutcome(read: Job, input: Settlement.Input) returns (refundId: Option<Id>)
      modifies this
      ensures Settlement.Compensated(View(), refundId) == Settlement.RecordOutcome(old(View()), read, input)
    {
      hide Settlement.RecordEvent, Settlement.Compensate, Settlement.CloseCommands, Settlement.DeductPaper;
      CloseCommands(input);
      refundId := None;
      if input.settlement.refundObligation {
        refundId := RecordPrintFailureCompensation(read.paymentId, read.sessionId, input);
      }
      var _ := RecordPrintJobEvent(input, refundId);
      var deduction: Option<Deduction> := None;
      if Settlement.ConsumesPaper(input.settlement) {
        var d := ApplyKioskPaperDeduction(read.kioskId, input.settlement.sheetsProduced.value);
        deduction := Some(d);
      }
      audit := audit + [Settlement.AuditOf(read, input, deduction, refundId)];
    }

    /** The guarded write of the session. */
    method UpdateSession(sessionId: Id, read: SessionRow, input: Settlement.Input) returns (count: nat)
      modifies this`sessions
      ensures count == 1 <==> Settlement.MoveSucceeds(old(View()), sessionId, read)
      ensures count == 1 ==> sessions == old(sessions)[sessionId := Settlement.MovedRow(old(sessions)[sessionId], read, input)]
      ensures count != 1 ==> sessions == old(sessions)
    {
      count := 0;
      if sessionId in sessions && sessions[sessionId].stateVersion == read.stateVersion {
        sessions := sessions[sessionId := Settlement.MovedRow(sessions[sessionId], read, input)];
        count := 1;
      }
    }

    /** An insert into the outbox, which a row with the same session and number refuses. */
    method CreateOutboxEvent(e: OutboxEvent) returns (r: Result<(), Settlement.UniqueViolation>)
      modifies this`outbox
      ensures r.Failure? <==> Settlement.KeyTaken(old(outbox), e.sessionId, e.sequence)
      ensures r.Failure? ==> r.error == Settlement.OutboxSequenceTaken
      ensures outbox == if r.Success? then old(outbox) + [e] else old(outbox)
    {
      for i := 0 to |outbox|
        invariant forall k :: 0 <= k < i ==> outbox[k].sessionId != e.sessionId || outbox[k].sequence != e.sequence
      {
        if outbox[i].sessionId == e.sessionId && outbox[i].sequence == e.sequence {
          return Failure(Settlement.OutboxSequenceTaken);
        }
      }
      outbox := outbox + [e];
      return Success(());
    }

    method ReadJob(input: Settlement.Input) returns (phase: Settlement.Phase)
      ensures phase == Settlement.ReadJob(View(), input)
    {
      if input.printJobId !in jobs { return Settlement.Finished(Settlement.NOT_APPLIED); }
      var job := jobs[input.printJobId];
      if !Settlement.IsOpen(job.status) { return Settlement.Finished(Settlement.NOT_APPLIED); }
      return Settlement.Claiming(job);
    }

    /** The writes on the session that was read, in order; a refused insert is thrown to the transaction. */
    method MovePhase(read: Job, session: SessionRow, refundId: Option<Id>, input: Settlement.Input)
      returns (r: Result<Settlement.Outcome, Settlement.UniqueViolation>)
      modifies this
      ensures r.Success? ==>
                Success(Settlement.Progress(View(), Settlement.Finished(r.value)))
                == Settlement.MovePhase(old(View()), read, session, refundId, input)
      ensures r.Failure? ==> Failure(r.error) == Settlement.MovePhase(old(View()), read, session, refundId, input)
    {
      hide Cleanup.RevokeAccess, Cleanup.ScheduleFiles, Cleanup.ScheduleSession, Settlement.MovedRow, Settlement.EventOf,
        Cleanup.Scheduled, Cleanup.Passed, SettlementMeaning.NoAccess, SettlementMeaning.Cut, SettlementMeaning.NoneClaimed;
      ghost var start := View();
      var count := UpdateSession(read.sessionId, session, input);
      if count != 1 {
        return Success(Settlement.Outcome(true, refundId, Some(session.state), None));
      }
      var _ :- CreateOutboxEvent(
        OutboxEvent(read.sessionId, session.eventSequence + 1, Settlement.EventOf(input, session.stateVersion + 1)));
      assert View() == Settlement.MoveSession(start, read.sessionId, session, input);
      RevokeSessionAccess(read.sessionId, input.now);
      var terminal := Settlement.TerminalStateOf(input.settlement.sessionState);
      var scheduled := ScheduleSessionFilesForCleanup(
        read.sessionId, input.now, Some(Cleanup.Schedule(terminal, input.retentionPolicy)));
      var state := Settlement.SessionStateOf(input.settlement.sessionState);
      return Success(Settlement.Outcome(true, refundId, Some(state), Some(session.stateVersion + 1)));
    }

    /**
     * The whole body of a settlement, statement by statement. What a thrown violation
     * leaves half-written is for the transaction around it to undo.
     */
    method ApplyPrintJobSettlement(input: Settlement.Input) returns (r: Result<Settlement.Outcome, Settlement.UniqueViolation>)
      modifies this
      ensures r.Success? ==> Settlement.Progress(View(), Settlement.Finished(r.value)) == Settlement.ApplySettlement(old(View()), input)
      ensures r.Failure? ==> Settlement.ApplySettlement(old(View()), input) == Settlement.Progress(old(View()), Settlement.RolledBack)
      ensures PrintJob.Coherent(input.settlement) ==> SettlementMeaning.Settles(old(View()), View(), input, r)
    {
      hide Settlement.RecordOutcome, Settlement.MovePhase, Settlement.ClaimJob, SettlementMeaning.Settles, PrintJob.Coherent;
      ghost var start := View();
      var phase := ReadJob(input);
      if phase.Finished? {
        r := Success(phase.outcome);
      } else {
        var job := phase.job;
        var count := ClaimJob(job, input);
        assert count == 1;
        var refundId := RecordOutcome(job, input);
        RecordingKeepsSessions(start, job, input);
        if job.sessionId !in sessions {
          r := Success(Settlement.Outcome(true, refundId, None, None));
        } else if sessions[job.sessionId].state != Session.Printing {
          r := Success(Settlement.Outcome(true, refundId, Some(sessions[job.sessionId].state), None));
        } else {
          r := MovePhase(job, sessions[job.sessionId], refundId, input);
        }
      }
      SettlesIfCoherent(start, View(), input, r);
    }

    /** The transaction: nothing of a settlement that failed is left behind. */
    method SettleInTransaction(input: Settlement.Input) returns (phase: Settlement.Phase)
      modifies this
      ensures Settlement.Progress(View(), phase) == Settlement.ApplySettlement(old(View()), input)
      ensures PrintJob.Coherent(input.settlement) && !SettlementRuns.Applied(phase) ==> View() == old(View())
    {
      hide Settlement.ApplySettlement, SettlementRuns.Applied, PrintJob.Coherent;
      UnappliedSettlesNothing(View(), input);
      var saved := Snapshot();
      var r := ApplyPrintJobSettlement(input);
      if r.Success? { return Settlement.Finished(r.value); }
      Restore(saved);
      return Settlement.RolledBack;
    }

    method Snapshot() returns (db: Db)
      ensures db == View()
    {
      return Db(jobs, commands, payments, refunds, ledger, audit, paper, sessions, outbox, files, grants, clients, quotes, attempts);
    }

    method Restore(db: Db)
      modifies this
      ensures View() == db
    {
      jobs, commands := db.jobs, db.commands;
      RestoreMoney(db);
      RestoreSessions(db);
    }

    method RestoreMoney(db: Db)
      modifies this`payments, this`refunds, this`ledger, this`audit, this`paper, this`attempts
      ensures payments == db.payments && refunds == db.refunds && ledger == db.ledger
      ensures audit == db.audit && paper == db.paper && attempts == db.attempts
    {
      payments, refunds, ledger := db.payments, db.refunds, db.ledger;
      audit, paper, attempts := db.audit, db.paper, db.attempts;
    }

    method RestoreSessions(db: Db)
      modifies this`sessions, this`outbox, this`files, this`grants, this`clients, this`quotes
      ensures sessions == db.sessions && outbox == db.outbox && files == db.files
      ensures grants == db.grants && clients == db.clients && quotes == db.quotes
    {
      sessions, outbox, files := db.sessions, db.outbox, db.files;
      grants, clients, quotes := db.grants, db.clients, db.quotes;
    }

    // ---------- session-cleanup.ts ----------

    method RevokeSessionAccess(sessionId: Id, now: Time)
      modifies this`grants, this`clients
      ensures View() == Cleanup.RevokeAccess(old(View()), sessionId, now)
      ensures SettlementMeaning.Cut(old(grants), grants, {Active, AccessClaimed}, sessionId, now)
      ensures SettlementMeaning.Cut(old(clients), clients, {Active}, sessionId, now)
      ensures SettlementMeaning.NoAccess(grants, sessionId)
      ensures SettlementMeaning.NoneClaimed(clients) ==> SettlementMeaning.NoAccess(clients, sessionId)
    {
      grants := Cleanup.UpdateMany(grants, g => Cleanup.RevokeGrant(g, sessionId, now));
      clients := Cleanup.UpdateMany(clients, c => Cleanup.RevokeClient(c, sessionId, now));
    }

    /** The four bulk updates of the documents, each over rows the earlier ones changed. */
    method ScheduleFiles(sessionId: Id, now: Time, dueAt: Time)
      modifies this`files
      ensures files == Cleanup.ScheduleFiles(old(files), sessionId, now, dueAt)
    {
      files := Cleanup.UpdateMany(files, f => Cleanup.ProtectUpload(f, sessionId, now));
      files := Cleanup.UpdateMany(files, f => Cleanup.RemarkDeleting(f, sessionId, now));
      files := Cleanup.UpdateMany(files, f => Cleanup.MarkSettled(f, sessionId, now, dueAt));
      files := Cleanup.UpdateMany(files, f => Cleanup.MarkValidating(f, sessionId, now, dueAt));
    }

    /** Fails, and then writes nothing, only for a policy the configuration would have refused. */
    method ScheduleSessionFilesForCleanup(sessionId: Id, now: Time, schedule: Option<Cleanup.Schedule>)
      returns (r: Result<(), Cleanup.RetentionError>)
      modifies this`files, this`sessions
      ensures r.Success? ==> Success(View()) == Cleanup.ScheduleCleanup(old(View()), sessionId, now, schedule)
      ensures r.Failure? ==> Failure(r.error) == Cleanup.ScheduleCleanup(old(View()), sessionId, now, schedule)
      ensures r.Failure? ==> View() == old(View()) && schedule.Some? && !Cleanup.PolicyValid(schedule.value.policy)
      ensures r.Success? ==> Cleanup.Passed(old(View()), View(), sessionId, now, schedule)
      ensures r.Success? && schedule.Some? ==> Cleanup.Scheduled(View(), sessionId)
    {
      hide Cleanup.Scheduled, Cleanup.Passed, Cleanup.ScheduleFiles;
      ghost var start := View();
      Cleanup.PassMeaning(start, sessionId, now, schedule);
      ScheduledIfScheduled(start, sessionId, now, schedule);
      var dueAt := now;
      if schedule.Some? {
        dueAt :- Cleanup.CleanupDueAt(schedule.value.terminalState, now, schedule.value.policy);
      }
      ScheduleFiles(sessionId, now, dueAt);
      if schedule.Some? && sessionId in sessions && sessions[sessionId].cleanupStatus == NotDue {
        sessions := sessions[sessionId := sessions[sessionId].(cleanupStatus := CleanupPending, cleanupDueAt := Some(dueAt), updatedAt := now)];
      }
      return Success(());
    }

    // ---------- session-payments.ts ----------

    method NextAttemptNumber(paymentId: Id) returns (next: int)
      ensures next == EventWriters.LatestAttempt(attempts, paymentId) + 1
      ensures EventWriters.NextAttempt(attempts, paymentId, next)
    {
      EventWriters.LatestIsHighest(attempts, paymentId);
      var latest := 0;
      for i := 0 to |attempts|
        invariant latest == EventWriters.LatestAttempt(attempts[..i], paymentId)
      {
        assert attempts[..i + 1][..i] == attempts[..i];
        if attempts[i].paymentId == paymentId && latest < attempts[i].attempt {
          latest := attempts[i].attempt;
        }
      }
      assert attempts[..|attempts|] == attempts;
      return latest + 1;
    }

    /** The two reads: any captured payment, else any open one. */
    method FindPayments(sessionId: Id) returns (found: EventWriters.PaymentRead)
      ensures EventWriters.Answers(View(), sessionId, found)
    {
      found := EventWriters.PaymentRead(None, None);
      if captured :| captured in payments && payments[captured].sessionId == sessionId
                     && payments[captured].status == Captured && payments[captured].appliedToSession {
        found := found.(captured := Some(captured));
      } else if open :| open in payments && payments[open].sessionId == sessionId
                        && EventWriters.OpenPayment(payments[open].status) {
        found := found.(open := Some((open, payments[open].status)));
      }
    }

    /** What follows the reads, however long ago they were made. */
    method ReleaseFound(found: EventWriters.PaymentRead, input: EventWriters.ReleaseInput)
      returns (nextSequence: int, capturedPaymentId: Option<Id>, releasedPaymentId: Option<Id>)
      modifies this`payments, this`attempts, this`outbox
      ensures EventWriters.Release(View(), nextSequence, capturedPaymentId, releasedPaymentId)
              == EventWriters.ReleasePayments(old(View()), found, input)
      ensures EventWriters.ReleasesAsRead(
                old(View()), EventWriters.Release(View(), nextSequence, capturedPaymentId, releasedPaymentId), found, input)
    {
      EventWriters.ReleaseIsGuarded(View(), found, input);
      hide EventWriters.ReleasesAsRead;
      nextSequence, capturedPaymentId, releasedPaymentId := input.startingSequence, found.captured, None;
      if found.captured.Some? || found.open.None? { return; }
      var (open, status) := found.open.value;
      if open !in payments || payments[open].status != status { return; }
      payments := payments[open := EventWriters.CanceledPayment(payments[open], input.now)];
      nextSequence := input.startingSequence + 1;
      var attempt := NextAttemptNumber(open);
      attempts := attempts + [PaymentAttempt(open, attempt, input.now)];
      outbox := outbox + [OutboxEvent(input.sessionId, nextSequence, PaymentFailed(open, input.nextState, input.nextVersion))];
      releasedPaymentId := Some(open);
    }

    method ReleaseSessionPayments(input: EventWriters.ReleaseInput)
      returns (nextSequence: int, capturedPaymentId: Option<Id>, releasedPaymentId: Option<Id>, ghost found: EventWriters.PaymentRead)
      modifies this`payments, this`attempts, this`outbox
      ensures EventWriters.Answers(old(View()), input.sessionId, found)
      ensures EventWriters.Release(View(), nextSequence, capturedPaymentId, releasedPaymentId)
              == EventWriters.ReleasePayments(old(View()), found, input)
      ensures EventWriters.OnePayment(old(View()), input.sessionId) && capturedPaymentId.None? ==>
                forall id :: !EventWriters.OpenFor(View(), input.sessionId, id)
    {
      hide EventWriters.ReleasePayments, EventWriters.Answers;
      var read := FindPayments(input.sessionId);
      found := read;
      if EventWriters.OnePayment(View(), input.sessionId) {
        EventWriters.ReleaseLeavesNoOpenPayment(View(), found, input);
      }
      nextSequence, capturedPaymentId, releasedPaymentId := ReleaseFound(read, input);
    }

    // ---------- session-pricing.ts ----------

    /** The read: any active quote. */
    method FindActiveQuote(sessionId: Id) returns (active: Option<Id>)
      ensures EventWriters.AnswersQuote(View(), sessionId, active)
    {
      active := None;
      if id :| id in quotes && quotes[id].sessionId == sessionId && quotes[id].status == ActiveQuote {
        active := Some(id);
      }
    }

    /** What follows the read, however long ago it was made. */
    method RetireQuote(active: Option<Id>, input: EventWriters.InvalidationInput)
      returns (nextSequence: int, invalidatedQuoteId: Option<Id>)
      requires input.sessionId in sessions
      modifies this`sessions, this`quotes, this`outbox
      ensures EventWriters.Invalidation(View(), nextSequence, invalidatedQuoteId)
              == EventWriters.InvalidatePricing(old(View()), active, input)
      ensures EventWriters.InvalidatesAsRead(
                old(View()), EventWriters.Invalidation(View(), nextSequence, invalidatedQuoteId), active, input)
    {
      EventWriters.InvalidationIsGuarded(View(), active, input);
      hide EventWriters.InvalidatesAsRead;
      nextSequence, invalidatedQuoteId := input.startingSequence, None;
      sessions := sessions[input.sessionId := EventWriters.ClearedSession(sessions[input.sessionId], input.clearSettingsRevision)];
      if active.None? { return; }
      var id := active.value;
      if id !in quotes || quotes[id].sessionId != input.sessionId || quotes[id].status != ActiveQuote { return; }
      quotes := quotes[id := quotes[id].(status := Invalidated, invalidatedAt := Some(input.now), invalidationReason := Some(input.reason))];
      nextSequence := input.startingSequence + 1;
      outbox := outbox + [OutboxEvent(input.sessionId, nextSequence, QuoteInvalidated(id, input.reason))];
      invalidatedQuoteId := Some(id);
    }

    method InvalidateSessionPricing(input: EventWriters.InvalidationInput)
      returns (nextSequence: int, invalidatedQuoteId: Option<Id>, ghost active: Option<Id>)
      requires input.sessionId in sessions
      modifies this`sessions, this`quotes, this`outbox
      ensures EventWriters.AnswersQuote(old(View()), input.sessionId, active)
      ensures EventWriters.Invalidation(View(), nextSequence, invalidatedQuoteId)
              == EventWriters.InvalidatePricing(old(View()), active, input)
      ensures EventWriters.OneQuote(old(View()), input.sessionId) ==> forall id :: !EventWriters.ActiveFor(View(), input.sessionId, id)
    {
      hide EventWriters.InvalidatePricing, EventWriters.AnswersQuote;
      var read := FindActiveQuote(input.sessionId);
      active := read;
      if EventWriters.OneQuote(View(), input.sessionId) {
        EventWriters.InvalidationLeavesNoQuote(View(), active, input);
      }
      nextSequence, invalidatedQuoteId := RetireQuote(read, input);
    }
  }
}
