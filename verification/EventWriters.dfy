/**
 * The other writers of a session's event sequence: closing an open payment
 * (packages/database/src/session-payments.ts) and retiring the active quote
 * (packages/database/src/session-pricing.ts). Each reads first and updates under a guard.
 */
module EventWriters {
  import opened Records
  import opened Wrappers
  import Session

  // ---------- Payments ----------

  predicate OpenPayment(status: PaymentStatus) {
    status == Pending || status == Authorized
  }

  /** What the two `findFirst` calls of a release found. */
  datatype PaymentRead = PaymentRead(captured: Option<Id>, open: Option<(Id, PaymentStatus)>)

  datatype Release = Release(db: Db, nextSequence: int, capturedPaymentId: Option<Id>, releasedPaymentId: Option<Id>)

  predicate Capturing(db: Db, sessionId: Id, id: Id) {
    id in db.payments && db.payments[id].sessionId == sessionId
    && db.payments[id].status == Captured && db.payments[id].appliedToSession
  }

  predicate OpenFor(db: Db, sessionId: Id, id: Id) {
    id in db.payments && db.payments[id].sessionId == sessionId && OpenPayment(db.payments[id].status)
  }

  /** Any answer the database may give to the two reads; the second is made only without a capture. */
  ghost predicate Answers(db: Db, sessionId: Id, read: PaymentRead) {
    && (match read.captured
        case Some(id) => Capturing(db, sessionId, id)
        case None => forall id :: !Capturing(db, sessionId, id))
    && (read.captured.Some? || match read.open
        case Some((id, status)) => OpenFor(db, sessionId, id) && db.payments[id].status == status
        case None => forall id :: !OpenFor(db, sessionId, id))
  }

  function LatestAttempt(attempts: seq<PaymentAttempt>, paymentId: Id): int {
    if attempts == [] then 0
    else
      var earlier, last := LatestAttempt(attempts[..|attempts| - 1], paymentId), attempts[|attempts| - 1];
      if last.paymentId == paymentId then Max(earlier, last.attempt) else earlier
  }

  datatype ReleaseInput = ReleaseInput(
    sessionId: Id, now: Time, startingSequence: int, nextState: Session.SessionState, nextVersion: int)

  function CanceledPayment(p: Payment, now: Time): Payment {
    p.(status := PaymentCanceled, failureCode := Some("SESSION_TERMINAL"), failedAt := Some(now), updatedAt := now)
  }

  function ReleasePayments(db: Db, read: PaymentRead, input: ReleaseInput): Release {
    match (read.captured, read.open)
    case (Some(id), _) => Release(db, input.startingSequence, Some(id), None)
    case (None, None) => Release(db, input.startingSequence, None, None)
    case (None, Some((id, status))) =>
      if id !in db.payments || db.payments[id].status != status then Release(db, input.startingSequence, None, None)
      else
        var sequence := input.startingSequence + 1;
        Release(
          db.(payments := db.payments[id := CanceledPayment(db.payments[id], input.now)],
              attempts := db.attempts + [PaymentAttempt(id, LatestAttempt(db.attempts, id) + 1, input.now)],
              outbox := db.outbox + [OutboxEvent(input.sessionId, sequence, PaymentFailed(id, input.nextState, input.nextVersion))]),
          sequence, None, Some(id))
  }

  // ---------- Pricing ----------

  datatype Invalidation = Invalidation(db: Db, nextSequence: int, invalidatedQuoteId: Option<Id>)

  datatype InvalidationInput = InvalidationInput(
    sessionId: Id, reason: InvalidationReason, now: Time, startingSequence: int, clearSettingsRevision: bool)

  predicate ActiveFor(db: Db, sessionId: Id, id: Id) {
    id in db.quotes && db.quotes[id].sessionId == sessionId && db.quotes[id].status == ActiveQuote
  }

  ghost predicate AnswersQuote(db: Db, sessionId: Id, active: Option<Id>) {
    match active
    case Some(id) => ActiveFor(db, sessionId, id)
    case None => forall id :: !ActiveFor(db, sessionId, id)
  }

  function ClearedSession(row: SessionRow, clearSettingsRevision: bool): SessionRow {
    row.(activeQuoteId := None, currentSettingsRevision := if clearSettingsRevision then None else row.currentSettingsRevision)
  }

  function InvalidatePricing(db: Db, active: Option<Id>, input: InvalidationInput): Invalidation
    requires input.sessionId in db.sessions
  {
    var cleared := db.(sessions := db.sessions[input.sessionId := ClearedSession(db.sessions[input.sessionId], input.clearSettingsRevision)]);
    match active
    case None => Invalidation(cleared, input.startingSequence, None)
    case Some(id) =>
      if !ActiveFor(cleared, input.sessionId, id) then Invalidation(cleared, input.startingSequence, None)
      else
        var retired := cleared.quotes[id].(status := Invalidated, invalidatedAt := Some(input.now), invalidationReason := Some(input.reason));
        Invalidation(
          cleared.(quotes := cleared.quotes[id := retired],
                   outbox := cleared.outbox + [OutboxEvent(input.sessionId, input.startingSequence + 1, QuoteInvalidated(id, input.reason))]),
          input.startingSequence + 1, Some(id))
  }

  // ---------- What the writers leave behind ----------

  /** `payments_one_open_per_session_idx` and `payments_one_applied_capture_per_session_idx`. */
  ghost predicate OnePayment(db: Db, sessionId: Id) {
    forall a, b :: OpenFor(db, sessionId, a) && OpenFor(db, sessionId, b) ==> a == b
  }

  ghost predicate OneQuote(db: Db, sessionId: Id) {
    forall a, b :: ActiveFor(db, sessionId, a) && ActiveFor(db, sessionId, b) ==> a == b
  }

  /** One more than the highest attempt of the payment, and one for its first. */
  ghost predicate NextAttempt(attempts: seq<PaymentAttempt>, paymentId: Id, attempt: int) {
    && (forall n :: 0 <= n < |attempts| && attempts[n].paymentId == paymentId ==> attempts[n].attempt < attempt)
    && (attempt == 1
        || (attempt > 1 && exists n :: 0 <= n < |attempts| && attempts[n].paymentId == paymentId && attempts[n].attempt == attempt - 1))
  }

  lemma {:induction false} LatestIsHighest(attempts: seq<PaymentAttempt>, paymentId: Id)
    ensures NextAttempt(attempts, paymentId, LatestAttempt(attempts, paymentId) + 1)
  {
    if attempts != [] {
      var k := |attempts| - 1;
      var earlier := attempts[..k];
      LatestIsHighest(earlier, paymentId);
      assert forall n :: 0 <= n < k ==> earlier[n] == attempts[n];
    }
  }

  /** One payment is canceled as of now, with its attempt and its event; nothing else is touched. */
  ghost predicate Released(db: Db, after: Db, id: Id, input: ReleaseInput) {
    && id in db.payments && id in after.payments
    && after == db.(payments := db.payments[id := after.payments[id]], attempts := after.attempts, outbox := after.outbox)
    && (var p, q := db.payments[id], after.payments[id];
        q == Payment(p.sessionId, PaymentCanceled, p.appliedToSession, p.amountMinor, Some("SESSION_TERMINAL"), Some(input.now), input.now))
    && (exists attempt :: NextAttempt(db.attempts, id, attempt) && after.attempts == db.attempts + [PaymentAttempt(id, attempt, input.now)])
    && after.outbox
       == db.outbox + [OutboxEvent(input.sessionId, input.startingSequence + 1, PaymentFailed(id, input.nextState, input.nextVersion))]
  }

  /**
   * However old the reads are: what they found captured is reported, and what they found
   * open is closed if it is still as it was read, and left alone otherwise.
   */
  ghost predicate ReleasesAsRead(db: Db, r: Release, found: PaymentRead, input: ReleaseInput) {
    && r.capturedPaymentId == found.captured
    && (match r.releasedPaymentId
        case Some(id) =>
          && found.captured.None? && found.open.Some? && found.open.value.0 == id
          && Released(db, r.db, id, input) && db.payments[id].status == found.open.value.1
          && r.nextSequence == input.startingSequence + 1
        case None =>
          && r.db == db && r.nextSequence == input.startingSequence
          && (found.captured.None? && found.open.Some? ==>
                var (id, status) := found.open.value; id !in db.payments || db.payments[id].status != status))
  }

  lemma ReleaseIsGuarded(db: Db, found: PaymentRead, input: ReleaseInput)
    ensures ReleasesAsRead(db, ReleasePayments(db, found, input), found, input)
  {
    if found.captured.None? && found.open.Some? {
      LatestIsHighest(db.attempts, found.open.value.0);
      hide LatestAttempt, NextAttempt;
    }
  }

  /**
   * Money that has moved stops the release, which then writes nothing. Otherwise no
   * payment of the session is left that could still become a capture, one event is
   * written for the one that was, and nothing else is touched.
   */
  lemma ReleaseLeavesNoOpenPayment(db: Db, found: PaymentRead, input: ReleaseInput)
    requires Answers(db, input.sessionId, found) && OnePayment(db, input.sessionId)
    ensures var r := ReleasePayments(db, found, input);
            && (r.capturedPaymentId.Some? <==> exists id :: Capturing(db, input.sessionId, id))
            && (r.capturedPaymentId.Some? ==> Capturing(db, input.sessionId, r.capturedPaymentId.value))
            && (r.capturedPaymentId.None? ==> forall id :: !OpenFor(r.db, input.sessionId, id))
            && (r.releasedPaymentId.Some? <==> r.capturedPaymentId.None? && exists id :: OpenFor(db, input.sessionId, id))
            && (match r.releasedPaymentId
                case Some(id) =>
                  OpenFor(db, input.sessionId, id) && Released(db, r.db, id, input) && r.nextSequence == input.startingSequence + 1
                case None => r.db == db && r.nextSequence == input.startingSequence)
  {
    var r := ReleasePayments(db, found, input);
    ReleaseIsGuarded(db, found, input);
    hide LatestAttempt, NextAttempt;
    if found.captured.None? && found.open.Some? {
      forall id ensures !OpenFor(r.db, input.sessionId, id) {
        assert OpenFor(r.db, input.sessionId, id) ==> OpenFor(db, input.sessionId, id);
      }
    }
  }

  /** The session's price is gone from its row, with its settings if these are to be chosen anew. */
  predicate Cleared(db: Db, after: Db, input: InvalidationInput)
    requires input.sessionId in db.sessions
  {
    && input.sessionId in after.sessions
    && after.sessions == db.sessions[input.sessionId := after.sessions[input.sessionId]]
    && var before, row := db.sessions[input.sessionId], after.sessions[input.sessionId];
       && row == before.(activeQuoteId := None, currentSettingsRevision := row.currentSettingsRevision)
       && (if input.clearSettingsRevision then row.currentSettingsRevision.None?
           else row.currentSettingsRevision == before.currentSettingsRevision)
  }

  /** One quote is invalidated as of now, for the reason given, and its event says so. */
  predicate Retired(db: Db, after: Db, id: Id, input: InvalidationInput) {
    && after.quotes == db.quotes[id := QuoteRow(input.sessionId, Invalidated, Some(input.now), Some(input.reason))]
    && after.outbox == db.outbox + [OutboxEvent(input.sessionId, input.startingSequence + 1, QuoteInvalidated(id, input.reason))]
  }

  /** However old the read is: its quote is retired if it is still the session's active one. */
  predicate InvalidatesAsRead(db: Db, r: Invalidation, active: Option<Id>, input: InvalidationInput)
    requires input.sessionId in db.sessions
  {
    && r.db == db.(sessions := r.db.sessions, quotes := r.db.quotes, outbox := r.db.outbox)
    && Cleared(db, r.db, input)
    && (match r.invalidatedQuoteId
        case Some(id) =>
          && active == Some(id) && ActiveFor(db, input.sessionId, id)
          && Retired(db, r.db, id, input) && r.nextSequence == input.startingSequence + 1
        case None =>
          && (active.Some? ==> !ActiveFor(db, input.sessionId, active.value))
          && r.db.quotes == db.quotes && r.db.outbox == db.outbox && r.nextSequence == input.startingSequence)
  }

  lemma InvalidationIsGuarded(db: Db, active: Option<Id>, input: InvalidationInput)
    requires input.sessionId in db.sessions
    ensures InvalidatesAsRead(db, InvalidatePricing(db, active, input), active, input)
  {
  }

  /** Afterwards the session has no price to pay: no active quote of its own, and none on the row. */
  lemma InvalidationLeavesNoQuote(db: Db, active: Option<Id>, input: InvalidationInput)
    requires input.sessionId in db.sessions && AnswersQuote(db, input.sessionId, active) && OneQuote(db, input.sessionId)
    ensures var r := InvalidatePricing(db, active, input);
            && (forall id :: !ActiveFor(r.db, input.sessionId, id))
            && (r.invalidatedQuoteId.Some? <==> exists id :: ActiveFor(db, input.sessionId, id))
            && InvalidatesAsRead(db, r, active, input)
  {
    var r := InvalidatePricing(db, active, input);
    InvalidationIsGuarded(db, active, input);
    forall id ensures !ActiveFor(r.db, input.sessionId, id) {
      assert ActiveFor(r.db, input.sessionId, id) ==> ActiveFor(db, input.sessionId, id);
    }
  }
}
