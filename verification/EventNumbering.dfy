/**
 * One sequence of events per session, written by many: settlement, payment release,
 * quote invalidation and the callers that chain them and persist the last number
 * (services/api/src/modules/sessions/service.ts, lines 394-430 and 741-774, and
 * services/api/src/modules/files/janitor.ts, lines 102-135). The numbers stay 1, 2, 3, …
 */
module EventNumbering {
  import opened Records
  import opened Wrappers
  import opened EventWriters
  import opened Settlement
  import Cleanup
  import Session
  import SettlementRuns

  // ---------- The log of one session, the ledger of one job ----------

  function Log(outbox: seq<OutboxEvent>, sessionId: Id): seq<OutboxEvent> {
    if outbox == [] then []
    else
      var earlier, last := Log(outbox[..|outbox| - 1], sessionId), outbox[|outbox| - 1];
      if last.sessionId == sessionId then earlier + [last] else earlier
  }

  lemma LogSnoc(outbox: seq<OutboxEvent>, e: OutboxEvent, sessionId: Id)
    ensures Log(outbox + [e], sessionId) == if e.sessionId == sessionId then Log(outbox, sessionId) + [e] else Log(outbox, sessionId)
  {
    assert (outbox + [e])[..|outbox|] == outbox;
  }

  /** The n events written so far carry the numbers 1 to n, in order. */
  ghost predicate NumberedTo(outbox: seq<OutboxEvent>, sessionId: Id, n: int) {
    var log := Log(outbox, sessionId);
    |log| == n && forall i :: 0 <= i < n ==> log[i].sequence == i + 1
  }

  /** … and the row says how many there are. */
  ghost predicate Numbered(db: Db, sessionId: Id) {
    sessionId in db.sessions && NumberedTo(db.outbox, sessionId, db.sessions[sessionId].eventSequence)
  }

  lemma Appended(outbox: seq<OutboxEvent>, sessionId: Id, n: int, e: OutboxEvent)
    requires NumberedTo(outbox, sessionId, n) && e.sessionId == sessionId && e.sequence == n + 1
    ensures NumberedTo(outbox + [e], sessionId, n + 1)
  {
    LogSnoc(outbox, e, sessionId);
  }

  // ---------- The shared writers ----------

  /** Whatever the reads found, the events a release writes continue the numbering it was given. */
  lemma ReleaseContinues(db: Db, found: PaymentRead, input: ReleaseInput, other: Id)
    requires NumberedTo(db.outbox, input.sessionId, input.startingSequence)
    ensures var r := ReleasePayments(db, found, input);
            && NumberedTo(r.db.outbox, input.sessionId, r.nextSequence)
            && r.db.sessions == db.sessions
            && (other != input.sessionId ==> Log(r.db.outbox, other) == Log(db.outbox, other))
  {
    hide NumberedTo, LatestAttempt, Log;
    var r := ReleasePayments(db, found, input);
    if r.nextSequence != input.startingSequence {
      var e := r.db.outbox[|db.outbox|];
      Appended(db.outbox, input.sessionId, input.startingSequence, e);
      LogSnoc(db.outbox, e, other);
    }
  }

  lemma InvalidationContinues(db: Db, active: Option<Id>, input: InvalidationInput, other: Id)
    requires input.sessionId in db.sessions && NumberedTo(db.outbox, input.sessionId, input.startingSequence)
    ensures var r := InvalidatePricing(db, active, input);
            && NumberedTo(r.db.outbox, input.sessionId, r.nextSequence)
            && r.db.sessions.Keys == db.sessions.Keys
            && (other != input.sessionId ==>
                  && Log(r.db.outbox, other) == Log(db.outbox, other)
                  && (other in db.sessions ==> r.db.sessions[other] == db.sessions[other]))
  {
    hide NumberedTo, Log;
    var r := InvalidatePricing(db, active, input);
    if r.nextSequence != input.startingSequence {
      var e := r.db.outbox[|db.outbox|];
      Appended(db.outbox, input.sessionId, input.startingSequence, e);
      LogSnoc(db.outbox, e, other);
    }
  }

  // ---------- The callers ----------

  datatype Ending = Ending(state: Session.SessionState, reason: string, now: Time, body: EventBody)

  /** The caller's own event, and the one number all events of the transaction persist as. */
  function Persist(db: Db, sessionId: Id, row: SessionRow, sequence: int, body: EventBody): Db {
    db.(sessions := db.sessions[sessionId := row.(eventSequence := sequence)],
        outbox := db.outbox + [OutboxEvent(sessionId, sequence, body)])
  }

  /**
   * Ending a session before payment, as cancellation and expiry do: close the payment,
   * retire the quote, then one event of its own, numbered after both.
   */
  function EndUnpaid(db: Db, sessionId: Id, found: PaymentRead, active: Option<Id>, end: Ending): Db
    requires sessionId in db.sessions
  {
    var session := db.sessions[sessionId];
    var release := ReleasePayments(db, found, ReleaseInput(sessionId, end.now, session.eventSequence, end.state, session.stateVersion + 1));
    var invalidation := InvalidatePricing(
      release.db, active, InvalidationInput(sessionId, SessionTerminal, end.now, release.nextSequence, false));
    var row := invalidation.db.sessions[sessionId].(
      state := end.state, stateVersion := session.stateVersion + 1, terminalReason := Some(end.reason), updatedAt := end.now);
    Persist(invalidation.db, sessionId, row, invalidation.nextSequence + 1, end.body)
  }

  /** A changed document or setting, which may send the session back to an earlier state. */
  datatype Change = Change(reason: InvalidationReason, now: Time, clearSettingsRevision: bool, moveTo: Option<Session.SessionState>)

  /**
   * The quote is retired, then the change announced: with the state and version left
   * alone, or with both moved (services/worker/src/jobs/process-document.ts, lines
   * 664-690).
   */
  function Reprice(db: Db, sessionId: Id, active: Option<Id>, change: Change, body: EventBody): Db
    requires sessionId in db.sessions
  {
    var session := db.sessions[sessionId];
    var invalidation := InvalidatePricing(
      db, active, InvalidationInput(sessionId, change.reason, change.now, session.eventSequence, change.clearSettingsRevision));
    var row := invalidation.db.sessions[sessionId].(updatedAt := change.now);
    var moved := match change.moveTo
                 case None => row
                 case Some(state) => row.(state := state, stateVersion := session.stateVersion + 1);
    Persist(invalidation.db, sessionId, moved, invalidation.nextSequence + 1, body)
  }

  /** A transition announced by one event and nothing else, as the start of printing. */
  function Announce(db: Db, sessionId: Id, state: Session.SessionState, now: Time, body: EventBody): Db
    requires sessionId in db.sessions
  {
    var session := db.sessions[sessionId];
    Persist(db, sessionId, session.(state := state, stateVersion := session.stateVersion + 1, updatedAt := now),
            session.eventSequence + 1, body)
  }

  lemma PersistNumbers(db: Db, sessionId: Id, row: SessionRow, n: int, body: EventBody, other: Id)
    requires NumberedTo(db.outbox, sessionId, n)
    ensures Numbered(Persist(db, sessionId, row, n + 1, body), sessionId)
    ensures other != sessionId && Numbered(db, other) ==> Numbered(Persist(db, sessionId, row, n + 1, body), other)
  {
    var e := OutboxEvent(sessionId, n + 1, body);
    Appended(db.outbox, sessionId, n, e);
    LogSnoc(db.outbox, e, other);
    hide Log;
  }

  lemma EndUnpaidNumbers(db: Db, sessionId: Id, found: PaymentRead, active: Option<Id>, end: Ending, other: Id)
    requires Numbered(db, sessionId) && Numbered(db, other)
    ensures Numbered(EndUnpaid(db, sessionId, found, active, end), other)
  {
    hide Log, ReleasePayments, InvalidatePricing;
    var session := db.sessions[sessionId];
    var first := ReleaseInput(sessionId, end.now, session.eventSequence, end.state, session.stateVersion + 1);
    ReleaseContinues(db, found, first, other);
    var release := ReleasePayments(db, found, first);
    var second := InvalidationInput(sessionId, SessionTerminal, end.now, release.nextSequence, false);
    InvalidationContinues(release.db, active, second, other);
    var invalidation := InvalidatePricing(release.db, active, second);
    var row := invalidation.db.sessions[sessionId].(
      state := end.state, stateVersion := session.stateVersion + 1, terminalReason := Some(end.reason), updatedAt := end.now);
    PersistNumbers(invalidation.db, sessionId, row, invalidation.nextSequence, end.body, other);
  }

  lemma RepriceNumbers(db: Db, sessionId: Id, active: Option<Id>, change: Change, body: EventBody, other: Id)
    requires Numbered(db, sessionId) && Numbered(db, other)
    ensures Numbered(Reprice(db, sessionId, active, change, body), other)
  {
    hide Log, InvalidatePricing;
    var session := db.sessions[sessionId];
    var input := InvalidationInput(sessionId, change.reason, change.now, session.eventSequence, change.clearSettingsRevision);
    InvalidationContinues(db, active, input, other);
    var invalidation := InvalidatePricing(db, active, input);
    var row := invalidation.db.sessions[sessionId].(updatedAt := change.now);
    var moved := match change.moveTo
                 case None => row
                 case Some(state) => row.(state := state, stateVersion := session.stateVersion + 1);
    PersistNumbers(invalidation.db, sessionId, moved, invalidation.nextSequence, body, other);
  }

  // ---------- What the callers leave behind ----------

  /** These bodies as the session's next events, in this order. */
  function NextEvents(sessionId: Id, n: int, bodies: seq<EventBody>): (events: seq<OutboxEvent>)
    ensures |events| == |bodies|
    ensures forall i :: 0 <= i < |bodies| ==> events[i] == OutboxEvent(sessionId, n + i + 1, bodies[i])
  {
    seq(|bodies|, i requires 0 <= i < |bodies| => OutboxEvent(sessionId, n + i + 1, bodies[i]))
  }

  lemma NextEventsJoin(sessionId: Id, n: int, first: seq<EventBody>, second: seq<EventBody>)
    ensures NextEvents(sessionId, n, first) + NextEvents(sessionId, n + |first|, second) == NextEvents(sessionId, n, first + second)
  {
  }

  function ReleaseBodies(found: PaymentRead, state: Session.SessionState, version: int): seq<EventBody> {
    match (found.captured, found.open)
    case (None, Some((id, _))) => [PaymentFailed(id, state, version)]
    case _ => []
  }

  function InvalidationBodies(active: Option<Id>, reason: InvalidationReason): seq<EventBody> {
    match active
    case Some(id) => [QuoteInvalidated(id, reason)]
    case None => []
  }

  /** The events of an ending: the payment closed, the quote retired, and then its own. */
  function EndingBodies(found: PaymentRead, active: Option<Id>, end: Ending, version: int): seq<EventBody> {
    ReleaseBodies(found, end.state, version) + InvalidationBodies(active, SessionTerminal) + [end.body]
  }

  predicate OtherSessionsKept(db: Db, after: Db, sessionId: Id) {
    sessionId in db.sessions && sessionId in after.sessions && after.sessions == db.sessions[sessionId := after.sessions[sessionId]]
  }

  /** The row moves on, and its events are exactly these, under the numbers that follow its last one. */
  predicate TellsInOrder(db: Db, after: Db, sessionId: Id, bodies: seq<EventBody>) {
    && OtherSessionsKept(db, after, sessionId)
    && after.outbox == db.outbox + NextEvents(sessionId, db.sessions[sessionId].eventSequence, bodies)
    && after.sessions[sessionId].eventSequence == db.sessions[sessionId].eventSequence + |bodies|
  }

  predicate EndsAs(before: SessionRow, row: SessionRow, end: Ending) {
    row == before.(state := end.state, stateVersion := before.stateVersion + 1, terminalReason := Some(end.reason),
                   activeQuoteId := None, updatedAt := end.now, eventSequence := row.eventSequence)
  }

  lemma SameOpen(a: Db, b: Db, sessionId: Id)
    requires a.payments == b.payments
    ensures forall id :: OpenFor(a, sessionId, id) <==> OpenFor(b, sessionId, id)
  {
  }

  lemma SameActive(a: Db, b: Db, sessionId: Id)
    requires a.quotes == b.quotes
    ensures forall id :: ActiveFor(a, sessionId, id) <==> ActiveFor(b, sessionId, id)
    ensures OneQuote(a, sessionId) <==> OneQuote(b, sessionId)
    ensures forall active :: AnswersQuote(a, sessionId, active) <==> AnswersQuote(b, sessionId, active)
  {
  }

  lemma ReleaseFindsOpen(db: Db, found: PaymentRead, input: ReleaseInput)
    requires Answers(db, input.sessionId, found)
    ensures ReleasePayments(db, found, input).releasedPaymentId.Some? <==> found.captured.None? && found.open.Some?
    ensures ReleasePayments(db, found, input).capturedPaymentId == found.captured
  {
    hide LatestAttempt;
  }

  lemma InvalidationFindsActive(db: Db, active: Option<Id>, input: InvalidationInput)
    requires input.sessionId in db.sessions && AnswersQuote(db, input.sessionId, active)
    ensures InvalidatePricing(db, active, input).invalidatedQuoteId == active
  {
  }

  lemma ReleaseKeepsQuotes(db: Db, r: Release, found: PaymentRead, input: ReleaseInput)
    requires ReleasesAsRead(db, r, found, input)
    ensures r.db.quotes == db.quotes && r.db.sessions == db.sessions
  {
    hide NextAttempt;
  }

  /** The release and the invalidation an ending is made of, and what they leave open. */
  lemma EndUnpaidParts(db: Db, sessionId: Id, found: PaymentRead, active: Option<Id>, end: Ending)
    returns (release: Release, invalidation: Invalidation)
    requires sessionId in db.sessions && Answers(db, sessionId, found) && AnswersQuote(db, sessionId, active)
    requires OnePayment(db, sessionId) && OneQuote(db, sessionId)
    ensures var n, version := db.sessions[sessionId].eventSequence, db.sessions[sessionId].stateVersion + 1;
            && ReleasesAsRead(db, release, found, ReleaseInput(sessionId, end.now, n, end.state, version))
            && (release.releasedPaymentId.Some? <==> found.captured.None? && found.open.Some?)
            && sessionId in release.db.sessions
            && InvalidatesAsRead(release.db, invalidation, active,
                                 InvalidationInput(sessionId, SessionTerminal, end.now, release.nextSequence, false))
            && invalidation.invalidatedQuoteId == active
            && (found.captured.None? ==> forall id :: !OpenFor(invalidation.db, sessionId, id))
            && (forall id :: !ActiveFor(invalidation.db, sessionId, id))
            && EndUnpaid(db, sessionId, found, active, end)
               == (var row := invalidation.db.sessions[sessionId].(
                         state := end.state, stateVersion := version, terminalReason := Some(end.reason), updatedAt := end.now);
                   Persist(invalidation.db, sessionId, row, invalidation.nextSequence + 1, end.body))
  {
    hide ReleasePayments, InvalidatePricing, Capturing, OpenFor, ActiveFor, Persist, OnePayment, OneQuote, Answers, AnswersQuote, Released, Retired;
    var session := db.sessions[sessionId];
    var first := ReleaseInput(sessionId, end.now, session.eventSequence, end.state, session.stateVersion + 1);
    release := ReleasePayments(db, found, first);
    ReleaseLeavesNoOpenPayment(db, found, first);
    ReleaseIsGuarded(db, found, first);
    ReleaseFindsOpen(db, found, first);
    ReleaseKeepsQuotes(db, release, found, first);
    SameActive(db, release.db, sessionId);
    var second := InvalidationInput(sessionId, SessionTerminal, end.now, release.nextSequence, false);
    invalidation := InvalidatePricing(release.db, active, second);
    InvalidationLeavesNoQuote(release.db, active, second);
    InvalidationFindsActive(release.db, active, second);
    SameOpen(release.db, invalidation.db, sessionId);
  }

  lemma ReleaseTells(db: Db, r: Release, found: PaymentRead, input: ReleaseInput)
    requires ReleasesAsRead(db, r, found, input) && (r.releasedPaymentId.Some? <==> found.captured.None? && found.open.Some?)
    ensures var bodies := ReleaseBodies(found, input.nextState, input.nextVersion);
            && r.db.outbox == db.outbox + NextEvents(input.sessionId, input.startingSequence, bodies)
            && r.nextSequence == input.startingSequence + |bodies| && r.db.sessions == db.sessions
  {
    hide NextAttempt;
  }

  lemma InvalidationTells(db: Db, r: Invalidation, active: Option<Id>, input: InvalidationInput)
    requires input.sessionId in db.sessions && InvalidatesAsRead(db, r, active, input) && r.invalidatedQuoteId == active
    ensures var bodies := InvalidationBodies(active, input.reason);
            && r.db.outbox == db.outbox + NextEvents(input.sessionId, input.startingSequence, bodies)
            && r.nextSequence == input.startingSequence + |bodies|
  {
    hide ActiveFor;
  }

  lemma EndUnpaidTells(db: Db, sessionId: Id, found: PaymentRead, active: Option<Id>, end: Ending)
    requires sessionId in db.sessions && Answers(db, sessionId, found) && AnswersQuote(db, sessionId, active)
    requires OnePayment(db, sessionId) && OneQuote(db, sessionId)
    ensures var after := EndUnpaid(db, sessionId, found, active, end);
            && TellsInOrder(db, after, sessionId, EndingBodies(found, active, end, db.sessions[sessionId].stateVersion + 1))
            && EndsAs(db.sessions[sessionId], after.sessions[sessionId], end)
  {
    hide EndUnpaid, OpenFor, ActiveFor, Answers, AnswersQuote, OnePayment, OneQuote, ReleasesAsRead, Retired, NextEvents,
      ReleaseBodies, InvalidationBodies;
    var release, invalidation := EndUnpaidParts(db, sessionId, found, active, end);
    var n, version := db.sessions[sessionId].eventSequence, db.sessions[sessionId].stateVersion + 1;
    ReleaseTells(db, release, found, ReleaseInput(sessionId, end.now, n, end.state, version));
    InvalidationTells(release.db, invalidation, active, InvalidationInput(sessionId, SessionTerminal, end.now, release.nextSequence, false));
    var first, second := ReleaseBodies(found, end.state, version), InvalidationBodies(active, SessionTerminal);
    NextEventsJoin(sessionId, n, first, second);
    NextEventsJoin(sessionId, n, first + second, [end.body]);
    assert NextEvents(sessionId, invalidation.nextSequence, [end.body]) == [OutboxEvent(sessionId, invalidation.nextSequence + 1, end.body)];
    assert db.outbox + NextEvents(sessionId, n, first) + NextEvents(sessionId, n + |first|, second)
           == db.outbox + NextEvents(sessionId, n, first + second);
  }

  /**
   * An unpaid session that ends keeps no payment that could still be captured, unless one
   * was, and no price; its row says why it ended, and its events say so in order.
   */
  lemma EndUnpaidMeaning(db: Db, sessionId: Id, found: PaymentRead, active: Option<Id>, end: Ending)
    requires sessionId in db.sessions && Answers(db, sessionId, found) && AnswersQuote(db, sessionId, active)
    requires OnePayment(db, sessionId) && OneQuote(db, sessionId)
    ensures var after := EndUnpaid(db, sessionId, found, active, end);
            && TellsInOrder(db, after, sessionId, EndingBodies(found, active, end, db.sessions[sessionId].stateVersion + 1))
            && EndsAs(db.sessions[sessionId], after.sessions[sessionId], end)
            && (found.captured.None? ==> forall id :: !OpenFor(after, sessionId, id))
            && (forall id :: !ActiveFor(after, sessionId, id))
  {
    hide EndsAs, Answers, AnswersQuote, OnePayment, OneQuote, ReleasesAsRead, InvalidatesAsRead;
    EndUnpaidTells(db, sessionId, found, active, end);
    var release, invalidation := EndUnpaidParts(db, sessionId, found, active, end);
    SameOpen(invalidation.db, EndUnpaid(db, sessionId, found, active, end), sessionId);
    SameActive(invalidation.db, EndUnpaid(db, sessionId, found, active, end), sessionId);
    hide EndUnpaid, OpenFor, ActiveFor;
  }

  /** The change is announced after the quote it cost, and the session moves only if it says so. */
  lemma RepriceMeaning(db: Db, sessionId: Id, active: Option<Id>, change: Change, body: EventBody)
    requires sessionId in db.sessions && AnswersQuote(db, sessionId, active) && OneQuote(db, sessionId)
    ensures var after := Reprice(db, sessionId, active, change, body);
            && TellsInOrder(db, after, sessionId,
                     InvalidationBodies(active, change.reason) + [body])
            && (var before, row := db.sessions[sessionId], after.sessions[sessionId];
                row == before.(state := if change.moveTo.Some? then change.moveTo.value else before.state,
                               stateVersion := before.stateVersion + (if change.moveTo.Some? then 1 else 0),
                               currentSettingsRevision := if change.clearSettingsRevision then None else before.currentSettingsRevision,
                               activeQuoteId := None, updatedAt := change.now, eventSequence := row.eventSequence))
            && (forall id :: !ActiveFor(after, sessionId, id))
  {
    hide InvalidatePricing, OpenFor, OneQuote;
    var input := InvalidationInput(
      sessionId, change.reason, change.now, db.sessions[sessionId].eventSequence, change.clearSettingsRevision);
    InvalidationLeavesNoQuote(db, active, input);
    InvalidationFindsActive(db, active, input);
    SameActive(InvalidatePricing(db, active, input).db, Reprice(db, sessionId, active, change, body), sessionId);
    hide ActiveFor;
  }

  lemma AnnounceMeaning(db: Db, sessionId: Id, state: Session.SessionState, now: Time, body: EventBody)
    requires sessionId in db.sessions
    ensures var after := Announce(db, sessionId, state, now, body);
            && TellsInOrder(db, after, sessionId, [body])
            && var before, row := db.sessions[sessionId], after.sessions[sessionId];
               row == before.(state := state, stateVersion := before.stateVersion + 1, updatedAt := now, eventSequence := row.eventSequence)
  {
  }

  // ---------- The unique key ----------

  predicate Logged(log: seq<OutboxEvent>, sequence: int) {
    exists i :: 0 <= i < |log| && log[i].sequence == sequence
  }

  lemma TakenSnoc(outbox: seq<OutboxEvent>, e: OutboxEvent, sessionId: Id, sequence: int)
    ensures KeyTaken(outbox + [e], sessionId, sequence) <==>
            KeyTaken(outbox, sessionId, sequence) || (e.sessionId == sessionId && e.sequence == sequence)
  {
    var longer := outbox + [e];
    assert forall i :: 0 <= i < |outbox| ==> longer[i] == outbox[i];
    assert longer[|outbox|] == e;
  }

  lemma LoggedSnoc(log: seq<OutboxEvent>, e: OutboxEvent, sequence: int)
    ensures Logged(log + [e], sequence) <==> Logged(log, sequence) || e.sequence == sequence
  {
    var longer := log + [e];
    assert forall i :: 0 <= i < |log| ==> longer[i] == log[i];
    assert longer[|log|] == e;
  }

  lemma {:induction false} KeysAreLogged(outbox: seq<OutboxEvent>, sessionId: Id, sequence: int)
    ensures KeyTaken(outbox, sessionId, sequence) <==> Logged(Log(outbox, sessionId), sequence)
  {
    if outbox != [] {
      var n := |outbox| - 1;
      var earlier, last := outbox[..n], outbox[n];
      KeysAreLogged(earlier, sessionId, sequence);
      assert outbox == earlier + [last];
      TakenSnoc(earlier, last, sessionId, sequence);
      LoggedSnoc(Log(earlier, sessionId), last, sequence);
    }
  }

  /** Of a numbered session exactly the numbers 1 to n are taken. */
  lemma TakenNumbers(outbox: seq<OutboxEvent>, sessionId: Id, n: int, sequence: int)
    requires NumberedTo(outbox, sessionId, n)
    ensures KeyTaken(outbox, sessionId, sequence) <==> 1 <= sequence <= n
  {
    KeysAreLogged(outbox, sessionId, sequence);
    if 1 <= sequence <= n {
      assert Log(outbox, sessionId)[sequence - 1].sequence == sequence;
    }
  }

  ghost predicate UniqueKeys(outbox: seq<OutboxEvent>, sessionId: Id) {
    forall i, j :: 0 <= i < j < |outbox| && outbox[i].sessionId == sessionId && outbox[j].sessionId == sessionId ==>
      outbox[i].sequence != outbox[j].sequence
  }

  /** Numbered events never share a number, so the unique key has nothing to refuse. */
  lemma {:induction false} NumberedIsUnique(outbox: seq<OutboxEvent>, sessionId: Id, n: int)
    requires NumberedTo(outbox, sessionId, n)
    ensures UniqueKeys(outbox, sessionId)
  {
    if outbox != [] {
      var last := |outbox| - 1;
      var earlier, log := outbox[..last], Log(outbox, sessionId);
      var own := outbox[last].sessionId == sessionId;
      var m := if own then n - 1 else n;
      assert NumberedTo(earlier, sessionId, m) by {
        assert forall i :: 0 <= i < |Log(earlier, sessionId)| ==> log[i] == Log(earlier, sessionId)[i];
      }
      NumberedIsUnique(earlier, sessionId, m);
      if own {
        assert log[n - 1] == outbox[last];
        TakenNumbers(earlier, sessionId, m, n);
      }
      assert forall i :: 0 <= i < last ==> earlier[i] == outbox[i];
    }
  }

  lemma {:induction false} LogGrows(before: seq<OutboxEvent>, after: seq<OutboxEvent>, sessionId: Id)
    requires before <= after
    ensures Log(before, sessionId) <= Log(after, sessionId)
    decreases |after|
  {
    if before != after {
      assert before <= after[..|after| - 1];
      LogGrows(before, after[..|after| - 1], sessionId);
    }
  }

  // ---------- Settlement ----------

  lemma EndSessionKeepsNumbers(db: Db, sessionId: Id, input: Input, other: Id)
    requires other in db.sessions
    ensures var after := EndSession(db, sessionId, input);
            && after.outbox == db.outbox && other in after.sessions
            && after.sessions[other].eventSequence == db.sessions[other].eventSequence
            && after.sessions[other].stateVersion == db.sessions[other].stateVersion
  {
    hide Cleanup.ScheduleFiles, Cleanup.UpdateMany;
  }

  lemma MoveContinues(db: Db, read: Job, session: SessionRow, refundId: Option<Id>, input: Input, id: Id)
    requires Numbered(db, id) && session.state == Session.Printing
    requires id == read.sessionId ==> 0 <= session.eventSequence <= db.sessions[id].eventSequence
    requires MovePhase(db, read, session, refundId, input).Success?
    ensures Numbered(MovePhase(db, read, session, refundId, input).value.db, id)
  {
    hide EndSession, EventOf, TerminalReason, KeyTaken;
    if MoveSucceeds(db, read.sessionId, session) {
      var moved := MoveSession(db, read.sessionId, session, input);
      EndSessionKeepsNumbers(moved, read.sessionId, input, id);
      LogSnoc(db.outbox, moved.outbox[|db.outbox|], id);
      if id == read.sessionId {
        TakenNumbers(db.outbox, id, db.sessions[id].eventSequence, session.eventSequence + 1);
      }
      hide Log;
    }
  }

  /**
   * The session write is guarded by the version, not by the event sequence. A sequence
   * read too early therefore passes the guard, and meets the unique key: whatever others
   * committed since the session was read, a commit leaves every session numbered.
   */
  lemma CommitKeepsNumbering(db: Db, read: Job, session: Option<SessionRow>, input: Input, id: Id)
    requires Numbered(db, id)
    requires session.Some? && id == read.sessionId ==> 0 <= session.value.eventSequence <= db.sessions[id].eventSequence
    ensures Numbered(Commit(db, read, session, input).db, id)
  {
    hide RecordOutcome, ClaimJob, MovePhase, NumberedTo, SettlementRuns.Written;
    if ClaimSucceeds(db, read, input) {
      SettlementRuns.WriteEffect(db, read, input);
      var written := RecordOutcome(ClaimJob(db, input), read, input);
      if session.Some? && session.value.state == Session.Printing && MovePhase(written.db, read, session.value, written.refundId, input).Success? {
        MoveContinues(written.db, read, session.value, written.refundId, input, id);
      }
    }
  }

  /**
   * A commit over a printing session whose version is unchanged is rolled back if and only
   * if its events have moved on since it was read.
   */
  lemma RolledBackExactly(db: Db, read: Job, session: SessionRow, input: Input)
    requires Numbered(db, read.sessionId) && ClaimSucceeds(db, read, input)
    requires session.state == Session.Printing && MoveSucceeds(db, read.sessionId, session)
    requires 0 <= session.eventSequence <= db.sessions[read.sessionId].eventSequence
    ensures var p := Commit(db, read, Some(session), input);
            && (p.phase.RolledBack? <==> session.eventSequence < db.sessions[read.sessionId].eventSequence)
            && (p.phase.RolledBack? ==> p.db == db)
  {
    hide RecordOutcome, ClaimJob, MoveSession, EndSession, KeyTaken, SettlementRuns.Written;
    SettlementRuns.WriteEffect(db, read, input);
    TakenNumbers(db.outbox, read.sessionId, db.sessions[read.sessionId].eventSequence, session.eventSequence + 1);
  }

  lemma CommitGrowsOutbox(db: Db, read: Job, session: Option<SessionRow>, input: Input)
    ensures db.outbox <= Commit(db, read, session, input).db.outbox
  {
    hide RecordOutcome, ClaimJob, EndSession, KeyTaken, SettlementRuns.Written;
    if ClaimSucceeds(db, read, input) {
      SettlementRuns.WriteEffect(db, read, input);
      var written := RecordOutcome(ClaimJob(db, input), read, input);
      if session.Some? && MoveSucceeds(written.db, read.sessionId, session.value) {
        var moved := MoveSession(written.db, read.sessionId, session.value, input);
        EndSessionKeepsNumbers(moved, read.sessionId, input, read.sessionId);
      }
    }
  }

  // ---------- The ledger of a job and the attempts of a payment ----------

  function LedgerOf(ledger: seq<LedgerEntry>, printJobId: Id): seq<LedgerEntry> {
    if ledger == [] then []
    else
      var earlier, last := LedgerOf(ledger[..|ledger| - 1], printJobId), ledger[|ledger| - 1];
      if last.printJobId == printJobId then earlier + [last] else earlier
  }

  ghost predicate LedgerNumbered(ledger: seq<LedgerEntry>, printJobId: Id) {
    var own := LedgerOf(ledger, printJobId);
    forall i :: 0 <= i < |own| ==> own[i].sequence == i + 1
  }

  lemma {:induction false} LatestIsCount(ledger: seq<LedgerEntry>, printJobId: Id)
    requires LedgerNumbered(ledger, printJobId)
    ensures LatestSequence(ledger, printJobId) == |LedgerOf(ledger, printJobId)|
  {
    if ledger != [] {
      var earlier := ledger[..|ledger| - 1];
      var own, before := LedgerOf(ledger, printJobId), LedgerOf(earlier, printJobId);
      assert forall i :: 0 <= i < |before| ==> before[i] == own[i];
      LatestIsCount(earlier, printJobId);
      if ledger[|ledger| - 1].printJobId == printJobId {
        assert own[|before|].sequence == |before| + 1;
      }
    }
  }

  /** Whichever job an entry is recorded for, every job's ledger stays numbered 1, 2, 3, … */
  lemma RecordingKeepsLedgers(db: Db, input: Input, refundId: Option<Id>, printJobId: Id)
    requires LedgerNumbered(db.ledger, printJobId)
    ensures LedgerNumbered(RecordEvent(db, input, refundId).ledger, printJobId)
    ensures |LedgerOf(RecordEvent(db, input, refundId).ledger, printJobId)|
            == |LedgerOf(db.ledger, printJobId)| + (if printJobId == input.printJobId then 1 else 0)
  {
    var after := RecordEvent(db, input, refundId).ledger;
    assert after[..|after| - 1] == db.ledger;
    LatestIsCount(db.ledger, printJobId);
  }

  function AttemptsOf(attempts: seq<PaymentAttempt>, paymentId: Id): seq<PaymentAttempt> {
    if attempts == [] then []
    else
      var earlier, last := AttemptsOf(attempts[..|attempts| - 1], paymentId), attempts[|attempts| - 1];
      if last.paymentId == paymentId then earlier + [last] else earlier
  }

  ghost predicate AttemptsNumbered(attempts: seq<PaymentAttempt>, paymentId: Id) {
    var own := AttemptsOf(attempts, paymentId);
    forall i :: 0 <= i < |own| ==> own[i].attempt == i + 1
  }

  lemma {:induction false} LatestAttemptIsCount(attempts: seq<PaymentAttempt>, paymentId: Id)
    requires AttemptsNumbered(attempts, paymentId)
    ensures LatestAttempt(attempts, paymentId) == |AttemptsOf(attempts, paymentId)|
  {
    if attempts != [] {
      var earlier := attempts[..|attempts| - 1];
      var own, before := AttemptsOf(attempts, paymentId), AttemptsOf(earlier, paymentId);
      assert forall i :: 0 <= i < |before| ==> before[i] == own[i];
      LatestAttemptIsCount(earlier, paymentId);
      if attempts[|attempts| - 1].paymentId == paymentId {
        assert own[|before|].attempt == |before| + 1;
      }
    }
  }

  /** A release adds at most one attempt, the next one of the payment it closes. */
  lemma ReleaseKeepsAttempts(db: Db, found: PaymentRead, input: ReleaseInput, paymentId: Id)
    requires AttemptsNumbered(db.attempts, paymentId)
    ensures var r := ReleasePayments(db, found, input);
            && AttemptsNumbered(r.db.attempts, paymentId)
            && |AttemptsOf(r.db.attempts, paymentId)|
               == |AttemptsOf(db.attempts, paymentId)| + (if r.releasedPaymentId == Some(paymentId) then 1 else 0)
  {
    var r := ReleasePayments(db, found, input);
    if r.releasedPaymentId.Some? {
      assert r.db.attempts[..|r.db.attempts| - 1] == db.attempts;
      LatestAttemptIsCount(db.attempts, paymentId);
    }
  }
}
