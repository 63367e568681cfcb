/**
 * The relay over pages of a replay table with everything else in between, and the whole
 * way of a session's events: written by many transactions, numbered, published in any
 * order, replayed in pages, delivered.
 */
module ReplayRuns {
  import opened RelayLaws
  import opened RelaySteps
  import opened Replay
  import opened ReplayTable
  import EventNumbering
  import EventRuns
  import Records

  // ---------- Pages of a table ----------

  predicate IsWhole(table: seq<int>) {
    table == Numbers(1, |table|)
  }

  /**
   * The answer is a page of the table as it was at some moment, with numbers up to `size`:
   * if `whole`, of a table in which no event had been published before an earlier one.
   */
  ghost predicate FromTable(page: Page, before: int, size: int, whole: bool) {
    exists table, latest: int :: TableOf(table, size) && (whole ==> IsWhole(table)) && page == ReplayPage(table, latest, before)
  }

  ghost predicate PagesFromTable(start: State, steps: seq<Step>, size: int, whole: bool)
    decreases |steps|
  {
    steps == [] ||
    (var earlier, last := steps[..|steps| - 1], steps[|steps| - 1];
     && PagesFromTable(start, earlier, size, whole)
     && (last.Reply? && last.i < |After(start, earlier).runs| ==>
           FromTable(last.page, After(start, earlier).runs[last.i].before, size, whole)))
  }

  // ---------- The two errors ----------

  /** The next step of the run reports a gap. */
  predicate Gaps(s: State) {
    s.runs != [] && s.runs[0].at.Paging? && s.runs[0].at.rest != [] && s.runs[0].at.rest[0] > s.cursor + 1
  }

  /** The next step of the run reports a page that promised more and moved nothing. */
  predicate Stalls(s: State) {
    && s.runs != [] && s.runs[0].at.Paging? && s.runs[0].at.rest == []
    && s.runs[0].at.page.hasMore && s.cursor == s.runs[0].before
  }

  // ---------- What is left of a page ----------

  /** What is left is what the page has beyond the cursor, or beyond the number being handed over. */
  ghost predicate FollowsOn(f: Frame, cursor: int, size: int, whole: bool) {
    match f.at
    case Awaiting => true
    case Paging(rest, page) => FromTable(page, f.before, size, whole) && rest == Newer(page.events, cursor)
    case Delivering(sequence, rest, page) =>
      FromTable(page, f.before, size, whole) && sequence <= size && rest == Newer(page.events, sequence)
  }

  ghost predicate OnTrack(s: State, size: int, whole: bool) {
    s.cursor <= size && (s.runs != [] ==> FollowsOn(s.runs[0], s.cursor, size, whole))
  }

  lemma PageInTable(page: Page, before: int, size: int, whole: bool)
    requires FromTable(page, before, size, whole)
    ensures Ascending(page.events) && forall x :: x in page.events ==> before < x <= size
    ensures page.hasMore ==> page.events != []
    ensures Newer(page.events, before) == page.events
  {
    var table, latest: int :| TableOf(table, size) && page == ReplayPage(table, latest, before);
    PageMeaning(table, latest, before, size);
    hide ReplayPage;
    assert forall i :: 0 <= i < |page.events| ==> page.events[i] in page.events;
    NewerOfBeyond(page.events, before);
  }

  lemma NewerStep(events: seq<int>, cursor: int)
    requires Ascending(events) && Newer(events, cursor) != []
    ensures Newer(events, cursor)[0] > cursor && Newer(events, cursor)[0] in events
    ensures Newer(events, cursor)[0] == cursor + 1 ==> Newer(events, cursor)[1..] == Newer(events, cursor + 1)
    ensures Newer(events, cursor)[0] > cursor + 1 <==> cursor + 1 !in events
  {
    var k := NewerIsSuffix(events, cursor);
    var m := NewerIsSuffix(events, cursor + 1);
    assert Newer(events, cursor)[0] == events[k];
    assert forall i :: 0 <= i < |events| ==> events[i] <= cursor || events[i] >= events[k];
    if events[k] == cursor + 1 {
      assert k + 1 == |events| || events[k + 1] > cursor + 1;
      assert m == k + 1;
    }
  }

  // ---------- Every step ----------

  lemma StepStaysOnTrack(s: State, step: Step, after: int, size: int, whole: bool)
    requires Safe(s, after) && OnTrack(s, size, whole)
    requires step.Reply? && step.i < |s.runs| ==> FromTable(step.page, s.runs[step.i].before, size, whole)
    ensures OnTrack(Next(s, step), size, whole)
  {
    hide Newer, FromTable, DeliveredInOrder, Ascending;
    if step.Resume? && s.runs != [] && s.runs[0].at.Paging? {
      var f := s.runs[0];
      PageInTable(f.at.page, f.before, size, whole);
      if f.at.rest != [] {
        NewerStep(f.at.page.events, s.cursor);
      }
    }
    if step.Reply? && step.i < |s.runs| && s.runs[step.i].at.Awaiting? {
      PageInTable(step.page, s.runs[step.i].before, size, whole);
    }
  }

  lemma {:induction false} RunsStayOnTrack(after: nat, steps: seq<Step>, size: int, whole: bool)
    requires after <= size && PagesFromTable(Open(after), steps, size, whole)
    ensures OnTrack(After(Open(after), steps), size, whole)
  {
    hide Next, Safe, FromTable;
    if steps != [] {
      var earlier, last := steps[..|steps| - 1], steps[|steps| - 1];
      RunsStayOnTrack(after, earlier, size, whole);
      RunsAreSafe(after, earlier);
      hide OnTrack;
      StepStaysOnTrack(After(Open(after), earlier), last, after, size, whole);
    }
  }

  /** The run is in the middle of a page with something left of it. */
  predicate AtEvent(s: State) {
    s.runs != [] && s.runs[0].at.Paging? && s.runs[0].at.rest != []
  }

  lemma GapExactly(s: State, after: int, size: int, whole: bool)
    requires Safe(s, after) && OnTrack(s, size, whole)
    ensures !Stalls(s)
    ensures Gaps(s) <==> AtEvent(s) && s.cursor + 1 !in s.runs[0].at.page.events
  {
    hide FromTable, Ascending, DeliveredInOrder;
    if s.runs != [] && s.runs[0].at.Paging? {
      var f := s.runs[0];
      PageInTable(f.at.page, f.before, size, whole);
      if f.at.rest != [] {
        NewerStep(f.at.page.events, s.cursor);
      }
    }
  }

  /** A number the page leaves out below one it has is a number the table did not have. */
  lemma GapIsHole(s: State, after: int, size: int, table: seq<int>, latest: int)
    requires Safe(s, after) && OnTrack(s, size, false) && AtEvent(s)
    requires TableOf(table, size) && s.runs[0].at.page == ReplayPage(table, latest, s.runs[0].before)
    ensures Gaps(s) <==> s.cursor + 1 !in table
  {
    hide FromTable, DeliveredInOrder;
    var f := s.runs[0];
    PageMeaning(table, latest, f.before, size);
    hide ReplayPage;
    GapExactly(s, after, size, false);
    NewerStep(f.at.page.events, s.cursor);
    hide Newer;
    var e := f.at.rest[0];
    assert e in f.at.page.events && s.cursor + 1 <= e && f.before < s.cursor + 1;
  }

  /**
   * Whatever falls between the steps and in whatever order events are published, no run
   * ever stalls, and one reports a gap if and only if the page goes on beyond the cursor
   * without its next number; and then that number was missing from the table.
   */
  lemma GapsAreHoles(after: nat, steps: seq<Step>, size: int)
    requires after <= size && PagesFromTable(Open(after), steps, size, false)
    ensures var s := After(Open(after), steps);
            && s.cursor <= size && !Stalls(s)
            && (Gaps(s) <==> AtEvent(s) && s.cursor + 1 !in s.runs[0].at.page.events)
            && (forall table, latest: int :: AtEvent(s) && TableOf(table, size)
                                             && s.runs[0].at.page == ReplayPage(table, latest, s.runs[0].before) ==>
                  (Gaps(s) <==> s.cursor + 1 !in table))
  {
    hide After, PagesFromTable, Safe, Gaps, Stalls, ReplayPage, TableOf;
    RunsStayOnTrack(after, steps, size, false);
    RunsAreSafe(after, steps);
    var s := After(Open(after), steps);
    GapExactly(s, after, size, false);
    forall table, latest: int | AtEvent(s) && TableOf(table, size) && s.runs[0].at.page == ReplayPage(table, latest, s.runs[0].before)
      ensures Gaps(s) <==> s.cursor + 1 !in table
    {
      GapIsHole(s, after, size, table, latest);
    }
  }

  lemma CursorPastStart(s: State, after: int)
    requires Safe(s, after)
    ensures after <= s.cursor
  {
  }

  lemma WholeHasAll(table: seq<int>, e: int, x: int)
    requires IsWhole(table) && e in table && 1 <= x <= e
    ensures x in table
  {
    NumbersAt(1, |table|);
    hide Numbers;
    var i :| 0 <= i < |table| && table[i] == e;
    assert table[x - 1] == x;
  }

  lemma WholePageGoesOn(s: State, after: int, size: int)
    requires Safe(s, after) && OnTrack(s, size, true) && AtEvent(s) && 0 <= s.cursor
    ensures s.cursor + 1 in s.runs[0].at.page.events
  {
    hide DeliveredInOrder;
    var f := s.runs[0];
    var table, latest: int :| TableOf(table, size) && IsWhole(table) && f.at.page == ReplayPage(table, latest, f.before);
    PageMeaning(table, latest, f.before, size);
    hide ReplayPage, TableOf;
    NewerStep(f.at.page.events, s.cursor);
    hide Newer, Ascending;
    var e := f.at.rest[0];
    assert e in f.at.page.events;
    WholeHasAll(table, e, s.cursor + 1);
  }

  /** As long as events are published in order, no run ever reports a gap. */
  lemma WholeTableNeverGaps(after: nat, steps: seq<Step>, size: int)
    requires after <= size && PagesFromTable(Open(after), steps, size, true)
    ensures !Gaps(After(Open(after), steps)) && !Stalls(After(Open(after), steps))
  {
    hide After, PagesFromTable, Gaps, Stalls, DeliveredInOrder;
    RunsStayOnTrack(after, steps, size, true);
    RunsAreSafe(after, steps);
    var s := After(Open(after), steps);
    GapExactly(s, after, size, true);
    if AtEvent(s) {
      CursorPastStart(s, after);
      WholePageGoesOn(s, after, size);
    }
  }

  /** Number 2 published before number 1: the relay delivers nothing of the page and tries again later. */
  lemma HoleIsReported()
    ensures var asked := [Reply(0, ReplayPage([2], 2, 0))];
            && PagesFromTable(Open(0), asked, 2, false) && Gaps(After(Open(0), asked))
            && var t := After(Open(0), asked + [Resume(0)]);
               t.delivered == [] && t.cursor == 0 && t.runs == [] && t.retryTimer
  {
    var page := ReplayPage([2], 2, 0);
    assert [2][1..] == [];
    assert Newer([2], 0) == [2];
    assert page == Page([2], false, 2);
    assert TableOf([2], 2);
    var asked := [Reply(0, page)];
    assert asked[..0] == [];
    AfterSnoc(Open(0), [], Reply(0, page));
    assert [] + asked == asked;
    AfterSnoc(Open(0), asked, Resume(0));
    assert FromTable(page, 0, 2, false);
  }

  // ---------- From the writers to the listener ----------

  /** The events of a log that have been published so far, in the order the table is read. */
  function Published(log: seq<Records.OutboxEvent>, done: set<int>, m: nat): seq<int>
    requires m <= |log|
  {
    if m == 0 then []
    else
      var earlier := Published(log, done, m - 1);
      if log[m - 1].sequence in done then earlier + [log[m - 1].sequence] else earlier
  }

  lemma {:induction false} PublishedIsTable(log: seq<Records.OutboxEvent>, done: set<int>, m: nat)
    requires m <= |log| && forall i :: 0 <= i < |log| ==> log[i].sequence == i + 1
    ensures TableOf(Published(log, done, m), m)
    ensures forall x :: x in Published(log, done, m) <==> 1 <= x <= m && x in done
  {
    if m > 0 {
      PublishedIsTable(log, done, m - 1);
    }
  }

  /** The events behind the numbers a listener was handed. */
  function Handed(log: seq<Records.OutboxEvent>, delivered: seq<int>): seq<Records.OutboxEvent>
    requires forall k :: 0 <= k < |delivered| ==> 1 <= delivered[k] <= |log|
  {
    seq(|delivered|, k requires 0 <= k < |delivered| => log[delivered[k] - 1])
  }

  lemma LogIsHanded(log: seq<Records.OutboxEvent>, after: nat, steps: seq<Step>)
    requires after <= |log| && PagesFromTable(Open(after), steps, |log|, false)
    ensures var t := After(Open(after), steps);
            && after + |t.delivered| <= |log|
            && (forall k :: 0 <= k < |t.delivered| ==> 1 <= t.delivered[k] <= |log|)
            && Handed(log, t.delivered) == log[after..after + |t.delivered|]
  {
    hide After, PagesFromTable, FromTable, Newer;
    RunsStayOnTrack(after, steps, |log|, false);
    RunsAreSafe(after, steps);
  }

  /**
   * Whatever transactions write to a session, one after another, in whatever order their
   * events are published, and whatever falls between the relay's steps: a listener
   * subscribed from any number is handed exactly the session's later events, each once,
   * in the order in which they were written.
   */
  lemma WrittenIsHanded(db: Records.Db, writes: seq<EventRuns.Write>, sessionId: Records.Id, after: nat, steps: seq<Step>)
    requires EventRuns.AllNumbered(db)
    requires var end := EventRuns.ApplyAll(db, writes);
             && sessionId in end.sessions && after <= end.sessions[sessionId].eventSequence
             && PagesFromTable(Open(after), steps, end.sessions[sessionId].eventSequence, false)
    ensures var end := EventRuns.ApplyAll(db, writes);
            var log, t := EventNumbering.Log(end.outbox, sessionId), After(Open(after), steps);
            && |log| == end.sessions[sessionId].eventSequence
            && after + |t.delivered| <= |log|
            && (forall k :: 0 <= k < |t.delivered| ==> 1 <= t.delivered[k] <= |log|)
            && Handed(log, t.delivered) == log[after..after + |t.delivered|]
  {
    EventRuns.LockedWritersNumber(db, writes);
    var end := EventRuns.ApplyAll(db, writes);
    hide EventRuns.ApplyAll, EventNumbering.Log, After, PagesFromTable;
    assert EventNumbering.Numbered(end, sessionId);
    LogIsHanded(EventNumbering.Log(end.outbox, sessionId), after, steps);
  }

  lemma PublishedReach(table: seq<int>, done: set<int>, size: nat, after: nat) returns (end: int)
    requires TableOf(table, size) && after <= size && forall x :: x in table <==> 1 <= x <= size && x in done
    ensures end == Reach(table, after, size) && after <= end <= size
    ensures (forall x :: after < x <= end ==> x in done) && (end < size ==> end + 1 !in done)
  {
    end := Reach(table, after, size);
    ReachMeaning(table, after, size);
    hide Reach;
  }

  lemma NumbersAreHanded(log: seq<Records.OutboxEvent>, after: nat, end: int)
    requires after <= end <= |log|
    ensures var delivered := [] + Numbers(after + 1, end);
            && (forall k :: 0 <= k < |delivered| ==> 1 <= delivered[k] <= |log|)
            && Handed(log, delivered) == log[after..end]
  {
    NumbersAt(after + 1, end);
    hide Numbers;
  }

  lemma LogIsDelivered(log: seq<Records.OutboxEvent>, done: set<int>, after: nat) returns (end: int)
    requires after <= |log| && forall i :: 0 <= i < |log| ==> log[i].sequence == i + 1
    ensures var table := Published(log, done, |log|);
            && TableOf(table, |log|)
            && after <= end <= |log| && (forall x :: after < x <= end ==> x in done) && (end < |log| ==> end + 1 !in done)
            && var t := Drain(Open(after), table, |log|, |log|);
               && (forall k :: 0 <= k < |t.delivered| ==> 1 <= t.delivered[k] <= |log|)
               && Handed(log, t.delivered) == log[after..end]
               && t.runs == [] && (t.retryTimer <==> end < |log|)
  {
    PublishedIsTable(log, done, |log|);
    hide Drain, Published, Handed, TableOf;
    var table := Published(log, done, |log|);
    end := PublishedReach(table, done, |log|, after);
    DrainDeliversToTheHole(Open(after), table, |log|, |log|);
    NumbersAreHanded(log, after, end);
  }

  /**
   * With nothing in between, a listener is handed all later events up to the first that has
   * not been published yet, and a retry is scheduled exactly when there is such a one.
   */
  lemma WrittenIsDelivered(
    db: Records.Db, writes: seq<EventRuns.Write>, sessionId: Records.Id, done: set<int>, after: nat
  ) returns (end: int)
    requires EventRuns.AllNumbered(db)
    requires sessionId in EventRuns.ApplyAll(db, writes).sessions
    requires after <= |EventNumbering.Log(EventRuns.ApplyAll(db, writes).outbox, sessionId)|
    ensures var log := EventNumbering.Log(EventRuns.ApplyAll(db, writes).outbox, sessionId);
            var latest := EventRuns.ApplyAll(db, writes).sessions[sessionId].eventSequence;
            var table := Published(log, done, |log|);
            && |log| == latest && TableOf(table, latest)
            && after <= end <= |log| && (forall x :: after < x <= end ==> x in done) && (end < |log| ==> end + 1 !in done)
            && var t := Drain(Open(after), table, latest, latest);
               && (forall k :: 0 <= k < |t.delivered| ==> 1 <= t.delivered[k] <= |log|)
               && Handed(log, t.delivered) == log[after..end]
               && t.runs == [] && (t.retryTimer <==> end < |log|)
  {
    EventRuns.LockedWritersNumber(db, writes);
    var final := EventRuns.ApplyAll(db, writes);
    hide EventRuns.ApplyAll, EventNumbering.Log, Drain, Published;
    assert EventNumbering.Numbered(final, sessionId);
    end := LogIsDelivered(EventNumbering.Log(final.outbox, sessionId), done, after);
  }
}
