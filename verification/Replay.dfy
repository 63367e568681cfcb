/**
 * What the relay makes of the pages of a replay table, whole or with holes, when nothing
 * else runs in between.
 */
module Replay {
  import opened RelaySteps
  import opened ReplayTable

  // ---------- A page without interruption ----------

  /** The last number of the page reached from the cursor without a hole. */
  function Reached(rest: seq<int>, cursor: int): int {
    if rest != [] && rest[0] == cursor + 1 then Reached(rest[1..], cursor + 1) else cursor
  }

  predicate Beyond(rest: seq<int>, cursor: int) {
    Ascending(rest) && forall i :: 0 <= i < |rest| ==> rest[i] > cursor
  }

  lemma {:induction false} ReachedAt(rest: seq<int>, cursor: int)
    requires Beyond(rest, cursor)
    ensures cursor <= Reached(rest, cursor) <= cursor + |rest|
    ensures forall i :: 0 <= i < Reached(rest, cursor) - cursor ==> rest[i] == cursor + 1 + i
    ensures var n := Reached(rest, cursor) - cursor; n < |rest| ==> rest[n] > cursor + n + 1
  {
    if rest != [] && rest[0] == cursor + 1 {
      assert forall i :: 1 <= i < |rest| ==> rest[i] == rest[1..][i - 1];
      ReachedAt(rest[1..], cursor + 1);
    }
  }

  lemma ReachedMeaning(rest: seq<int>, cursor: int)
    requires Beyond(rest, cursor)
    ensures var last := Reached(rest, cursor);
            && cursor <= last <= cursor + |rest|
            && (forall x :: cursor < x <= last ==> x in rest)
            && last + 1 !in rest
            && (last < cursor + |rest| ==> exists x :: x in rest && x > last)
            && (last == cursor + |rest| ==> forall x :: x in rest ==> x <= last)
  {
    ReachedAt(rest, cursor);
    var last := Reached(rest, cursor);
    hide Reached;
    forall x | cursor < x <= last ensures x in rest {
      assert rest[x - cursor - 1] == x;
    }
    if last < cursor + |rest| {
      assert rest[last - cursor] in rest;
    }
  }

  /** The state after the page has been delivered up to `last`, with `left` still of it. */
  function Used(s: State, last: int, numbers: seq<int>, left: seq<int>, page: Page): State
    requires s.runs != []
  {
    SetPoint(s.(cursor := last, delivered := s.delivered + numbers), 0, Paging(left, page))
  }

  lemma NextIsConsumed(s: State, rest: seq<int>, page: Page) returns (once: State)
    requires |s.runs| == 1 && s.runs[0].at == Paging([s.cursor + 1] + rest, page)
    ensures once == s.(delivered := s.delivered + [s.cursor + 1], cursor := s.cursor + 1, runs := [s.runs[0].(at := Paging(rest, page))])
    ensures ConsumeRest(s, 0) == ConsumeRest(once, 0)
  {
    hide EndPage, Fail;
    once := s.(delivered := s.delivered + [s.cursor + 1], cursor := s.cursor + 1, runs := [s.runs[0].(at := Paging(rest, page))]);
    assert ([s.cursor + 1] + rest)[1..] == rest;
    assert SetPoint(s, 0, Paging(rest, page)).runs == once.runs;
  }

  lemma UsedNext(s: State, once: State, at: Point, last: int, numbers: seq<int>, left: seq<int>, page: Page)
    requires |s.runs| == 1
    requires once == s.(delivered := s.delivered + [s.cursor + 1], cursor := s.cursor + 1, runs := [s.runs[0].(at := at)])
    ensures Used(once, last, numbers, left, page) == Used(s, last, [s.cursor + 1] + numbers, left, page)
  {
    assert Used(once, last, numbers, left, page).runs == Used(s, last, [s.cursor + 1] + numbers, left, page).runs;
    assert s.delivered + [s.cursor + 1] + numbers == s.delivered + ([s.cursor + 1] + numbers);
  }

  lemma NothingIsConsumed(s: State, rest: seq<int>, page: Page)
    requires |s.runs| == 1 && s.runs[0].at == Paging(rest, page) && (rest != [] ==> rest[0] > s.cursor + 1)
    ensures var used := Used(s, s.cursor, [], rest, page);
            ConsumeRest(s, 0) == if rest == [] then EndPage(used, 0) else Fail(used, 0)
  {
    hide EndPage, Fail;
    assert s.delivered + [] == s.delivered;
    assert SetPoint(s, 0, Paging(rest, page)).runs == s.runs;
  }

  /**
   * The numbers up to the first hole are delivered, and then the page is either used up
   * or refused.
   */
  lemma {:induction false} PageIsConsumed(s: State, rest: seq<int>, page: Page) returns (left: seq<int>)
    requires |s.runs| == 1 && s.runs[0].at == Paging(rest, page) && Beyond(rest, s.cursor)
    ensures left == [] <==> Reached(rest, s.cursor) == s.cursor + |rest|
    ensures var last := Reached(rest, s.cursor);
            var used := Used(s, last, Numbers(s.cursor + 1, last), left, page);
            ConsumeRest(s, 0) == if left == [] then EndPage(used, 0) else Fail(used, 0)
    decreases |rest|
  {
    hide ConsumeRest, EndPage, Fail, Used;
    if rest != [] && rest[0] == s.cursor + 1 {
      var last := Reached(rest, s.cursor);
      assert rest == [s.cursor + 1] + rest[1..];
      var once := NextIsConsumed(s, rest[1..], page);
      assert forall i :: 1 <= i < |rest| ==> rest[i] == rest[1..][i - 1];
      left := PageIsConsumed(once, rest[1..], page);
      ReachedAt(rest[1..], once.cursor);
      assert Numbers(s.cursor + 1, last) == [s.cursor + 1] + Numbers(s.cursor + 2, last);
      UsedNext(s, once, Paging(rest[1..], page), last, Numbers(s.cursor + 2, last), left, page);
    } else {
      left := rest;
      assert Numbers(s.cursor + 1, s.cursor) == [];
      NothingIsConsumed(s, rest, page);
    }
  }

  predicate Waiting(s: State) {
    |s.runs| == 1 && s.runs[0].at.Awaiting? && s.runs[0].before == s.cursor && s.syncing && !s.retryTimer
  }

  predicate Calm(s: State) {
    !s.closed && !s.resyncRequested
  }

  lemma UsedEnds(s: State, last: int, numbers: seq<int>, left: seq<int>, page: Page)
    requires Waiting(s) && Calm(s) && s.cursor <= last && (page.hasMore && left == [] ==> s.cursor < last)
    requires left != [] ==> last < page.latestSequence
    ensures var used := Used(SetPoint(s, 0, Paging(page.events, page)), last, numbers, left, page);
            var u := if left == [] then EndPage(used, 0) else Fail(used, 0);
            && u.cursor == last && u.delivered == s.delivered + numbers && Calm(u)
            && (u.runs != [] <==> left == [] && page.hasMore)
            && (u.runs != [] ==> Waiting(u))
            && (u.runs == [] ==> !u.syncing && (u.retryTimer <==> last < page.latestSequence))
  {
  }

  /** How far a page gets is how far the table gets, unless the page ends first. */
  lemma PageReach(table: seq<int>, events: seq<int>, cursor: int, size: int, hasMore: bool)
    requires TableOf(table, size) && 0 <= cursor <= size && Beyond(events, cursor)
    requires forall x :: x in events ==> x in table && x <= size
    requires forall x, e :: x in table && cursor < x <= e && e in events ==> x in events
    requires hasMore ==> events != []
    requires !hasMore ==> forall x :: x in table && cursor < x ==> x in events
    ensures var last := Reached(events, cursor);
            && cursor <= last <= size && Reach(table, last, size) == Reach(table, cursor, size)
            && (last != cursor + |events| ==> Reach(table, cursor, size) == last && last < size)
            && (!hasMore ==> Reach(table, cursor, size) == last)
            && (hasMore && last == cursor + |events| ==> cursor < last)
  {
    var last := Reached(events, cursor);
    ReachedMeaning(events, cursor);
    hide Reached;
    assert last <= size by {
      if cursor < last { assert last in events; }
    }
    ReachThrough(table, cursor, last, size);
    ReachMeaning(table, last, size);
    if last != cursor + |events| {
      var e :| e in events && e > last;
      assert cursor < last + 1 <= e && last + 1 !in table;
    } else if !hasMore {
      assert last + 1 !in table;
    }
  }

  lemma PageGets(table: seq<int>, eventSequence: int, cursor: int, size: int)
    requires TableOf(table, size) && 0 <= cursor <= size
    ensures var page := ReplayPage(table, eventSequence, cursor);
            var last := Reached(page.events, cursor);
            && page.latestSequence == eventSequence && Beyond(page.events, cursor)
            && cursor <= last <= size && Reach(table, last, size) == Reach(table, cursor, size)
            && (last != cursor + |page.events| ==> Reach(table, cursor, size) == last && last < size)
            && (!page.hasMore ==> Reach(table, cursor, size) == last)
            && (page.hasMore && last == cursor + |page.events| ==> cursor < last)
  {
    var page := ReplayPage(table, eventSequence, cursor);
    PageMeaning(table, eventSequence, cursor, size);
    hide ReplayPage, Reached, Reach;
    assert forall i :: 0 <= i < |page.events| ==> page.events[i] in page.events;
    PageReach(table, page.events, cursor, size, page.hasMore);
  }

  /**
   * A page of any table is delivered up to the first hole. The run goes on only past a
   * whole page with more to come; it ends with a retry scheduled exactly when not all of
   * the session's numbers have been delivered.
   */
  lemma PageIsDelivered(s: State, table: seq<int>, eventSequence: int, size: int)
    requires Waiting(s) && Calm(s) && TableOf(table, size) && 0 <= s.cursor <= size <= eventSequence
    ensures var u := Consume(s, 0, ReplayPage(table, eventSequence, s.cursor));
            && s.cursor <= u.cursor <= size && Reach(table, u.cursor, size) == Reach(table, s.cursor, size)
            && u.delivered == s.delivered + Numbers(s.cursor + 1, u.cursor) && Calm(u)
            && (u.runs != [] ==> Waiting(u) && s.cursor < u.cursor)
            && (u.runs == [] ==>
                  && !u.syncing && u.cursor == Reach(table, s.cursor, size)
                  && (u.retryTimer <==> u.cursor < eventSequence))
  {
    var page := ReplayPage(table, eventSequence, s.cursor);
    PageGets(table, eventSequence, s.cursor, size);
    hide ReplayPage, Numbers, ConsumeRest, EndPage, Fail, Used, Reach, Reached, Beyond, TableOf;
    var left := PageIsConsumed(SetPoint(s, 0, Paging(page.events, page)), page.events, page);
    var last := Reached(page.events, s.cursor);
    UsedEnds(s, last, Numbers(s.cursor + 1, last), left, page);
  }

  /** Page after page, with nothing in between, until the run ends. */
  function Drain(s: State, table: seq<int>, eventSequence: int, size: int): State
    requires Waiting(s) && Calm(s) && TableOf(table, size) && 0 <= s.cursor <= size <= eventSequence
    decreases size - s.cursor
  {
    PageIsDelivered(s, table, eventSequence, size);
    var u := Consume(s, 0, ReplayPage(table, eventSequence, s.cursor));
    if u.runs == [] then u else Drain(u, table, eventSequence, size)
  }

  lemma {:induction false} DrainDeliversToTheHole(s: State, table: seq<int>, eventSequence: int, size: int)
    requires Waiting(s) && Calm(s) && TableOf(table, size) && 0 <= s.cursor <= size <= eventSequence
    ensures var t, end := Drain(s, table, eventSequence, size), Reach(table, s.cursor, size);
            && t.runs == [] && t.cursor == end && t.delivered == s.delivered + Numbers(s.cursor + 1, end)
            && (t.retryTimer <==> end < eventSequence)
    decreases size - s.cursor
  {
    hide Consume, ReplayPage, Numbers, Reach, TableOf;
    PageIsDelivered(s, table, eventSequence, size);
    var u := Consume(s, 0, ReplayPage(table, eventSequence, s.cursor));
    if u.runs != [] {
      DrainDeliversToTheHole(u, table, eventSequence, size);
      var end := Reach(table, s.cursor, size);
      ReachMeaning(table, u.cursor, size);
      NumbersJoin(s.cursor + 1, u.cursor, end);
      assert s.delivered + Numbers(s.cursor + 1, u.cursor) + Numbers(u.cursor + 1, end)
             == s.delivered + (Numbers(s.cursor + 1, u.cursor) + Numbers(u.cursor + 1, end));
    }
  }
}
