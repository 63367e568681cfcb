/**
 * One subscription of the kiosk's event relay (services/kiosk-agent/src/events.ts), cut
 * at every point where other code can run: each await of a replay page, each call of the
 * listener, the retry timer, announcements and unsubscription.
 */
module RelaySteps {
  import opened Wrappers

  /** A replay answer: the sequence numbers of its events, whether more follow, and the session's last number. */
  datatype Page = Page(events: seq<int>, hasMore: bool, latestSequence: int)

  datatype Point =
    | Awaiting
    | Paging(rest: seq<int>, page: Page)
    | Delivering(sequence: int, rest: seq<int>, page: Page)

  /**
   * A suspended run of `synchronize`. `before` is the cursor its current page started
   * from; for the proofs a run also remembers the cursor it began with, the number of
   * pages it has read, and the highest number announced when it asked for this page.
   */
  datatype Frame = Frame(before: int, from: int, pages: nat, asked: int, at: Point)

  datatype State = State(
    cursor: int, closed: bool, syncing: bool, resyncRequested: bool, retryTimer: bool,
    runs: seq<Frame>, delivered: seq<int>, known: int)

  // ---------- The pieces of the source ----------

  function ScheduleRetry(s: State): State {
    if s.closed || s.retryTimer then s else s.(retryTimer := true)
  }

  function Synchronize(s: State): State {
    if s.closed then s
    else if s.syncing then s.(resyncRequested := true)
    else
      s.(syncing := true, resyncRequested := false, retryTimer := false,
         runs := s.runs + [Frame(s.cursor, s.cursor, 0, s.known, Awaiting)])
  }

  function RemoveAt<T>(s: seq<T>, i: nat): seq<T>
    requires i < |s|
  {
    s[..i] + s[i + 1..]
  }

  /** The `finally` block, and the end of the run. */
  function Finish(s: State, i: nat): State
    requires i < |s.runs|
  {
    var done := s.(syncing := false, runs := RemoveAt(s.runs, i));
    if done.resyncRequested && !done.closed then Synchronize(done) else done
  }

  /** The `catch` block. */
  function Fail(s: State, i: nat): State
    requires i < |s.runs|
  {
    Finish(ScheduleRetry(s), i)
  }

  function SetPoint(s: State, i: nat, at: Point): State
    requires i < |s.runs|
  {
    s.(runs := s.runs[i := s.runs[i].(at := at)])
  }

  function Open(after: int): State {
    Synchronize(State(after, false, false, false, false, [], [], 0))
  }

  // ---------- The steps ----------

  datatype Step =
    | Announce(sequence: int)
    | SynchronizeAll
    | Reply(i: nat, page: Page)
    | FetchFails(i: nat)
    | Resume(i: nat)
    | TimerFires
    | Unsubscribe

  function Announced(s: State, sequence: int): State {
    var heard := s.(known := Max(s.known, sequence));
    if sequence <= s.cursor then heard else Synchronize(heard)
  }

  /** One event of the page: skip it, refuse a gap, or hand it to the listener. */
  function NextEvent(s: State, i: nat): State
    requires i < |s.runs| && s.runs[i].at.Paging? && s.runs[i].at.rest != []
  {
    var p := s.runs[i].at;
    var sequence := p.rest[0];
    if sequence <= s.cursor then SetPoint(s, i, Paging(p.rest[1..], p.page))
    else if sequence != s.cursor + 1 then Fail(s, i)
    else SetPoint(s.(delivered := s.delivered + [sequence]), i, Delivering(sequence, p.rest[1..], p.page))
  }

  /** The page is used up: stall, retry later, ask for the next one, or stop. */
  function EndPage(s: State, i: nat): State
    requires i < |s.runs| && s.runs[i].at.Paging?
  {
    var f, page := s.runs[i], s.runs[i].at.page;
    if page.hasMore && s.cursor == f.before then Fail(s, i)
    else
      var waiting := if !page.hasMore && s.cursor < page.latestSequence then ScheduleRetry(s) else s;
      if page.hasMore && !s.closed then
        waiting.(runs := s.runs[i := Frame(s.cursor, f.from, f.pages + 1, s.known, Awaiting)])
      else Finish(waiting, i)
  }

  /** The run goes on from where the listener, or the last event, left it. */
  function Resumed(s: State, i: nat): State
    requires i < |s.runs|
  {
    match s.runs[i].at
    case Awaiting => s
    case Delivering(sequence, rest, page) => SetPoint(s.(cursor := sequence), i, Paging(rest, page))
    case Paging(rest, _) => if rest == [] then EndPage(s, i) else NextEvent(s, i)
  }

  function Next(s: State, step: Step): State {
    match step
    case Announce(sequence) => Announced(s, sequence)
    case SynchronizeAll => Synchronize(s)
    case Reply(i, page) => if i < |s.runs| && s.runs[i].at.Awaiting? then SetPoint(s, i, Paging(page.events, page)) else s
    case FetchFails(i) => if i < |s.runs| && s.runs[i].at.Awaiting? then Fail(s, i) else s
    case Resume(i) => if i < |s.runs| then Resumed(s, i) else s
    case TimerFires => if s.retryTimer then Synchronize(s.(retryTimer := false)) else s
    case Unsubscribe => s.(closed := true, retryTimer := false)
  }

  function After(start: State, steps: seq<Step>): State {
    if steps == [] then start else Next(After(start, steps[..|steps| - 1]), steps[|steps| - 1])
  }

  lemma AfterSnoc(start: State, steps: seq<Step>, step: Step)
    ensures After(start, steps + [step]) == Next(After(start, steps), step)
  {
    assert (steps + [step])[..|steps|] == steps;
  }

  // ---------- A whole page without interruption ----------

  function ConsumeRest(s: State, i: nat): State
    requires i < |s.runs| && s.runs[i].at.Paging?
    decreases |s.runs[i].at.rest|
  {
    var p := s.runs[i].at;
    if p.rest == [] then EndPage(s, i)
    else if p.rest[0] <= s.cursor then ConsumeRest(SetPoint(s, i, Paging(p.rest[1..], p.page)), i)
    else if p.rest[0] != s.cursor + 1 then Fail(s, i)
    else
      ConsumeRest(SetPoint(s.(delivered := s.delivered + [p.rest[0]], cursor := p.rest[0]), i, Paging(p.rest[1..], p.page)), i)
  }

  function Consume(s: State, i: nat, page: Page): State
    requires i < |s.runs| && s.runs[i].at.Awaiting?
  {
    ConsumeRest(SetPoint(s, i, Paging(page.events, page)), i)
  }

  /** … is the reply followed by nothing but the run going on. */
  lemma {:induction false} RestIsSteps(start: State, steps: seq<Step>, i: nat) returns (more: seq<Step>)
    requires i < |After(start, steps).runs| && After(start, steps).runs[i].at.Paging?
    ensures After(start, steps + more) == ConsumeRest(After(start, steps), i)
    ensures forall k :: 0 <= k < |more| ==> more[k] == Resume(i)
    decreases |After(start, steps).runs[i].at.rest|
  {
    hide EndPage, Fail, Synchronize;
    var s := After(start, steps);
    var rest := s.runs[i].at.rest;
    AfterSnoc(start, steps, Resume(i));
    var once := steps + [Resume(i)];
    if rest == [] || (rest[0] > s.cursor && rest[0] != s.cursor + 1) {
      more := [Resume(i)];
    } else if rest[0] <= s.cursor {
      var tail := RestIsSteps(start, once, i);
      more := [Resume(i)] + tail;
      assert steps + more == once + tail;
    } else {
      AfterSnoc(start, once, Resume(i));
      var twice := once + [Resume(i)];
      var taken := SetPoint(s.(delivered := s.delivered + [rest[0]], cursor := rest[0]), i, Paging(rest[1..], s.runs[i].at.page));
      assert After(start, twice).runs == taken.runs;
      assert After(start, twice) == taken;
      var tail := RestIsSteps(start, twice, i);
      more := [Resume(i), Resume(i)] + tail;
      assert steps + more == twice + tail;
    }
  }

  lemma ConsumeIsSteps(start: State, steps: seq<Step>, i: nat, page: Page) returns (more: seq<Step>)
    requires i < |After(start, steps).runs| && After(start, steps).runs[i].at.Awaiting?
    ensures After(start, steps + more) == Consume(After(start, steps), i, page)
    ensures more != [] && more[0] == Reply(i, page) && forall k :: 1 <= k < |more| ==> more[k] == Resume(i)
  {
    AfterSnoc(start, steps, Reply(i, page));
    var tail := RestIsSteps(start, steps + [Reply(i, page)], i);
    more := [Reply(i, page)] + tail;
    assert steps + more == (steps + [Reply(i, page)]) + tail;
  }
}
