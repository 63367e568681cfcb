/**
 * The whole relay (services/kiosk-agent/src/events.ts, lines 31-149): one registry, and
 * every subscription that was ever made with everything that has happened to it.
 */
module RelaySystem {
  import opened RelayLaws
  import opened RelaySteps
  import Registry = RelayRegistry

  datatype System = System(registry: Registry.Registry, afters: seq<int>, traces: seq<seq<Step>>)

  /** `accept` and `synchronizeAll` go through the registry; the rest happens to one subscription. */
  datatype Event =
    | Subscribed(sessionId: Registry.SessionId, after: int)
    | Unsubscribed(k: nat)
    | Accepted(sessionId: Registry.SessionId, sequence: int)
    | Connected
    | Internal(k: nat, step: Step)

  predicate WellFormed(s: System) {
    Registry.InBounds(s.registry) && |s.afters| == |s.traces| == |s.registry.handles|
  }

  /** What an announcement or a reconnection adds to each subscription the registry leads to. */
  function Prompt(s: System, concerned: nat -> bool, step: Step): seq<seq<Step>>
    requires WellFormed(s)
  {
    seq(|s.traces|, k requires 0 <= k < |s.traces| =>
      if Registry.Reached(s.registry, k) && concerned(k) then s.traces[k] + [step] else s.traces[k])
  }

  predicate IsInternal(step: Step) {
    step.Reply? || step.FetchFails? || step.Resume? || step.TimerFires?
  }

  /** A closure is called by whoever got it, once. */
  predicate Fitting(s: System, e: Event) {
    && WellFormed(s)
    && (e.Unsubscribed? ==> Registry.Open(s.registry, e.k))
    && (e.Internal? ==> e.k < |s.traces| && IsInternal(e.step))
  }

  function Happen(s: System, e: Event): System
    requires Fitting(s, e)
  {
    match e
    case Subscribed(id, after) => System(Registry.Subscribe(s.registry, id), s.afters + [after], s.traces + [[]])
    case Unsubscribed(k) =>
      System(Registry.Unsubscribe(s.registry, k), s.afters, s.traces[k := s.traces[k] + [Step.Unsubscribe]])
    case Accepted(id, sequence) =>
      s.(traces := Prompt(s, (k: nat) => k < |s.registry.handles| && s.registry.handles[k].sessionId == id, Step.Announce(sequence)))
    case Connected => s.(traces := Prompt(s, (k: nat) => true, Step.SynchronizeAll))
    case Internal(k, step) => s.(traces := s.traces[k := s.traces[k] + [step]])
  }

  const NOBODY := System(Registry.EMPTY, [], [])

  ghost predicate Lawful(events: seq<Event>)
    decreases |events|, 0
  {
    events == [] || (Lawful(events[..|events| - 1]) && Fitting(History(events[..|events| - 1]), events[|events| - 1]))
  }

  ghost function History(events: seq<Event>): System
    requires Lawful(events)
    decreases |events|, 1
  {
    if events == [] then NOBODY else Happen(History(events[..|events| - 1]), events[|events| - 1])
  }

  /** The subscription as its fields are now. */
  function StateOf(s: System, k: nat): State
    requires WellFormed(s) && k < |s.traces|
  {
    After(Open(s.afters[k]), s.traces[k])
  }

  // ---------- What every run keeps ----------

  /** The registry is right, and whoever has not unsubscribed is not closed. */
  ghost predicate Right(s: System) {
    && WellFormed(s) && Registry.Right(s.registry)
    && forall k: nat :: Registry.Open(s.registry, k) ==> Step.Unsubscribe !in s.traces[k]
  }

  /** Nothing that happened to a subscription is forgotten, and it stays the subscription it was. */
  ghost predicate Grows(s: System, t: System)
    requires WellFormed(s) && WellFormed(t)
  {
    && |s.traces| <= |t.traces|
    && forall k: nat :: k < |s.traces| ==>
         && s.traces[k] <= t.traces[k] && t.afters[k] == s.afters[k] && t.registry.handles[k] == s.registry.handles[k]
         && (Registry.Open(t.registry, k) ==> Registry.Open(s.registry, k))
  }

  lemma NewOneIsLast(r: Registry.Registry, id: Registry.SessionId)
    requires Registry.InBounds(r)
    ensures var t := Registry.Subscribe(r, id);
            |t.handles| == |r.handles| + 1 && t.handles[..|r.handles|] == r.handles && t.closed == r.closed
  {
  }

  lemma HappenKeepsRight(s: System, e: Event)
    requires Right(s) && Fitting(s, e)
    ensures Right(Happen(s, e))
  {
    var t := Happen(s, e);
    match e
    case Subscribed(id, after) =>
      Registry.SubscribeKeepsRight(s.registry, id);
      NewOneIsLast(s.registry, id);
      hide Registry.Subscribe, Registry.Right;
      forall k: nat | Registry.Open(t.registry, k) ensures Step.Unsubscribe !in t.traces[k] {
        assert k < |s.traces| ==> Registry.Open(s.registry, k);
      }
    case Unsubscribed(k) =>
      Registry.FirstCallKeepsRight(s.registry, k);
      hide Registry.Right;
      forall j: nat | Registry.Open(t.registry, j) ensures Step.Unsubscribe !in t.traces[j] {
        assert Registry.Open(s.registry, j) && j != k;
      }
    case _ => hide Registry.Right;
  }

  lemma HappenGrows(s: System, e: Event)
    requires Right(s) && Fitting(s, e) && WellFormed(Happen(s, e))
    ensures Grows(s, Happen(s, e))
  {
    hide Registry.Right, Registry.Reached;
    var t := Happen(s, e);
    if e.Subscribed? {
      NewOneIsLast(s.registry, e.sessionId);
      hide Registry.Subscribe;
      assert forall k: nat :: k < |s.traces| ==> t.registry.handles[k] == t.registry.handles[..|s.registry.handles|][k];
    }
  }

  lemma {:induction false} RunsAreRight(events: seq<Event>)
    requires Lawful(events)
    ensures Right(History(events))
  {
    if events == [] {
      assert Registry.Right(Registry.EMPTY);
    } else {
      RunsAreRight(events[..|events| - 1]);
      hide Happen;
      HappenKeepsRight(History(events[..|events| - 1]), events[|events| - 1]);
    }
  }

  lemma {:induction false} PrefixesAreLawful(events: seq<Event>, m: nat)
    requires Lawful(events) && m <= |events|
    ensures Lawful(events[..m])
    decreases |events|
  {
    if m == |events| {
      assert events[..m] == events;
    } else {
      assert events[..|events| - 1][..m] == events[..m];
      PrefixesAreLawful(events[..|events| - 1], m);
    }
  }

  lemma GrowsOn(r: System, s: System, e: Event)
    requires WellFormed(r) && Right(s) && Fitting(s, e) && Grows(r, s)
    ensures WellFormed(Happen(s, e)) && Grows(r, Happen(s, e))
  {
    HappenKeepsRight(s, e);
    HappenGrows(s, e);
    hide Happen, Registry.Right;
    var t := Happen(s, e);
    forall k: nat | k < |r.traces|
      ensures r.traces[k] <= t.traces[k] && t.afters[k] == r.afters[k] && t.registry.handles[k] == r.registry.handles[k]
    {
      assert r.traces[k] <= s.traces[k] <= t.traces[k];
    }
  }

  lemma {:induction false} RunsGrow(events: seq<Event>, m: nat)
    requires Lawful(events) && m <= |events|
    ensures Lawful(events[..m]) && Right(History(events[..m])) && Right(History(events))
    ensures Grows(History(events[..m]), History(events))
    decreases |events|
  {
    PrefixesAreLawful(events, m);
    RunsAreRight(events[..m]);
    RunsAreRight(events);
    hide Right, Happen;
    if m == |events| {
      assert events[..m] == events;
    } else {
      var earlier := events[..|events| - 1];
      assert earlier[..m] == events[..m];
      RunsGrow(earlier, m);
      GrowsOn(History(events[..m]), History(earlier), events[|events| - 1]);
    }
  }

  lemma {:induction false} ClosedByUnsubscribing(start: State, steps: seq<Step>)
    requires !start.closed && Step.Unsubscribe !in steps
    ensures !After(start, steps).closed
  {
    if steps != [] {
      var earlier, last := steps[..|steps| - 1], steps[|steps| - 1];
      ClosedByUnsubscribing(start, earlier);
      assert last in steps;
    }
  }

  /** An announcement gets into the trace of every open subscription of its session. */
  lemma AcceptedReaches(s: System, id: Registry.SessionId, sequence: int, k: nat)
    requires Right(s) && Registry.Open(s.registry, k) && s.registry.handles[k].sessionId == id
    ensures Step.Announce(sequence) in Happen(s, Accepted(id, sequence)).traces[k]
  {
    Registry.RightReaches(s.registry);
    var t := Happen(s, Accepted(id, sequence));
    assert t.traces[k] == s.traces[k] + [Step.Announce(sequence)];
    assert t.traces[k][|s.traces[k]|] == Step.Announce(sequence);
  }

  lemma OnlyOpenAreReached(r: Registry.Registry, k: nat)
    requires Registry.Right(r) && k < |r.handles|
    ensures Registry.Reached(r, k) <==> Registry.Open(r, k)
  {
    Registry.RightReaches(r);
    if Registry.Reached(r, k) {
      assert Registry.In(r, r.subscriptions[r.handles[k].sessionId], k);
    }
  }

  /** An announcement prompts the open subscriptions of its session, a reconnection all open ones, and nobody else. */
  lemma PromptedExactly(s: System, id: Registry.SessionId, sequence: int, k: nat)
    requires Right(s) && k < |s.traces|
    ensures var open := Registry.Open(s.registry, k);
            && Happen(s, Connected).traces[k] == (if open then s.traces[k] + [Step.SynchronizeAll] else s.traces[k])
            && Happen(s, Accepted(id, sequence)).traces[k]
               == (if open && s.registry.handles[k].sessionId == id then s.traces[k] + [Step.Announce(sequence)] else s.traces[k])
  {
    OnlyOpenAreReached(s.registry, k);
  }

  lemma OpenIsOpen(after: int)
    ensures !Open(after).closed
  {
  }

  lemma InLonger(a: seq<Step>, b: seq<Step>, step: Step)
    requires a <= b && step in a
    ensures step in b
  {
    var i :| 0 <= i < |a| && a[i] == step;
    assert b[i] == step;
  }

  /**
   * Any number of subscriptions, sessions, announcements, reconnections, failures and
   * timers, each closure called at most once, and honest answers: every number accepted
   * for a session since a subscription to it was made has been delivered to it, as soon as
   * the subscription is idle and as long as it is open.
   */
  lemma AcceptedIsDelivered(events: seq<Event>, m: nat, sequence: int, k: nat)
    requires Lawful(events) && m < |events| && Lawful(events[..m]) && k < |History(events[..m]).registry.handles|
    requires events[m] == Accepted(History(events[..m]).registry.handles[k].sessionId, sequence)
    ensures WellFormed(History(events)) && k < |History(events).traces|
    ensures var s := History(events);
            Registry.Open(s.registry, k) && Honest(Open(s.afters[k]), s.traces[k]) ==>
              var t := StateOf(s, k);
              && !t.closed
              && (t.runs == [] && !t.retryTimer ==>
                    !t.resyncRequested && sequence <= t.cursor && (s.afters[k] < sequence ==> sequence in t.delivered))
  {
    var before, s := History(events[..m]), History(events);
    RunsGrow(events, m);
    RunsGrow(events, m + 1);
    assert events[..m + 1][..m] == events[..m];
    var told := History(events[..m + 1]);
    assert told == Happen(before, events[m]);
    hide History, Lawful, Happen, Registry.Right;
    if Registry.Open(s.registry, k) && Honest(Open(s.afters[k]), s.traces[k]) {
      assert Registry.Open(before.registry, k);
      AcceptedReaches(before, before.registry.handles[k].sessionId, sequence, k);
      assert told.traces[k] <= s.traces[k];
      InLonger(told.traces[k], s.traces[k], Step.Announce(sequence));
      OpenIsOpen(s.afters[k]);
      ClosedByUnsubscribing(Open(s.afters[k]), s.traces[k]);
      IdleHasDelivered(s.afters[k], s.traces[k], sequence);
    }
  }
}
