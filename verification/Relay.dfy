/**
 * The relay as it runs: one subscription's fields, updated in place by the methods of
 * services/kiosk-agent/src/events.ts, lines 39-149.
 */
module Relay {
  import opened RelaySteps
  import opened Wrappers
  import Registry = RelayRegistry

  class Subscription {
    var cursor: int
    var closed: bool
    var syncing: bool
    var resyncRequested: bool
    var retryTimer: bool
    /** The suspended runs, what the listener has been handed, and the highest number announced. */
    ghost var runs: seq<Frame>
    ghost var delivered: seq<int>
    ghost var known: int

    ghost function View(): State
      reads this
    {
      State(cursor, closed, syncing, resyncRequested, retryTimer, runs, delivered, known)
    }

    constructor (after: int)
      ensures View() == Open(after)
    {
      cursor, closed, syncing, resyncRequested, retryTimer := after, false, false, false, false;
      runs, delivered, known := [], [], 0;
      new;
      Synchronize();
    }

    method Synchronize()
      modifies this
      ensures View() == RelaySteps.Synchronize(old(View()))
    {
      if closed { return; }
      if syncing {
        resyncRequested := true;
        return;
      }
      syncing := true;
      resyncRequested := false;
      retryTimer := false;
      runs := runs + [Frame(cursor, cursor, 0, known, Awaiting)];
    }

    method ScheduleRetry()
      modifies this`retryTimer
      ensures View() == RelaySteps.ScheduleRetry(old(View()))
    {
      if closed || retryTimer { return; }
      retryTimer := true;
    }

    method Finish(ghost i: nat)
      requires i < |runs|
      modifies this
      ensures View() == RelaySteps.Finish(old(View()), i)
    {
      syncing := false;
      runs := runs[..i] + runs[i + 1..];
      if resyncRequested && !closed {
        Synchronize();
      }
    }

    method Fail(ghost i: nat)
      requires i < |runs|
      modifies this
      ensures View() == RelaySteps.Fail(old(View()), i)
    {
      ScheduleRetry();
      Finish(i);
    }

    /** `accept`, for one registered subscription. */
    method Accept(sequence: int)
      modifies this
      ensures View() == Next(old(View()), Announce(sequence))
    {
      known := Max(known, sequence);
      if sequence <= cursor { return; }
      Synchronize();
    }

    method TimerFires()
      requires retryTimer
      modifies this
      ensures View() == Next(old(View()), Step.TimerFires)
    {
      retryTimer := false;
      Synchronize();
    }

    method Unsubscribe()
      modifies this
      ensures View() == Next(old(View()), Step.Unsubscribe)
    {
      closed := true;
      retryTimer := false;
    }

    method FetchFails(ghost i: nat)
      requires i < |runs| && runs[i].at.Awaiting?
      modifies this
      ensures View() == Next(old(View()), Step.FetchFails(i))
    {
      Fail(i);
    }

    /**
     * A page comes back and nothing else runs meanwhile: the loop over its events and
     * what follows it, up to the next await or the end of the run. `cursorBeforePage` is
     * the local variable the suspended run kept.
     */
    method Replied(ghost i: nat, cursorBeforePage: int, page: Page)
      requires i < |runs| && runs[i].at.Awaiting? && runs[i].before == cursorBeforePage
      modifies this
      ensures View() == Consume(old(View()), i, page)
    {
      ghost var start := View();
      var rest := page.events;
      runs := runs[i := runs[i].(at := Paging(rest, page))];
      while rest != []
        invariant i < |runs| && runs[i].at == Paging(rest, page) && runs[i].before == cursorBeforePage
        invariant Consume(start, i, page) == ConsumeRest(View(), i)
      {
        var sequence := rest[0];
        if sequence > cursor {
          if sequence != cursor + 1 {
            Fail(i);
            return;
          }
          delivered := delivered + [sequence];
          cursor := sequence;
        }
        rest := rest[1..];
        runs := runs[i := runs[i].(at := Paging(rest, page))];
      }
      if page.hasMore && cursor == cursorBeforePage {
        Fail(i);
        return;
      }
      if !page.hasMore && cursor < page.latestSequence {
        ScheduleRetry();
      }
      if page.hasMore && !closed {
        runs := runs[i := Frame(cursor, runs[i].from, runs[i].pages + 1, known, Awaiting)];
      } else {
        Finish(i);
      }
    }
  }

  /** The relay itself: which subscriptions there are, and whom an announcement concerns. */
  class SessionEventRelay {
    var subscriptions: map<Registry.SessionId, nat>
    var sets: seq<Registry.Members>
    var handles: seq<Registry.Handle>
    var closed: set<nat>

    ghost function View(): Registry.Registry
      reads this
    {
      Registry.Registry(subscriptions, sets, handles, closed)
    }

    constructor ()
      ensures View() == Registry.EMPTY
    {
      subscriptions, sets, handles, closed := map[], [], [], {};
    }

    method Subscribe(sessionId: Registry.SessionId) returns (k: nat)
      requires Registry.InBounds(View())
      modifies this
      ensures View() == Registry.Subscribe(old(View()), sessionId) && k == |old(handles)|
    {
      k := |handles|;
      if sessionId !in subscriptions {
        subscriptions := subscriptions[sessionId := |sets|];
        sets := sets + [Registry.Members(sessionId, {})];
      }
      var ref := subscriptions[sessionId];
      assert {} + {k} == {k};
      sets := sets[ref := sets[ref].(open := sets[ref].open + {k})];
      handles := handles + [Registry.Handle(sessionId, ref)];
      assert sessionId !in old(subscriptions) ==> sets == old(sets) + [Registry.Members(sessionId, {k})];
    }

    /** The closure that `subscribe` returned for subscription k. */
    method Unsubscribe(k: nat)
      requires Registry.InBounds(View()) && k < |handles|
      modifies this
      ensures View() == Registry.Unsubscribe(old(View()), k)
    {
      var h := handles[k];
      closed := closed + {k};
      sets := sets[h.set_ := sets[h.set_].(open := sets[h.set_].open - {k})];
      if sets[h.set_].open == {} {
        subscriptions := subscriptions - {h.sessionId};
      }
    }

    /** The subscriptions `accept` prompts: exactly the session's open ones that are behind. */
    method Accept(sessionId: Registry.SessionId, sequence: int, cursors: seq<int>) returns (prompted: set<nat>)
      requires Registry.Right(View()) && |cursors| == |handles|
      ensures forall k: nat :: k in prompted <==>
                k < |handles| && k !in closed && handles[k].sessionId == sessionId && cursors[k] < sequence
    {
      prompted := {};
      if sessionId !in subscriptions { return; }
      var ref := subscriptions[sessionId];
      var all := sets[ref].open;
      var rest := all;
      ghost var r := View();
      assert sessionId in r.subscriptions && r.subscriptions[sessionId] == ref && r.sets[ref] == sets[ref];
      assert Registry.SetsRight(r) && Registry.MapRight(r);
      assert ref < |r.sets|;
      assert r.sets[ref].owner == sessionId;
      forall k: nat | Registry.Open(r, k) && r.handles[k].sessionId == sessionId ensures k in all {
        assert Registry.In(r, r.handles[k].set_, k);
      }
      forall k: nat | k in all ensures Registry.Open(r, k) && r.handles[k].sessionId == sessionId {
        assert Registry.In(r, ref, k);
      }
      while rest != {}
        invariant rest <= all
        invariant forall k: nat :: k in prompted <==> k in all && k !in rest && cursors[k] < sequence
        decreases |rest|
      {
        var k: nat :| k in rest;
        rest := rest - {k};
        if sequence <= cursors[k] { continue; }
        prompted := prompted + {k};
      }
    }
  }
}
