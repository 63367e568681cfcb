/**
 * Which subscriptions an announcement reaches: the map of sets that `subscribe` and the
 * closures it returns keep (services/kiosk-agent/src/events.ts, lines 31-77). A set is an
 * object shared between the map and the closures, so it is referred to by its number.
 */
module RelayRegistry {
  import opened Wrappers

  type SessionId = nat

  /** What the closure returned by `subscribe` has captured. */
  datatype Handle = Handle(sessionId: SessionId, set_: nat)

  /** A set of subscriptions, and the session it was made for. */
  datatype Members = Members(owner: SessionId, open: set<nat>)

  /** The k-th handle belongs to subscription k. */
  datatype Registry = Registry(
    subscriptions: map<SessionId, nat>, sets: seq<Members>, handles: seq<Handle>, closed: set<nat>)

  const EMPTY := Registry(map[], [], [], {})

  predicate InBounds(r: Registry) {
    && (forall k :: 0 <= k < |r.handles| ==> r.handles[k].set_ < |r.sets|)
    && (forall id :: id in r.subscriptions ==> r.subscriptions[id] < |r.sets|)
  }

  function Subscribe(r: Registry, sessionId: SessionId): Registry
    requires InBounds(r)
  {
    var k := |r.handles|;
    if sessionId in r.subscriptions then
      var ref := r.subscriptions[sessionId];
      var s := r.sets[ref];
      r.(sets := r.sets[ref := s.(open := s.open + {k})], handles := r.handles + [Handle(sessionId, ref)])
    else
      var ref := |r.sets|;
      r.(subscriptions := r.subscriptions[sessionId := ref],
         sets := r.sets + [Members(sessionId, {k})], handles := r.handles + [Handle(sessionId, ref)])
  }

  /** The closure: it empties its own set, and then deletes whatever set the session has by now. */
  function Unsubscribe(r: Registry, k: nat): Registry
    requires InBounds(r) && k < |r.handles|
  {
    var h := r.handles[k];
    var left := r.sets[h.set_].open - {k};
    r.(closed := r.closed + {k}, sets := r.sets[h.set_ := r.sets[h.set_].(open := left)],
       subscriptions := if left == {} then r.subscriptions - {h.sessionId} else r.subscriptions)
  }

  /** An announcement for its session gets to subscription k. */
  predicate Reached(r: Registry, k: nat)
    requires k < |r.handles|
  {
    var id := r.handles[k].sessionId;
    id in r.subscriptions && r.subscriptions[id] < |r.sets| && k in r.sets[r.subscriptions[id]].open
  }

  predicate Open(r: Registry, k: nat) {
    k < |r.handles| && k !in r.closed
  }

  ghost predicate AllReached(r: Registry) {
    forall k: nat :: Open(r, k) ==> Reached(r, k)
  }

  // ---------- Closures called once ----------

  predicate In(r: Registry, ref: nat, k: nat) {
    ref < |r.sets| && k in r.sets[ref].open
  }

  /** A set holds exactly the open subscriptions made with it, all of the session it was made for. */
  ghost predicate SetsRight(r: Registry)
    requires InBounds(r)
  {
    && (forall ref: nat, k: nat :: In(r, ref, k) ==> Open(r, k) && r.handles[k].set_ == ref)
    && (forall k: nat :: Open(r, k) ==> In(r, r.handles[k].set_, k))
    && (forall k: nat :: k < |r.handles| ==> r.sets[r.handles[k].set_].owner == r.handles[k].sessionId)
  }

  /** The map leads to a set in use, and every open subscription's session leads to its set. */
  ghost predicate MapRight(r: Registry)
    requires InBounds(r)
  {
    && (forall id :: id in r.subscriptions ==> r.sets[r.subscriptions[id]].owner == id && r.sets[r.subscriptions[id]].open != {})
    && (forall k: nat :: Open(r, k) ==>
          r.handles[k].sessionId in r.subscriptions && r.subscriptions[r.handles[k].sessionId] == r.handles[k].set_)
    && (forall k: nat :: k in r.closed ==> k < |r.handles|)
  }

  ghost predicate Right(r: Registry) {
    InBounds(r) && SetsRight(r) && MapRight(r)
  }

  lemma SubscribeKeepsSets(r: Registry, sessionId: SessionId)
    requires Right(r)
    ensures InBounds(Subscribe(r, sessionId)) && SetsRight(Subscribe(r, sessionId))
  {
    var after, k := Subscribe(r, sessionId), |r.handles|;
    var ref := after.handles[k].set_;
    assert k !in r.closed;
    assert ref < |r.sets| ==> r.sets[ref].owner == sessionId;
    forall other: nat, j: nat | In(after, other, j) ensures Open(after, j) && after.handles[j].set_ == other {
      assert j != k || other != ref ==> In(r, other, j);
    }
    forall j: nat | Open(after, j) ensures In(after, after.handles[j].set_, j) {
      if j != k { assert Open(r, j) && In(r, r.handles[j].set_, j); }
    }
    forall j: nat | j < |after.handles| ensures after.sets[after.handles[j].set_].owner == after.handles[j].sessionId {
      if j != k { assert after.handles[j] == r.handles[j]; }
    }
  }

  lemma SubscribeKeepsMap(r: Registry, sessionId: SessionId)
    requires Right(r)
    ensures InBounds(Subscribe(r, sessionId)) && MapRight(Subscribe(r, sessionId))
  {
    var after, k := Subscribe(r, sessionId), |r.handles|;
    assert k in after.sets[after.handles[k].set_].open;
    forall id | id in after.subscriptions
      ensures after.sets[after.subscriptions[id]].owner == id && after.sets[after.subscriptions[id]].open != {}
    {
      if id != sessionId { assert id in r.subscriptions && r.subscriptions[id] != after.handles[k].set_; }
    }
    forall j: nat | Open(after, j)
      ensures after.handles[j].sessionId in after.subscriptions && after.subscriptions[after.handles[j].sessionId] == after.handles[j].set_
    {
      if j != k { assert Open(r, j); }
    }
  }

  lemma SubscribeKeepsRight(r: Registry, sessionId: SessionId)
    requires Right(r)
    ensures Right(Subscribe(r, sessionId))
  {
    hide Subscribe, SetsRight, MapRight;
    SubscribeKeepsSets(r, sessionId);
    SubscribeKeepsMap(r, sessionId);
  }

  lemma FirstCallKeepsRight(r: Registry, k: nat)
    requires Right(r) && Open(r, k)
    ensures Right(Unsubscribe(r, k))
  {
    var after := Unsubscribe(r, k);
    var h := r.handles[k];
    assert In(r, h.set_, k);
    forall other: nat, j: nat | In(after, other, j) ensures Open(after, j) && after.handles[j].set_ == other {
      assert In(r, other, j);
    }
    forall j: nat | Open(after, j) ensures In(after, after.handles[j].set_, j) {
      assert Open(r, j) && In(r, r.handles[j].set_, j);
    }
    forall id | id in after.subscriptions ensures after.sets[after.subscriptions[id]].open != {} {
      assert id in r.subscriptions;
    }
    forall j: nat | Open(after, j) ensures after.handles[j].sessionId in after.subscriptions {
      assert Open(r, j) && In(r, r.handles[j].set_, j);
    }
  }

  lemma RightReaches(r: Registry)
    requires Right(r)
    ensures AllReached(r)
  {
    forall k: nat | Open(r, k) ensures Reached(r, k) {
      assert In(r, r.handles[k].set_, k);
    }
  }

  datatype Call = Subscribed(sessionId: SessionId) | Unsubscribed(k: nat)

  /** Nobody calls a closure it has not got, or a second time. */
  predicate Fitting(r: Registry, c: Call) {
    InBounds(r) && (c.Unsubscribed? ==> c.k < |r.handles| && c.k !in r.closed)
  }

  function Make(r: Registry, c: Call): Registry
    requires Fitting(r, c)
  {
    match c
    case Subscribed(id) => Subscribe(r, id)
    case Unsubscribed(k) => Unsubscribe(r, k)
  }

  /** The registry after a run of calls, if every one was fitting. */
  function Run(calls: seq<Call>): Option<Registry> {
    if calls == [] then Some(EMPTY)
    else
      var before, c := Run(calls[..|calls| - 1]), calls[|calls| - 1];
      if before.Some? && Fitting(before.value, c) then Some(Make(before.value, c)) else None
  }

  /** As long as every closure is called at most once, every open subscription is reached. */
  lemma {:induction false} OpenIsReached(calls: seq<Call>)
    requires Run(calls).Some?
    ensures Right(Run(calls).value) && AllReached(Run(calls).value)
  {
    if calls != [] {
      OpenIsReached(calls[..|calls| - 1]);
      var r, c := Run(calls[..|calls| - 1]).value, calls[|calls| - 1];
      match c {
        case Subscribed(id) => SubscribeKeepsRight(r, id);
        case Unsubscribed(k) => FirstCallKeepsRight(r, k);
      }
    }
    RightReaches(Run(calls).value);
  }

  // ---------- Closures called again ----------

  /**
   * A closure called again deletes the session's present set, with everyone in it, if its
   * own set is empty and the session has been subscribed to anew; otherwise it is harmless.
   */
  lemma SecondCallExactly(r: Registry, k: nat)
    requires Right(r) && k < |r.handles| && k in r.closed
    ensures AllReached(Unsubscribe(r, k)) <==>
            !(r.sets[r.handles[k].set_].open == {} && r.handles[k].sessionId in r.subscriptions)
  {
    var h, after := r.handles[k], Unsubscribe(r, k);
    assert !In(r, h.set_, k);
    assert r.sets[h.set_].open - {k} == r.sets[h.set_].open;
    assert after.sets == r.sets;
    if r.sets[h.set_].open == {} && h.sessionId in r.subscriptions {
      var j: nat :| j in r.sets[r.subscriptions[h.sessionId]].open;
      assert In(r, r.subscriptions[h.sessionId], j) && Open(r, j);
      assert Open(after, j) && !Reached(after, j);
    } else {
      assert after.subscriptions == r.subscriptions;
      forall j: nat | Open(after, j) ensures Reached(after, j) {
        assert Open(r, j) && In(r, r.handles[j].set_, j);
      }
    }
  }

  lemma RunSnoc(calls: seq<Call>, c: Call)
    requires Run(calls).Some? && Fitting(Run(calls).value, c)
    ensures Run(calls + [c]) == Some(Make(Run(calls).value, c))
  {
    assert (calls + [c])[..|calls|] == calls;
  }

  /** Subscribe, unsubscribe, subscribe again, call the first closure again: nobody is told anything any more. */
  lemma SecondCallCutsOff(id: SessionId)
    ensures var run := Run([Subscribed(id)] + [Unsubscribed(0)] + [Subscribed(id)]);
            && run.Some? && InBounds(run.value) && |run.value.handles| == 2 && Reached(run.value, 1)
            && var after := Unsubscribe(run.value, 0); 1 !in after.closed && !Reached(after, 1)
  {
    RunSnoc([], Subscribed(id));
    assert [] + [Subscribed(id)] == [Subscribed(id)];
    RunSnoc([Subscribed(id)], Unsubscribed(0));
    RunSnoc([Subscribed(id)] + [Unsubscribed(0)], Subscribed(id));
  }
}
