/**
 * What every run of a subscription keeps, whatever the server answers and however
 * announcements, failures, the timer and unsubscription fall between the steps.
 */
module RelayLaws {
  import opened RelaySteps

  // ---------- Safety ----------

  /** after + 1, …, cursor in order, and the one event the listener is being handed, if any. */
  predicate DeliveredInOrder(s: State, after: int) {
    && after <= s.cursor
    && |s.delivered| == s.cursor - after + (if s.runs != [] && s.runs[0].at.Delivering? then 1 else 0)
    && forall k :: 0 <= k < |s.delivered| ==> s.delivered[k] == after + 1 + k
  }

  predicate RunInOrder(f: Frame, cursor: int) {
    && f.before <= cursor && f.from <= f.before && f.pages <= f.before - f.from
    && (f.at.Delivering? ==> f.at.sequence == cursor + 1)
    && (f.at.Awaiting? ==> f.before == cursor)
  }

  /** At most one run, exactly while `syncing`, and no timer pending while there is one. */
  predicate OneRun(s: State) {
    && |s.runs| <= 1
    && (s.syncing <==> s.runs != [])
    && (s.runs != [] ==> !s.retryTimer)
    && (s.closed ==> !s.retryTimer)
    && (s.resyncRequested && !s.closed ==> s.syncing)
  }

  predicate Safe(s: State, after: int) {
    && OneRun(s)
    && DeliveredInOrder(s, after)
    && (s.runs != [] ==> RunInOrder(s.runs[0], s.cursor))
  }

  lemma FinishIsSafe(s: State, after: int)
    requires s.runs != [] && |s.runs| == 1 && !s.runs[0].at.Delivering?
    requires DeliveredInOrder(s, after) && (s.closed ==> !s.retryTimer)
    ensures Safe(Finish(s, 0), after)
  {
  }

  lemma ResumeIsSafe(s: State, after: int)
    requires Safe(s, after) && s.runs != []
    ensures Safe(Resumed(s, 0), after)
  {
    hide Finish;
    if s.runs[0].at.Paging? {
      FinishIsSafe(s, after);
      FinishIsSafe(ScheduleRetry(s), after);
    }
  }

  lemma NextIsSafe(s: State, step: Step, after: int)
    requires Safe(s, after)
    ensures Safe(Next(s, step), after)
  {
    hide Finish, Resumed;
    match step
    case FetchFails(i) =>
      if i < |s.runs| && s.runs[i].at.Awaiting? {
        FinishIsSafe(ScheduleRetry(s), after);
      }
    case Resume(i) =>
      if i < |s.runs| {
        ResumeIsSafe(s, after);
      }
    case _ =>
  }

  lemma OpenIsSafe(after: int)
    ensures Safe(Open(after), after)
  {
  }

  /**
   * For every server, every order of events and every length of run: the listener saw
   * exactly the numbers after + 1, …, cursor, in order, without a gap or a repeat; at
   * most one run of the page loop exists; no retry timer is pending while it waits; and
   * a run has never read more pages than it moved the cursor.
   */
  lemma {:induction false} RunsAreSafe(after: int, steps: seq<Step>)
    ensures Safe(After(Open(after), steps), after)
  {
    hide Next, Safe;
    if steps == [] {
      OpenIsSafe(after);
    } else {
      RunsAreSafe(after, steps[..|steps| - 1]);
      NextIsSafe(After(Open(after), steps[..|steps| - 1]), steps[|steps| - 1], after);
    }
  }

  // ---------- Prompts ----------

  /** What makes the subscription look at the server: news beyond its cursor, a reconnect, its timer. */
  predicate Prompts(s: State, step: Step) {
    match step
    case Announce(sequence) => sequence > s.cursor
    case SynchronizeAll => true
    case TimerFires => s.retryTimer
    case _ => false
  }

  function HeardBy(s: State, step: Step): int {
    if step.Announce? && step.sequence > s.known then step.sequence else s.known
  }

  /**
   * A prompt starts a run at the cursor if there is none, is kept for the end of the run
   * there is, and means nothing to a subscription that is closed. Old news does nothing.
   */
  lemma PromptMeaning(s: State, step: Step)
    requires OneRun(s) && (step.Announce? || step.SynchronizeAll? || step.TimerFires?)
    ensures var t, heard := Next(s, step), HeardBy(s, step);
            if !Prompts(s, step) || s.closed then t == s.(known := heard)
            else if s.runs != [] then t == s.(known := heard, resyncRequested := true)
            else t == State(s.cursor, false, true, false, false, [Frame(s.cursor, s.cursor, 0, heard, Awaiting)], s.delivered, heard)
  {
  }

  // ---------- After unsubscription ----------

  /** Nothing begins any more: no run, no page, no timer; an idle subscription only hears. */
  predicate Quiet(s: State, t: State) {
    && t.closed && !t.retryTimer && |t.runs| <= |s.runs| <= 1
    && (t.runs != [] ==> t.runs[0].pages == s.runs[0].pages && t.runs[0].before == s.runs[0].before
                         && (t.runs[0].at.Awaiting? ==> s.runs[0].at.Awaiting?))
    && (s.runs == [] ==> t == s.(known := t.known))
  }

  lemma StepIsQuiet(s: State, step: Step, after: int)
    requires Safe(s, after) && s.closed
    ensures Quiet(s, Next(s, step))
  {
    hide DeliveredInOrder;
  }

  /** Whatever is closed stays closed, and begins nothing, over any steps that follow. */
  lemma {:induction false} ClosedIsQuiet(s: State, steps: seq<Step>, after: int)
    requires Safe(s, after) && s.closed
    ensures Quiet(s, After(s, steps)) && Safe(After(s, steps), after)
  {
    hide Next, DeliveredInOrder;
    if steps != [] {
      var earlier := steps[..|steps| - 1];
      ClosedIsQuiet(s, earlier, after);
      StepIsQuiet(After(s, earlier), steps[|steps| - 1], after);
      NextIsSafe(After(s, earlier), steps[|steps| - 1], after);
    }
  }

  /** From the unsubscription of any run on. */
  lemma NothingBeginsAfterUnsubscribe(after: int, steps: seq<Step>, later: seq<Step>)
    ensures var s := After(Open(after), steps + [Unsubscribe]);
            s == After(Open(after), steps).(closed := true, retryTimer := false) && Quiet(s, After(s, later))
  {
    RunsAreSafe(after, steps + [Unsubscribe]);
    AfterSnoc(Open(after), steps, Unsubscribe);
    ClosedIsQuiet(After(Open(after), steps + [Unsubscribe]), later, after);
  }

  // ---------- No lost wake-up ----------

  /** A server never answers with less than it had announced when it was asked. */
  predicate HonestReply(s: State, step: Step) {
    step.Reply? && step.i < |s.runs| ==> s.runs[step.i].asked <= step.page.latestSequence
  }

  predicate Honest(start: State, steps: seq<Step>)
    decreases |steps|
  {
    steps == [] ||
    (Honest(start, steps[..|steps| - 1]) && HonestReply(After(start, steps[..|steps| - 1]), steps[|steps| - 1]))
  }

  predicate Covered(s: State) {
    s.runs == [] || s.resyncRequested || s.known <= s.cursor || s.known <= s.runs[0].asked
  }

  predicate PageCovers(f: Frame) {
    match f.at
    case Awaiting => true
    case Paging(_, page) => f.asked <= page.latestSequence
    case Delivering(_, _, page) => f.asked <= page.latestSequence
  }

  /** Whoever is idle has heard nothing it has not delivered; whoever is busy will look again. */
  predicate Awake(s: State) {
    !s.closed ==>
      && Covered(s)
      && (s.runs != [] ==> PageCovers(s.runs[0]))
      && (s.runs == [] && !s.retryTimer ==> !s.resyncRequested && s.known <= s.cursor)
  }

  lemma FinishIsAwake(s: State)
    requires |s.runs| == 1
    requires !s.closed ==> s.resyncRequested || s.retryTimer || s.known <= s.cursor
    ensures Awake(Finish(s, 0))
  {
  }

  lemma NextIsAwake(s: State, step: Step, after: int)
    requires Safe(s, after) && Awake(s) && HonestReply(s, step)
    ensures Awake(Next(s, step))
  {
    hide Finish, DeliveredInOrder;
    match step
    case FetchFails(i) =>
      if i < |s.runs| && s.runs[i].at.Awaiting? {
        FinishIsAwake(ScheduleRetry(s));
      }
    case Resume(i) =>
      if i < |s.runs| && s.runs[i].at.Paging? {
        var rest, page := s.runs[i].at.rest, s.runs[i].at.page;
        FinishIsAwake(ScheduleRetry(s));
        if rest == [] && !(page.hasMore && s.cursor == s.runs[i].before) && !(!page.hasMore && s.cursor < page.latestSequence)
           && !(page.hasMore && !s.closed) {
          FinishIsAwake(s);
        }
      }
    case _ =>
  }

  lemma OpenIsAwake(after: int)
    ensures Awake(Open(after))
  {
  }

  /**
   * With an honest server, a subscription that is open and idle, with no run and no
   * timer, has no resync pending and has delivered every number ever announced to it.
   */
  lemma {:induction false} NoLostWakeUp(after: int, steps: seq<Step>)
    requires Honest(Open(after), steps)
    ensures Awake(After(Open(after), steps))
  {
    hide Next, Safe, HonestReply;
    if steps == [] {
      OpenIsAwake(after);
    } else {
      NoLostWakeUp(after, steps[..|steps| - 1]);
      RunsAreSafe(after, steps[..|steps| - 1]);
      hide Awake;
      NextIsAwake(After(Open(after), steps[..|steps| - 1]), steps[|steps| - 1], after);
    }
  }

  lemma KnownNeverFalls(s: State, step: Step)
    ensures s.known <= Next(s, step).known
    ensures step.Announce? ==> step.sequence <= Next(s, step).known
  {
  }

  lemma {:induction false} AnnouncedIsKnown(after: int, steps: seq<Step>, sequence: int)
    requires Step.Announce(sequence) in steps
    ensures sequence <= After(Open(after), steps).known
  {
    var earlier, last := steps[..|steps| - 1], steps[|steps| - 1];
    KnownNeverFalls(After(Open(after), earlier), last);
    hide Next;
    if last != Step.Announce(sequence) {
      assert Step.Announce(sequence) in earlier;
      AnnouncedIsKnown(after, earlier, sequence);
    }
  }

  lemma IdleHasDelivered(after: int, steps: seq<Step>, sequence: int)
    requires Honest(Open(after), steps)
    requires Step.Announce(sequence) in steps
    ensures var s := After(Open(after), steps);
            !s.closed && s.runs == [] && !s.retryTimer ==>
              !s.syncing && !s.resyncRequested && sequence <= s.cursor && (after < sequence ==> sequence in s.delivered)
  {
    hide Next;
    NoLostWakeUp(after, steps);
    RunsAreSafe(after, steps);
    AnnouncedIsKnown(after, steps, sequence);
    var s := After(Open(after), steps);
    if !s.closed && s.runs == [] && !s.retryTimer && after < sequence {
      assert s.delivered[sequence - after - 1] == sequence;
    }
  }
}
