/** Main results about the activity scheduler, over every interleaving of its steps. */
module ActivityTheorems {
  import opened Wrappers
  import opened Activity
  import opened ActivityFacts

  function One(b: bool): nat {
    if b then 1 else 0
  }

  predicate Holds(s: Scheduler, w: Work) {
    s.current.Some? && s.current.value.work == w
  }

  /** Every accepted submission is in exactly one of queued, current, flushing, finished and rejected. */
  lemma EachSubmissionInOnePlace(actions: seq<Action>, w: Work)
    ensures var s := After(actions);
      One(w in s.queued) + One(Holds(s, w)) + One(w in Works(s.flushing)) + One(Finished(w) in s.log) + One(Rejected(w) in s.log)
        == One(Accepted(w) in s.log)
  {
    RunInv(actions);
    var s := After(actions);
    var p := PlacesOf(s);
    assert w in p.holding <==> Holds(s, w) || w in Works(s.flushing);
    assert w in p.queued <==> w in s.queued;
  }

  /**
   Nothing overtakes: before a submission is launched, every earlier one of its priority, and
   every accepted one with priority if it has none, was launched or rejected.
   */
  lemma LaunchesFollowPriority(actions: seq<Action>, i: nat, j: nat)
    requires i < j < |After(actions).log|
    requires After(actions).log[i].Accepted? && After(actions).log[j].Launched?
    requires Outranks(After(actions).log[i].work, After(actions).log[j].work)
    ensures LeftBefore(After(actions).log, After(actions).log[i].work, j)
  {
    RunInv(actions);
    assert InOrder(After(actions).log);
  }

  /** Each submission is accepted, launched, rejected and finished at most once, and its hook starts at most once. */
  lemma EachEventOnce(actions: seq<Action>, i: nat, j: nat)
    requires i < |After(actions).log| && j < |After(actions).log| && After(actions).log[i] == After(actions).log[j]
    ensures i == j
  {
    RunInv(actions);
    assert Once(PlacesOf(After(actions)).log);
  }

  /** A free slot with queued work always has a drain pending. */
  lemma FreeSlotHasDrain(actions: seq<Action>)
    ensures var s := After(actions); s.current.None? && s.queued != [] ==> s.drains > 0
  {
    RunInv(actions);
  }

  /** The work of at most one activity has not ended. */
  lemma OneRunsAtATime(actions: seq<Action>, a: Active)
    requires a in After(actions).flushing
    ensures a.settled && !Holds(After(actions), a.work)
  {
    RunInv(actions);
    assert a.work in Works(After(actions).flushing);
  }

  lemma HookMarks(s: Scheduler, action: Action, w: Work)
    requires HookStarted(w) !in s.log && HookStarted(w) in Step(s, action).log
    ensures Holds(s, w) && (action.Cancel? || action.CancelMessage? || action.Expire?)
  {
    if action.CancelMessage? { RejectionsAreRejections(s.queued, action.message); }
  }

  /** A cancel hook starts only while its own activity holds the slot. */
  lemma HooksStartInTheSlot(actions: seq<Action>, action: Action, w: Work)
    requires HookStarted(w) !in After(actions).log && HookStarted(w) in After(actions + [action]).log
    ensures Holds(After(actions), w) && (action.Cancel? || action.CancelMessage? || action.Expire?)
  {
    assert (actions + [action])[..|actions|] == actions;
    HookMarks(After(actions), action, w);
  }

  predicate AbortedIn(s: Scheduler, w: Work) {
    || (Holds(s, w) && s.current.value.aborted)
    || exists a :: a in s.flushing && a.work == w && a.aborted
  }

  predicate Aims(s: Scheduler, action: Action, w: Work) {
    match action
    case Cancel(target) => if target.None? then Holds(s, w) else target.value == w.key
    case CancelMessage(message) => message == w.message
    case Expire => Holds(s, w)
    case _ => false
  }

  lemma AbortFlushingAims(flushing: seq<Active>, target: Target, a: Active)
    requires a in AbortFlushing(flushing, target) && a.aborted
    ensures exists b :: b in flushing && b.work == a.work && (b.aborted || Targets(target, b))
  {
    var aborted := AbortFlushing(flushing, target);
    var i :| 0 <= i < |aborted| && aborted[i] == a;
    assert flushing[i] in flushing && flushing[i].work == a.work;
  }

  lemma CancelAims(s: Scheduler, action: Action, w: Work)
    requires action.Cancel? || action.CancelMessage?
    requires !AbortedIn(s, w) && AbortedIn(Step(s, action), w)
    ensures Aims(s, action, w)
  {
    var t := Step(s, action);
    if !(Holds(t, w) && t.current.value.aborted) {
      var a :| a in t.flushing && a.work == w && a.aborted;
      if action.CancelMessage? {
        AbortFlushingAims(s.flushing, ByMessage(action.message), a);
      } else if t.flushing != s.flushing {
        AbortFlushingAims(s.flushing, ByKey(action.target.value), a);
      }
    }
  }

  lemma FlushingAborts(s: Scheduler, index: nat, action: Action, w: Work)
    requires index < |s.flushing| && AbortedIn(FlushStep(s, index, action), w)
    ensures AbortedIn(s, w)
  {
    var t := FlushStep(s, index, action);
    if !Holds(s, w) || !s.current.value.aborted {
      var a :| a in t.flushing && a.work == w && a.aborted;
      assert a in s.flushing || (s.flushing[index] in s.flushing && s.flushing[index].work == w && s.flushing[index].aborted);
    }
  }

  lemma SlotAborts(s: Scheduler, action: Action, w: Work)
    requires s.current.Some? && !AbortedIn(s, w) && AbortedIn(SlotStep(s, s.current.value, action), w)
    ensures action.Expire? && Holds(s, w)
  {
    var held := s.current.value;
    var t := SlotStep(s, held, action);
    assert forall a :: a in t.flushing ==> a in s.flushing || a == held;
  }

  /** A signal is aborted only by a cancellation aimed at its own activity, or by its own deadline. */
  lemma AbortsOnlyItsTarget(s: Scheduler, action: Action, w: Work)
    requires !AbortedIn(s, w) && AbortedIn(Step(s, action), w)
    ensures Aims(s, action, w)
  {
    if action.Cancel? || action.CancelMessage? {
      CancelAims(s, action, w);
    } else if action.FlushOne? || action.Flushed? || action.HookEnds? {
      var index := FlushingIndex(s.flushing, action.key);
      if index.Some? && !(action.HookEnds? && s.current.Some? && s.current.value.work.key == action.key) {
        FlushingAborts(s, index.value, action, w);
      }
    } else if s.current.Some? && !action.Start? && !action.Queue? && !action.RunDrain? {
      SlotAborts(s, action, w);
    }
  }

  /** The activity whose slot this step releases, without waiting for the grace period. */
  predicate Releases(s: Scheduler, w: Work) {
    Holds(s, w) && MayRelease(s.current.value, false)
  }

  lemma ReleaseMoves(s: Scheduler, graceElapsed: bool)
    requires s.current.Some? && MayRelease(s.current.value, graceElapsed)
    ensures var t := Step(s, Release(graceElapsed));
      t.flushing == s.flushing + [s.current.value] && (t.log == s.log || exists m: Mark :: m.Launched? && t.log == s.log + [m])
  {
    var u := s.(flushing := s.flushing + [s.current.value], current := None);
    assert Step(s, Release(graceElapsed)) == Drain(u);
  }

  lemma HookAtRelease(log: seq<Mark>, a: Active)
    requires Once(log) && HookOk(log, a) && MayRelease(a, false)
    ensures a.hookRunning <==> Before(log, WorkEnded(a.work), HookStarted(a.work)) && HookEnded(a.work) !in log
  {
    var started, settled := HookStarted(a.work), WorkEnded(a.work);
    if a.hookRunning {
      var i :| 0 <= i < |log| && log[i] == settled;
      var j :| 0 <= j < |log| && log[j] == started;
      assert !Before(log, started, settled);
      assert i < j;
    }
  }

  /**
   Within the grace period, a hook outlives the slot of its activity exactly when it started after
   the work had ended, and has not ended itself. Every hook that began before is awaited.
   */
  lemma HookOutlivesSlotExactly(actions: seq<Action>, w: Work)
    requires Releases(After(actions), w)
    ensures var log, t := After(actions).log, Step(After(actions), Release(false));
      && t.flushing != [] && t.flushing[|t.flushing| - 1].work == w
      && (t.flushing[|t.flushing| - 1].hookRunning <==> Before(log, WorkEnded(w), HookStarted(w)) && HookEnded(w) !in log)
      && (Before(log, HookStarted(w), WorkEnded(w)) ==> HookEnded(w) in log)
  {
    RunInv(actions);
    var s := After(actions);
    assert Once(PlacesOf(s).log);
    HookAtRelease(s.log, s.current.value);
    ReleaseMoves(s, false);
    if Before(s.log, HookStarted(w), WorkEnded(w)) {
      var i, j :| 0 <= i < j < |s.log| && s.log[i] == HookStarted(w) && s.log[j] == WorkEnded(w);
      assert HookStarted(w) in s.log;
    }
  }

  lemma HandoverIsRelease(s: Scheduler, action: Action)
    requires s.current.Some? && (Step(s, action).current.None? || Step(s, action).current.value.work != s.current.value.work)
    ensures action.Release? && MayRelease(s.current.value, action.graceElapsed)
  {
  }

  /**
   The slot passes on only after the work ended and, unless the grace period is over, every
   steering delivery and every hook that began before the work ended are done too.
   */
  lemma HandoverWaits(actions: seq<Action>, action: Action, w: Work)
    requires Holds(After(actions), w) && !Holds(Step(After(actions), action), w)
    ensures var s := After(actions);
      && action.Release? && WorkEnded(w) in s.log
      && (!action.graceElapsed ==>
            s.current.value.steering == 0 && (Before(s.log, HookStarted(w), WorkEnded(w)) ==> HookEnded(w) in s.log))
  {
    RunInv(actions);
    HandoverIsRelease(After(actions), action);
    if !action.graceElapsed { HookOutlivesSlotExactly(actions, w); }
  }

  lemma AfterOneMore(actions: seq<Action>, action: Action)
    ensures After(actions + [action]) == Step(After(actions), action)
  {
    assert (actions + [action])[..|actions|] == actions;
  }

  /** A hook that starts while its activity is already settling is not awaited: the next activity may run beside it. */
  lemma LateHookIsNotAwaited()
    ensures var s := After([Start(0), WorkEnds, Cancel(None), Queue(1, false), Release(false)]);
      s.current.Some? && s.current.value.work.message == 1 && |s.flushing| == 1 && s.flushing[0].hookRunning
  {
    var two, three := [Start(0), WorkEnds], [Start(0), WorkEnds, Cancel(None)];
    var four := three + [Queue(1, false)];
    AfterOneMore([], Start(0));
    assert [] + [Start(0)] == [Start(0)];
    AfterOneMore([Start(0)], WorkEnds);
    assert [Start(0)] + [WorkEnds] == two;
    AfterOneMore(two, Cancel(None));
    assert two + [Cancel(None)] == three;
    AfterOneMore(three, Queue(1, false));
    AfterOneMore(four, Release(false));
    assert four + [Release(false)] == [Start(0), WorkEnds, Cancel(None), Queue(1, false), Release(false)];
  }
}
