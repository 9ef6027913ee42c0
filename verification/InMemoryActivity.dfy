/** The scheduler as the object that owns the slot; every method is one step of module `Activity`. */
module InMemoryActivity {
  import opened Wrappers
  import opened Activity

  class ActivitySlot {
    var current: Option<Active>
    var flushing: seq<Active>
    var queued: seq<Work>
    var drains: nat
    var next: nat
    ghost var log: seq<Mark>

    constructor ()
      ensures State() == IDLE
    {
      current, flushing, queued, drains, next, log := None, [], [], 0, 0, [];
    }

    ghost function State(): Scheduler
      reads this
    {
      Scheduler(current, flushing, queued, drains, next, log)
    }

    method LaunchWork(work: Work)
      modifies this`current, this`log
      ensures State() == Launch(old(State()), work)
    {
      current := Some(Active(work, false, false, false, 0, false, false, 0));
      log := log + [Launched(work)];
    }

    method StartNow(message: nat) returns (started: bool)
      modifies this
      ensures State() == Step(old(State()), Start(message))
      ensures started <==> old(current).None? && old(queued) == []
    {
      if current.Some? || |queued| > 0 { return false; }
      var work := Work(next, message, false);
      next, log := next + 1, log + [Accepted(work)];
      LaunchWork(work);
      started := true;
    }

    method Enqueue(message: nat, priority: bool) returns (accepted: bool)
      modifies this
      ensures State() == Step(old(State()), Queue(message, priority))
      ensures accepted <==> |old(queued)| < MAX_QUEUED
    {
      if |queued| >= MAX_QUEUED { return false; }
      var work := Work(next, message, priority);
      queued, drains, next, log := queued + [work], drains + 1, next + 1, log + [Accepted(work)];
      accepted := true;
    }

    /** `drain`: the first queued submission with priority, or else the oldest. */
    method DrainQueue()
      modifies this`current, this`queued, this`log
      ensures State() == Drain(old(State()))
    {
      if current.Some? || |queued| == 0 { return; }
      var index := 0;
      while index < |queued| && !queued[index].priority
        invariant 0 <= index <= |queued|
        invariant FirstPriority(queued, 0) == FirstPriority(queued, index)
      {
        index := index + 1;
      }
      if index == |queued| { index := 0; }
      var work := queued[index];
      queued := queued[..index] + queued[index + 1..];
      LaunchWork(work);
    }

    method DrainTask()
      requires drains > 0
      modifies this`current, this`queued, this`log, this`drains
      ensures State() == Step(old(State()), RunDrain)
    {
      drains := drains - 1;
      DrainQueue();
    }

    method AbortInSlot()
      modifies this`current, this`log
      ensures State() == AbortCurrent(old(State()))
    {
      if current.None? { return; }
      var a := current.value;
      if !a.cancelled {
        a := a.(cancelled := true, hookRunning := true);
        log := log + [HookStarted(a.work)];
      }
      current := Some(a.(aborted := true));
    }

    /** Aborts the flushing activities that `target` names; their hooks do not start. */
    method AbortOutOfSlot(target: Target)
      modifies this`flushing
      ensures flushing == AbortFlushing(old(flushing), target)
    {
      ghost var before := flushing;
      var i := 0;
      while i < |flushing|
        invariant 0 <= i <= |flushing| == |before|
        invariant forall k :: 0 <= k < i ==> flushing[k] == AbortFlushing(before, target)[k]
        invariant forall k :: i <= k < |before| ==> flushing[k] == before[k]
      {
        if Targets(target, flushing[i]) {
          flushing := flushing[i := flushing[i].(cancelled := true, aborted := true)];
        }
        i := i + 1;
      }
    }

    /** Removes and rejects the queued work of one message, from the newest to the oldest, then aborts the rest of it. */
    method CancelByMessage(message: nat)
      modifies this`current, this`flushing, this`queued, this`log
      ensures State() == Step(old(State()), CancelMessage(message))
    {
      ghost var before := queued;
      var index := |queued|;
      while index > 0
        invariant 0 <= index <= |before|
        invariant queued == before[..index] + Keep(before[index..], message)
        invariant log == old(log) + Rejections(before[index..], message)
        invariant current == old(current) && flushing == old(flushing) && drains == old(drains) && next == old(next)
      {
        index := index - 1;
        assert before[index..] == [before[index]] + before[index + 1..];
        assert queued[index] == before[index];
        if queued[index].message == message {
          log := log + [Rejected(queued[index])];
          queued := queued[..index] + queued[index + 1..];
        }
        assert queued == before[..index] + Keep(before[index..], message);
      }
      assert before[0..] == before && before[..0] == [];
      if current.Some? && current.value.work.message == message { AbortInSlot(); }
      AbortOutOfSlot(ByMessage(message));
    }

    method CancelActivity(target: Option<nat>) returns (found: bool)
      modifies this`current, this`flushing, this`log
      ensures State() == Step(old(State()), Cancel(target))
      ensures found <==> if target.None? then old(current).Some?
                         else (old(current).Some? && old(current).value.work.key == target.value)
                              || FlushingIndex(old(flushing), target.value).Some?
    {
      if target.None? || (current.Some? && current.value.work.key == target.value) {
        found := current.Some?;
        AbortInSlot();
        return;
      }
      found := FlushingIndex(flushing, target.value).Some?;
      AbortOutOfSlot(ByKey(target.value));
    }

    /** The first half of `settle`: no more steering or follow-ups; a hook running now will be awaited. */
    method BeginSettle()
      requires current.Some?
      modifies this`current, this`log
      ensures State() == Step(old(State()), WorkEnds)
    {
      if !current.value.settled {
        log := log + [WorkEnded(current.value.work)];
        current := Some(current.value.(settled := true, hookAwaited := current.value.hookRunning));
      }
    }

    /** The second half: release the slot and start the next activity in the same stretch. */
    method ReleaseSlot(graceElapsed: bool)
      requires current.Some? && MayRelease(current.value, graceElapsed)
      modifies this
      ensures State() == Step(old(State()), Release(graceElapsed))
    {
      flushing := flushing + [current.value];
      current := None;
      DrainQueue();
    }
  }
}
