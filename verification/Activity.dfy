/**
 The activity scheduler: one slot shared by immediate and queued work. Each stretch of the
 source between two awaits is one step, and steps interleave freely. `key` numbers the
 accepted submissions; `log` records what happened and is never read by a step.
 */
module Activity {
  import opened Wrappers

  const MAX_QUEUED: nat := 256

  datatype Work = Work(key: nat, message: nat, priority: bool)

  /** `steering` counts deliveries in progress; `hookAwaited` is fixed when settling begins. */
  datatype Active = Active(
    work: Work, settled: bool, cancelled: bool, aborted: bool, steering: nat, hookRunning: bool, hookAwaited: bool, followups: nat)

  datatype Mark =
    | Accepted(work: Work)
    | Launched(work: Work)
    | Rejected(work: Work)
    | HookStarted(work: Work)
    | HookEnded(work: Work)
    | WorkEnded(work: Work)
    | Finished(work: Work)

  /** `drains` counts the microtasks that will call `drain`. */
  datatype Scheduler = Scheduler(
    current: Option<Active>, flushing: seq<Active>, queued: seq<Work>, drains: nat, next: nat, log: seq<Mark>)

  datatype Action =
    | Start(message: nat)
    | Queue(message: nat, priority: bool)
    | RunDrain
    | Buffer
    | Steer
    | Steered
    | WorkEnds
    | Release(graceElapsed: bool)
    | FlushOne(key: nat)
    | Flushed(key: nat)
    | Cancel(target: Option<nat>)
    | CancelMessage(message: nat)
    | Expire
    | HookEnds(key: nat)

  const IDLE := Scheduler(None, [], [], 0, 0, [])

  predicate IsIdle(s: Scheduler) {
    s.current.None? && s.queued == [] && s.flushing == []
  }

  function Without<T>(items: seq<T>, index: nat): (rest: seq<T>)
    requires index < |items|
    ensures |rest| == |items| - 1
    ensures forall x :: x in rest ==> x in items
  {
    items[..index] + items[index + 1..]
  }

  function FirstPriority(queued: seq<Work>, from: nat): (index: Option<nat>)
    requires from <= |queued|
    ensures index.Some? ==> from <= index.value < |queued| && queued[index.value].priority
    ensures forall i :: from <= i < (if index.Some? then index.value else |queued|) ==> !queued[i].priority
    decreases |queued| - from
  {
    if from == |queued| then None else if queued[from].priority then Some(from) else FirstPriority(queued, from + 1)
  }

  function Pick(queued: seq<Work>): (index: nat)
    requires queued != []
    ensures index < |queued|
  {
    var first := FirstPriority(queued, 0);
    if first.Some? then first.value else 0
  }

  function Launch(s: Scheduler, work: Work): Scheduler {
    s.(current := Some(Active(work, false, false, false, 0, false, false, 0)), log := s.log + [Launched(work)])
  }

  function Drain(s: Scheduler): Scheduler {
    if s.current.Some? || s.queued == [] then s
    else
      var index := Pick(s.queued);
      Launch(s.(queued := Without(s.queued, index)), s.queued[index])
  }

  /** `abort`: the hook starts at most once, and never for an activity that has released the slot. */
  function Aborted(a: Active, holdsSlot: bool): Active {
    a.(cancelled := true, aborted := true, hookRunning := a.hookRunning || (holdsSlot && !a.cancelled))
  }

  function AbortCurrent(s: Scheduler): Scheduler {
    if s.current.None? then s
    else
      var a := s.current.value;
      s.(current := Some(Aborted(a, true)), log := if a.cancelled then s.log else s.log + [HookStarted(a.work)])
  }

  function EndHook(s: Scheduler): Scheduler
    requires s.current.Some?
  {
    var a := s.current.value;
    if !a.hookRunning then s else s.(current := Some(a.(hookRunning := false)), log := s.log + [HookEnded(a.work)])
  }

  datatype Target = ByKey(key: nat) | ByMessage(message: nat)

  predicate Targets(target: Target, a: Active) {
    if target.ByKey? then a.work.key == target.key else a.work.message == target.message
  }

  function AbortFlushing(flushing: seq<Active>, target: Target): (aborted: seq<Active>)
    ensures |aborted| == |flushing|
    ensures forall i :: 0 <= i < |flushing| ==>
      aborted[i] == if Targets(target, flushing[i]) then Aborted(flushing[i], false) else flushing[i]
  {
    seq(|flushing|, i requires 0 <= i < |flushing| =>
      if Targets(target, flushing[i]) then Aborted(flushing[i], false) else flushing[i])
  }

  function Keep(queued: seq<Work>, message: nat): seq<Work> {
    if queued == [] then []
    else (if queued[0].message == message then [] else [queued[0]]) + Keep(queued[1..], message)
  }

  /** Queued work of a message is rejected from the newest to the oldest. */
  function Rejections(queued: seq<Work>, message: nat): seq<Mark> {
    if queued == [] then []
    else Rejections(queued[1..], message) + (if queued[0].message == message then [Rejected(queued[0])] else [])
  }

  function FlushingIndex(flushing: seq<Active>, key: nat): (index: Option<nat>)
    ensures index.Some? ==> index.value < |flushing| && flushing[index.value].work.key == key
    ensures index.None? ==> forall i :: 0 <= i < |flushing| ==> flushing[i].work.key != key
  {
    if flushing == [] then None
    else if flushing[0].work.key == key then Some(0)
    else
      var rest := FlushingIndex(flushing[1..], key);
      if rest.None? then None else Some(rest.value + 1)
  }

  function CancelStep(s: Scheduler, key: Option<nat>): Scheduler {
    if key.None? || (s.current.Some? && s.current.value.work.key == key.value) then AbortCurrent(s)
    else s.(flushing := AbortFlushing(s.flushing, ByKey(key.value)))
  }

  function CancelMessageStep(s: Scheduler, message: nat): Scheduler {
    var t := s.(queued := Keep(s.queued, message), log := s.log + Rejections(s.queued, message));
    var u := if s.current.Some? && s.current.value.work.message == message then AbortCurrent(t) else t;
    u.(flushing := AbortFlushing(s.flushing, ByMessage(message)))
  }

  /** The slot is released once steering and the awaited hook are done, or the grace period is over. */
  predicate MayRelease(a: Active, graceElapsed: bool) {
    a.settled && (graceElapsed || (a.steering == 0 && (a.hookAwaited ==> !a.hookRunning)))
  }

  function SlotStep(s: Scheduler, a: Active, action: Action): Scheduler
    requires s.current == Some(a)
  {
    match action
    case Buffer => if a.settled || a.followups >= MAX_QUEUED then s else s.(current := Some(a.(followups := a.followups + 1)))
    case Steer =>
      if a.settled || a.aborted || a.steering >= MAX_QUEUED then s else s.(current := Some(a.(steering := a.steering + 1)))
    case Steered => if a.steering == 0 then s else s.(current := Some(a.(steering := a.steering - 1)))
    case WorkEnds =>
      if a.settled then s
      else s.(current := Some(a.(settled := true, hookAwaited := a.hookRunning)), log := s.log + [WorkEnded(a.work)])
    case Release(graceElapsed) =>
      if !MayRelease(a, graceElapsed) then s else Drain(s.(flushing := s.flushing + [a], current := None))
    case Expire => AbortCurrent(s)
    case _ => s
  }

  function FlushStep(s: Scheduler, index: nat, action: Action): Scheduler
    requires index < |s.flushing|
  {
    var a := s.flushing[index];
    match action
    case FlushOne(_) => if a.followups == 0 then s else s.(flushing := s.flushing[index := a.(followups := a.followups - 1)])
    case Flushed(_) =>
      if a.followups > 0 then s else s.(flushing := Without(s.flushing, index), log := s.log + [Finished(a.work)])
    case HookEnds(_) =>
      if !a.hookRunning then s
      else s.(flushing := s.flushing[index := a.(hookRunning := false)], log := s.log + [HookEnded(a.work)])
    case _ => s
  }

  function Step(s: Scheduler, action: Action): Scheduler {
    match action
    case Start(message) =>
      if s.current.Some? || s.queued != [] then s
      else
        var work := Work(s.next, message, false);
        Launch(s.(next := s.next + 1, log := s.log + [Accepted(work)]), work)
    case Queue(message, priority) =>
      if |s.queued| >= MAX_QUEUED then s
      else
        var work := Work(s.next, message, priority);
        s.(queued := s.queued + [work], drains := s.drains + 1, next := s.next + 1, log := s.log + [Accepted(work)])
    case RunDrain => if s.drains == 0 then s else Drain(s.(drains := s.drains - 1))
    case Cancel(key) => CancelStep(s, key)
    case CancelMessage(message) => CancelMessageStep(s, message)
    case HookEnds(key) =>
      if s.current.Some? && s.current.value.work.key == key then EndHook(s)
      else if FlushingIndex(s.flushing, key).Some? then FlushStep(s, FlushingIndex(s.flushing, key).value, action)
      else s
    case FlushOne(key) =>
      if FlushingIndex(s.flushing, key).None? then s else FlushStep(s, FlushingIndex(s.flushing, key).value, action)
    case Flushed(key) =>
      if FlushingIndex(s.flushing, key).None? then s else FlushStep(s, FlushingIndex(s.flushing, key).value, action)
    case _ => if s.current.None? then s else SlotStep(s, s.current.value, action)
  }

  function After(actions: seq<Action>): Scheduler {
    if actions == [] then IDLE else Step(After(actions[..|actions| - 1]), actions[|actions| - 1])
  }
}
