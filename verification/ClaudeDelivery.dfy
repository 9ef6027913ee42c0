/**
 The runtime together with the stream it drives. `trace` is what happened to the stream of the live
 run since it was made, `sent` holds the sides that called `send` for the delivery they hold, and
 `base` counts the inputs written before the stream was made.
 */
module ClaudeDelivery {
  import opened Wrappers
  import opened ClaudeState
  import opened ClaudeRuntime
  import opened ClaudeRuntimeInvariant
  import opened ClaudeRuntimeSteps
  import opened ClaudeRuntimeWrites
  import opened ClaudeRuntimeTheorems
  import opened ClaudeRevival
  import S = ClaudeStore
  import T = ClaudeStream

  datatype Joint = Joint(system: System, trace: seq<T.Action>, sent: set<Side>, base: nat)

  datatype JointAction =
    | Proceeds(action: Action)                                 // any step of the runtime but a hand-off
    | Calls(side: Side)                                        // `send` up to its first await
    | Resolves(side: Side, send: SendOutcome, nextRun: nat)    // the rest of `send`
    | Native(event: T.Action)                                  // the child came up, emitted an event or ended

  predicate StreamExists(s: System) {
    s.active.Some? && s.active.value.ready
  }

  function StreamOf(j: Joint): T.Stream {
    T.After(j.trace)
  }

  /** What a step of the runtime does to the stream: it makes one, or cancels the one it has. */
  function Mirror(s: System, t: System, trace: seq<T.Action>): seq<T.Action> {
    if !StreamExists(s) && StreamExists(t) then (if StreamOpen(t) then [] else [T.Cancel])
    else if StreamOpen(s) && !StreamOpen(t) then trace + [T.Cancel]
    else trace
  }

  function Follow(j: Joint, t: System, trace: seq<T.Action>): Joint {
    Joint(t, Mirror(j.system, t, trace), set side | side in j.sent && PcOf(t, TaskOf(side)).Sending?,
          if !StreamExists(j.system) && StreamExists(t) then |t.written| else j.base)
  }

  /** The runtime sees `done` resolve only after the stream closed, and without an error only when it succeeded. */
  predicate CanProceed(j: Joint, action: Action) {
    && !action.HandlerSend? && !action.ActivitySend? && !action.StreamCloses?
    && (action.ActivityDrained? ==> !StreamOpen(j.system) && (action.ok ==> T.Succeeds(StreamOf(j), true, false)))
  }

  predicate CanHand(j: Joint, side: Side, id: nat) {
    && side in j.sent && StreamExists(j.system)
    && StreamOf(j).ready && id in StreamOf(j).waiting && T.Accepting(StreamOf(j))
  }

  /** `send` resolves or breaks after the bytes were handed over, breaks before, or finds the stream closed. */
  predicate CanResolve(j: Joint, side: Side, id: nat, send: SendOutcome) {
    match send
    case Wrote => CanHand(j, side, id)
    case Broke(wrote) => wrote ==> CanHand(j, side, id)
    case Refused => StreamExists(j.system) ==> !T.Accepting(StreamOf(j))
  }

  function SendAction(side: Side, send: SendOutcome, nextRun: nat): Action {
    if side.HandlerSide? then HandlerSend(send, nextRun) else ActivitySend(send, nextRun)
  }

  function Resumed(j: Joint, side: Side, id: nat, send: SendOutcome): seq<T.Action> {
    if side in j.sent && StreamExists(j.system) && send != Broke(false) then j.trace + [T.Resume(id)] else j.trace
  }

  function JStep(j: Joint, action: JointAction): Joint {
    var s := j.system;
    match action
    case Proceeds(a) => if !CanProceed(j, a) then j else Follow(j, Step(s, a), j.trace)
    case Calls(side) =>
      var pc := PcOf(s, TaskOf(side));
      if !pc.Sending? || side in j.sent || !StreamExists(s) then j
      else j.(trace := j.trace + [T.Submit(pc.delivery.nativeId)], sent := j.sent + {side})
    case Resolves(side, send, nextRun) =>
      var pc := PcOf(s, TaskOf(side));
      if !pc.Sending? || !IsOpen(s) || !CanResolve(j, side, pc.delivery.nativeId, send) then j
      else Follow(j, Step(s, SendAction(side, send, nextRun)), Resumed(j, side, pc.delivery.nativeId, send))
    case Native(event) =>
      if event.Submit? || event.Resume? || !StreamExists(s) then j
      else
        var trace := j.trace + [event];
        j.(trace := trace, system := if T.Accepting(T.After(trace)) then s else Close(s))
  }

  function JAfter(actions: seq<JointAction>): Joint {
    if actions == [] then Joint(Init(), [], {}, 0)
    else JStep(JAfter(actions[..|actions| - 1]), actions[|actions| - 1])
  }

  // ------------------------------------------------------------------- invariant

  predicate HoldsIt(j: Joint, side: Side, id: nat) {
    side in j.sent && PcOf(j.system, TaskOf(side)).Sending? && PcOf(j.system, TaskOf(side)).delivery.nativeId == id
  }

  predicate Holds(j: Joint, id: nat) {
    HoldsIt(j, HandlerSide, id) || HoldsIt(j, ActivitySide, id)
  }

  ghost predicate SentOk(j: Joint) {
    forall side :: side in j.sent ==> PcOf(j.system, TaskOf(side)).Sending?
  }

  /** The runtime's view of its stream is right, and whoever waits to hand over an input holds it. */
  ghost predicate StreamOk(j: Joint, stream: T.Stream) {
    && (StreamExists(j.system) ==> (StreamOpen(j.system) <==> T.Accepting(stream)))
    && (StreamOpen(j.system) ==> forall id :: id in stream.waiting ==> Holds(j, id))
  }

  ghost predicate HandedSince(base: nat, written: seq<nat>, stream: T.Stream) {
    base <= |written| && forall k :: base <= k < |written| ==> T.Handed(written[k]) in stream.history
  }

  /** What was handed to the live stream is what the runtime counts as written since the stream was made. */
  ghost predicate HandedOk(j: Joint, stream: T.Stream) {
    && (forall id :: T.Handed(id) in stream.history ==> id in j.system.written)
    && (StreamExists(j.system) ==> HandedSince(j.base, j.system.written, stream))
  }

  ghost predicate JInv(j: Joint) {
    Inv(j.system) && T.FreshRun(j.trace) && SentOk(j) && StreamOk(j, StreamOf(j)) && HandedOk(j, StreamOf(j))
  }

  // ---------------------------------------------------------------- the stream

  lemma FreshNext(trace: seq<T.Action>, a: T.Action)
    requires T.FreshRun(trace) && T.Fresh(T.After(trace), a)
    ensures T.FreshRun(trace + [a]) && T.After(trace + [a]) == T.Step(T.After(trace), a)
  {
    var more := trace + [a];
    T.AfterOneMore(trace, a);
    forall n | 0 <= n < |more| ensures T.Fresh(T.After(more[..n]), more[n]) {
      if n < |trace| {
        assert more[..n] == trace[..n] && more[n] == trace[n];
      } else {
        assert more[..n] == trace;
      }
    }
  }

  lemma Made(open: bool)
    ensures var trace := if open then [] else [T.Cancel];
      && T.FreshRun(trace) && (T.Accepting(T.After(trace)) <==> open)
      && T.After(trace).waiting == {} && T.After(trace).history == []
  {
    assert T.After([]) == T.Init();
    if !open {
      FreshNext([], T.Cancel);
      assert [] + [T.Cancel] == [T.Cancel];
    }
  }

  /** Only submitting and resuming move an input, and nothing opens a closed stream. */
  lemma NativeStep(stream: T.Stream, event: T.Action)
    requires !event.Submit? && !event.Resume?
    ensures var t := T.Step(stream, event);
      && t.waiting == stream.waiting && (T.Accepting(t) ==> T.Accepting(stream)) && T.Fresh(stream, event)
      && forall id :: T.Handed(id) in t.history <==> T.Handed(id) in stream.history
  {
  }

  // ------------------------------------------------------------------ the runtime

  lemma HandlerHolds(s: System, action: Action)
    requires HandlerAction(action) && !action.HandlerSend?
    ensures var t := Step(s, action);
      && (s.h.Sending? ==> t.h == s.h) && (s.a.Sending? ==> t.a == s.a)
      && (StreamExists(s) ==> StreamExists(t)) && (StreamOpen(t) ==> StreamOpen(s))
  {
    if action.HandlerCancel? || action.HandlerReset? { ControlHolds(s, action); }
  }

  lemma ControlHolds(s: System, action: Action)
    requires action.HandlerCancel? || action.HandlerReset?
    ensures var t := Step(s, action);
      && (s.h.Sending? ==> t.h == s.h) && (s.a.Sending? ==> t.a == s.a)
      && (StreamExists(s) ==> StreamExists(t)) && (StreamOpen(t) ==> StreamOpen(s))
  {
  }

  lemma ActivityHolds(s: System, action: Action)
    requires ActivityAction(action) && !action.ActivitySend?
    ensures var t := Step(s, action);
      && (s.h.Sending? ==> t.h == s.h) && (s.a.Sending? ==> t.a == s.a) && (StreamOpen(t) ==> StreamOpen(s))
  {
  }

  lemma OthersHold(s: System, action: Action)
    requires Between(action) && !HandlerAction(action) && !ActivityAction(action) && (action.Open? && !IsOpen(s) ==> s.h.Idle?)
    ensures var t := Step(s, action);
      && (s.h.Sending? ==> t.h == s.h) && (s.a.Sending? ==> t.a == s.a)
      && (StreamExists(s) ==> StreamExists(t)) && (StreamOpen(t) ==> StreamOpen(s))
  {
  }

  lemma FailHolds(s: System, task: Task, op: Op)
    ensures StreamOpen(Fail(s, task, op)) ==> StreamOpen(s)
    ensures StreamExists(Fail(s, task, op)) <==> StreamExists(s)
  {
  }

  lemma BeginStream(s: System, nativeId: nat, accepting: bool)
    ensures var t := BeginHeadStep(s, nativeId, accepting);
      (StreamExists(s) <==> StreamExists(t)) && (StreamOpen(t) ==> StreamOpen(s))
  {
    if s.queue != [] {
      var base, task := s.(queue := s.queue[1..]), s.queue[0];
      FailHolds(base, task, MarkRun(0));
      if PcOf(s, task).Queued? { FailHolds(base, task, PcOf(s, task).op); }
    }
  }

  lemma BeginHolds(s: System, nativeId: nat, accepting: bool)
    requires Chain(s)
    ensures var t := BeginHeadStep(s, nativeId, accepting);
      (s.h.Sending? ==> t.h == s.h) && (s.a.Sending? ==> t.a == s.a)
  {
    var t := BeginHeadStep(s, nativeId, accepting);
    BeginPcs(s, nativeId, accepting);
    assert PcOf(s, Handler) == s.h && PcOf(s, Activity) == s.a && PcOf(t, Handler) == t.h && PcOf(t, Activity) == t.a;
    if t != s { assert s.queue[0] in s.queue; }
  }

  lemma DoneHolds(s: System, task: Task, op: Op, attempted: bool)
    requires task.Activity? && op.StartFirst? ==> !StreamExists(s)
    ensures StreamExists(s) ==> StreamExists(Done(s, task, op, attempted))
    ensures StreamExists(s) && StreamOpen(Done(s, task, op, attempted)) ==> StreamOpen(s)
  {
  }

  lemma FinishStream(s: System, write: S.WriteOutcome)
    requires Inv(s) && StreamExists(s)
    ensures var t := FinishWriteStep(s, write); StreamExists(t) && (StreamOpen(t) ==> StreamOpen(s))
  {
    if s.writer.Some? && PcOf(s, s.writer.value).Writing? {
      var base, pc := s.(core := S.Step(s.core, S.Finish(write)), writer := None), PcOf(s, s.writer.value);
      FailHolds(base, s.writer.value, pc.op);
      DoneHolds(base, s.writer.value, pc.op, pc.attempted);
    }
  }

  lemma FinishHolds(s: System, write: S.WriteOutcome)
    requires Inv(s)
    ensures var t := FinishWriteStep(s, write);
      (s.h.Sending? ==> t.h == s.h) && (s.a.Sending? ==> t.a == s.a)
  {
    var t := FinishWriteStep(s, write);
    FinishPcs(s, write);
    assert PcOf(s, Handler) == s.h && PcOf(s, Activity) == s.a && PcOf(t, Handler) == t.h && PcOf(t, Activity) == t.a;
  }

  /** A delivery stays with its holder until it resolves, and a closed stream is not opened again. */
  lemma StepHolds(s: System, action: Action)
    requires Inv(s) && !action.Crash? && !action.HandlerSend? && !action.ActivitySend?
    ensures var t := Step(s, action);
      && (s.h.Sending? ==> t.h == s.h) && (s.a.Sending? ==> t.a == s.a)
      && (StreamExists(s) && StreamOpen(t) ==> StreamOpen(s))
  {
    if action.BeginHead? {
      BeginHolds(s, action.nativeId, action.accepting);
      BeginStream(s, action.nativeId, action.accepting);
    } else if action.FinishWrite? {
      FinishHolds(s, action.write);
      if StreamExists(s) { FinishStream(s, action.write); }
    } else if HandlerAction(action) { HandlerHolds(s, action); }
    else if ActivityAction(action) { ActivityHolds(s, action); }
    else { OthersHold(s, action); }
  }

  // -------------------------------------------------------------------- every step

  /** What a runtime step has to keep, given what it did to the stream until then. */
  ghost predicate Follows(j: Joint, t: System, trace: seq<T.Action>) {
    var s, stream := j.system, T.After(trace);
    && Inv(t) && T.FreshRun(trace)
    && (StreamExists(s) ==> (StreamOpen(s) <==> T.Accepting(stream)))
    && (StreamExists(s) && StreamOpen(t) ==> StreamOpen(s) && forall id :: id in stream.waiting ==> Holds(j.(system := t), id))
    && (forall id :: T.Handed(id) in stream.history ==> id in t.written)
    && (StreamExists(s) && StreamExists(t) ==> HandedSince(j.base, t.written, stream))
  }

  lemma MadeKeeps(j: Joint, t: System, trace: seq<T.Action>)
    requires Follows(j, t, trace) && !StreamExists(j.system) && StreamExists(t)
    ensures JInv(Follow(j, t, trace))
  {
    Made(StreamOpen(t));
  }

  lemma CancelledKeeps(j: Joint, t: System, trace: seq<T.Action>)
    requires Follows(j, t, trace) && StreamOpen(j.system) && !StreamOpen(t)
    ensures JInv(Follow(j, t, trace))
  {
    NativeStep(T.After(trace), T.Cancel);
    FreshNext(trace, T.Cancel);
  }

  lemma FollowKeeps(j: Joint, t: System, trace: seq<T.Action>)
    requires Follows(j, t, trace)
    ensures JInv(Follow(j, t, trace))
  {
    if !StreamExists(j.system) && StreamExists(t) {
      MadeKeeps(j, t, trace);
    } else if StreamOpen(j.system) && !StreamOpen(t) {
      CancelledKeeps(j, t, trace);
    }
  }

  lemma Proceeded(j: Joint, t: System)
    requires JInv(j) && Inv(t) && t.written == j.system.written
    requires StreamExists(t) ==> (j.system.h.Sending? ==> t.h == j.system.h) && (j.system.a.Sending? ==> t.a == j.system.a)
    requires StreamExists(j.system) && StreamOpen(t) ==> StreamOpen(j.system)
    ensures Follows(j, t, j.trace)
  {
    var s := j.system;
    assert PcOf(s, Handler) == s.h && PcOf(s, Activity) == s.a && PcOf(t, Handler) == t.h && PcOf(t, Activity) == t.a;
  }

  lemma ProceedsKeeps(j: Joint, action: Action)
    requires JInv(j) && CanProceed(j, action)
    ensures JInv(JStep(j, Proceeds(action)))
  {
    StepKeeps(j.system, action);
    StepGrows(j.system, action);
    if !action.Crash? { StepHolds(j.system, action); }
    Proceeded(j, Step(j.system, action));
    FollowKeeps(j, Step(j.system, action), j.trace);
  }

  /** No native ID is held twice, and none that was written is held: so every submission is fresh. */
  lemma SubmissionIsFresh(j: Joint, side: Side)
    requires JInv(j) && PcOf(j.system, TaskOf(side)).Sending? && side !in j.sent && StreamExists(j.system)
    ensures T.Fresh(StreamOf(j), T.Submit(PcOf(j.system, TaskOf(side)).delivery.nativeId))
  {
    var s, id := j.system, PcOf(j.system, TaskOf(side)).delivery.nativeId;
    assert PcOf(s, Handler) == s.h && PcOf(s, Activity) == s.a;
    assert id !in s.written;
  }

  lemma SubmitMoves(stream: T.Stream, id: nat)
    ensures var t := T.Step(stream, T.Submit(id));
      && (T.Accepting(t) <==> T.Accepting(stream)) && t.waiting <= stream.waiting + {id}
      && forall other :: T.Handed(other) in t.history <==> T.Handed(other) in stream.history
  {
  }

  lemma CallKeeps(j: Joint, side: Side)
    requires JInv(j) && PcOf(j.system, TaskOf(side)).Sending? && side !in j.sent && StreamExists(j.system)
    ensures JInv(j.(trace := j.trace + [T.Submit(PcOf(j.system, TaskOf(side)).delivery.nativeId)], sent := j.sent + {side}))
  {
    var id := PcOf(j.system, TaskOf(side)).delivery.nativeId;
    SubmissionIsFresh(j, side);
    FreshNext(j.trace, T.Submit(id));
    SubmitMoves(StreamOf(j), id);
    Called(j, side, T.Step(StreamOf(j), T.Submit(id)));
  }

  lemma CallsKeeps(j: Joint, side: Side)
    requires JInv(j)
    ensures JInv(JStep(j, Calls(side)))
  {
    if PcOf(j.system, TaskOf(side)).Sending? && side !in j.sent && StreamExists(j.system) { CallKeeps(j, side); }
  }

  lemma Called(j: Joint, side: Side, stream: T.Stream)
    requires StreamOk(j, StreamOf(j)) && HandedOk(j, StreamOf(j)) && PcOf(j.system, TaskOf(side)).Sending?
    requires T.Accepting(stream) <==> T.Accepting(StreamOf(j))
    requires stream.waiting <= StreamOf(j).waiting + {PcOf(j.system, TaskOf(side)).delivery.nativeId}
    requires forall other :: T.Handed(other) in stream.history <==> T.Handed(other) in StreamOf(j).history
    ensures var t := j.(sent := j.sent + {side}); StreamOk(t, stream) && HandedOk(t, stream)
  {
    var t := j.(sent := j.sent + {side});
    assert forall id :: Holds(j, id) ==> Holds(t, id);
    assert HoldsIt(t, side, PcOf(j.system, TaskOf(side)).delivery.nativeId);
  }

  lemma NativeMoves(j: Joint, event: T.Action)
    requires Inv(j.system) && T.FreshRun(j.trace) && StreamExists(j.system) && !event.Submit? && !event.Resume?
    requires StreamOpen(j.system) <==> T.Accepting(StreamOf(j))
    ensures var t, before := JStep(j, Native(event)), StreamOf(j);
      && Inv(t.system) && T.FreshRun(t.trace) && t.sent == j.sent && t.base == j.base && t.system.written == j.system.written
      && t.system.h == j.system.h && t.system.a == j.system.a && StreamExists(t.system)
      && (StreamOpen(t.system) <==> T.Accepting(StreamOf(t))) && (StreamOpen(t.system) ==> StreamOpen(j.system))
      && StreamOf(t) == T.Step(before, event)
  {
    NativeStep(StreamOf(j), event);
    FreshNext(j.trace, event);
    StreamClosesKeeps(j.system);
  }

  lemma Observed(j: Joint, t: Joint)
    requires StreamOk(j, StreamOf(j)) && HandedOk(j, StreamOf(j)) && StreamExists(j.system)
    requires t.sent == j.sent && t.base == j.base && t.system.written == j.system.written
    requires t.system.h == j.system.h && t.system.a == j.system.a
    requires (StreamOpen(t.system) <==> T.Accepting(StreamOf(t))) && (StreamOpen(t.system) ==> StreamOpen(j.system))
    requires StreamOf(t).waiting == StreamOf(j).waiting
    requires forall id :: T.Handed(id) in StreamOf(t).history <==> T.Handed(id) in StreamOf(j).history
    ensures StreamOk(t, StreamOf(t)) && HandedOk(t, StreamOf(t))
  {
    assert forall id :: Holds(j, id) ==> Holds(t, id);
  }

  lemma NativeKeeps(j: Joint, event: T.Action)
    requires JInv(j)
    ensures JInv(JStep(j, Native(event)))
  {
    if !event.Submit? && !event.Resume? && StreamExists(j.system) {
      NativeMoves(j, event);
      NativeStep(StreamOf(j), event);
      Observed(j, JStep(j, Native(event)));
    }
  }

  /** What a hand-off, or its failure, does to the runtime. */
  lemma SendMoves(s: System, side: Side, send: SendOutcome, nextRun: nat)
    requires IsOpen(s) && PcOf(s, TaskOf(side)).Sending? && (send.Refused? && StreamExists(s) ==> !StreamOpen(s))
    ensures var t, id := Step(s, SendAction(side, send, nextRun)), PcOf(s, TaskOf(side)).delivery.nativeId;
      && PcOf(t, OtherTask(side)) == PcOf(s, OtherTask(side))
      && (StreamOpen(t) ==> StreamOpen(s) && send.Wrote?) && (StreamExists(t) <==> StreamExists(s))
      && t.written == if (send.Wrote? && StreamOpen(s)) || send == Broke(true) then s.written + [id] else s.written
  {
    if side.HandlerSide? { HandlerSendMoves(s, send, nextRun); } else { ActivitySendMoves(s, send, nextRun); }
  }

  lemma HandlerSendMoves(s: System, send: SendOutcome, nextRun: nat)
    requires s.h.Sending? && (send.Refused? && StreamExists(s) ==> !StreamOpen(s))
    ensures var t := HandlerSendStep(s, send, nextRun);
      && t.a == s.a && (StreamOpen(t) ==> StreamOpen(s) && send.Wrote?) && (StreamExists(t) <==> StreamExists(s))
      && t.written == if (send.Wrote? && StreamOpen(s)) || send == Broke(true) then s.written + [s.h.delivery.nativeId] else s.written
  {
  }

  lemma ActivitySendMoves(s: System, send: SendOutcome, nextRun: nat)
    requires IsOpen(s) && s.a.Sending? && (send.Refused? && StreamExists(s) ==> !StreamOpen(s))
    ensures var t := ActivitySendStep(s, send, nextRun);
      && t.h == s.h && (StreamOpen(t) ==> StreamOpen(s) && send.Wrote?) && (StreamExists(t) <==> StreamExists(s))
      && t.written == if (send.Wrote? && StreamOpen(s)) || send == Broke(true) then s.written + [s.a.delivery.nativeId] else s.written
  {
  }

  predicate Hands(send: SendOutcome) {
    send.Wrote? || send == Broke(true)
  }

  lemma ResumedStream(j: Joint, side: Side, send: SendOutcome, id: nat)
    requires T.FreshRun(j.trace) && CanResolve(j, side, id, send)
    ensures var before, after := StreamOf(j), T.After(Resumed(j, side, id, send));
      && T.FreshRun(Resumed(j, side, id, send)) && (T.Accepting(after) <==> T.Accepting(before))
      && (if Hands(send) then after.waiting == before.waiting - {id} && after.history == before.history + [T.Handed(id)]
          else after.waiting <= before.waiting && after.history == before.history)
  {
    if side in j.sent && StreamExists(j.system) && send != Broke(false) { FreshNext(j.trace, T.Resume(id)); }
  }

  /** Whoever else waits to hand over an input still holds it. */
  lemma OthersStillHold(j: Joint, t: System, side: Side, waiting: set<nat>)
    requires StreamOk(j, StreamOf(j)) && StreamOpen(j.system) && PcOf(j.system, TaskOf(side)).Sending?
    requires PcOf(t, OtherTask(side)) == PcOf(j.system, OtherTask(side))
    requires waiting == StreamOf(j).waiting - {PcOf(j.system, TaskOf(side)).delivery.nativeId}
    ensures forall id :: id in waiting ==> Holds(j.(system := t), id)
  {
    var other := if side.HandlerSide? then ActivitySide else HandlerSide;
    forall id | id in waiting ensures Holds(j.(system := t), id) {
      assert Holds(j, id) && !HoldsIt(j, side, id);
      assert HoldsIt(j.(system := t), other, id);
    }
  }

  lemma ResolvesFollows(j: Joint, side: Side, send: SendOutcome, nextRun: nat)
    requires JInv(j) && IsOpen(j.system) && PcOf(j.system, TaskOf(side)).Sending?
    requires CanResolve(j, side, PcOf(j.system, TaskOf(side)).delivery.nativeId, send)
    ensures Follows(j, Step(j.system, SendAction(side, send, nextRun)), Resumed(j, side, PcOf(j.system, TaskOf(side)).delivery.nativeId, send))
  {
    var s, t, id := j.system, Step(j.system, SendAction(side, send, nextRun)), PcOf(j.system, TaskOf(side)).delivery.nativeId;
    var stream := T.After(Resumed(j, side, id, send));
    StepKeeps(s, SendAction(side, send, nextRun));
    SendMoves(s, side, send, nextRun);
    ResumedStream(j, side, send, id);
    if StreamExists(s) && StreamOpen(t) { OthersStillHold(j, t, side, stream.waiting); }
    HandsFollow(j, t, id, send, stream);
  }

  lemma HandsFollow(j: Joint, t: System, id: nat, send: SendOutcome, stream: T.Stream)
    requires HandedOk(j, StreamOf(j)) && (StreamExists(t) <==> StreamExists(j.system))
    requires t.written == if Hands(send) then j.system.written + [id] else j.system.written
    requires stream.history == if Hands(send) then StreamOf(j).history + [T.Handed(id)] else StreamOf(j).history
    ensures forall other :: T.Handed(other) in stream.history ==> other in t.written
    ensures StreamExists(j.system) && StreamExists(t) ==> HandedSince(j.base, t.written, stream)
  {
  }

  lemma ResolveKeeps(j: Joint, side: Side, send: SendOutcome, nextRun: nat)
    requires JInv(j) && IsOpen(j.system) && PcOf(j.system, TaskOf(side)).Sending?
    requires CanResolve(j, side, PcOf(j.system, TaskOf(side)).delivery.nativeId, send)
    ensures var id := PcOf(j.system, TaskOf(side)).delivery.nativeId;
      JInv(Follow(j, Step(j.system, SendAction(side, send, nextRun)), Resumed(j, side, id, send)))
  {
    ResolvesFollows(j, side, send, nextRun);
    FollowKeeps(j, Step(j.system, SendAction(side, send, nextRun)), Resumed(j, side, PcOf(j.system, TaskOf(side)).delivery.nativeId, send));
  }

  lemma ResolvesIs(j: Joint, side: Side, send: SendOutcome, nextRun: nat)
    requires IsOpen(j.system) && PcOf(j.system, TaskOf(side)).Sending?
    requires CanResolve(j, side, PcOf(j.system, TaskOf(side)).delivery.nativeId, send)
    ensures var id := PcOf(j.system, TaskOf(side)).delivery.nativeId;
      JStep(j, Resolves(side, send, nextRun)) == Follow(j, Step(j.system, SendAction(side, send, nextRun)), Resumed(j, side, id, send))
  {
  }

  lemma ResolvesKeeps(j: Joint, side: Side, send: SendOutcome, nextRun: nat)
    requires JInv(j)
    ensures JInv(JStep(j, Resolves(side, send, nextRun)))
  {
    var pc := PcOf(j.system, TaskOf(side));
    if pc.Sending? && IsOpen(j.system) && CanResolve(j, side, pc.delivery.nativeId, send) {
      ResolvesIs(j, side, send, nextRun);
      ResolveKeeps(j, side, send, nextRun);
    } else {
      assert JStep(j, Resolves(side, send, nextRun)) == j;
    }
  }

  lemma {:induction false} JRunInv(actions: seq<JointAction>)
    ensures JInv(JAfter(actions))
  {
    if actions == [] {
      RunInv([]);
      Made(true);
    } else {
      var j, action := JAfter(actions[..|actions| - 1]), actions[|actions| - 1];
      JRunInv(actions[..|actions| - 1]);
      match action
      case Proceeds(a) => if CanProceed(j, a) { ProceedsKeeps(j, a); }
      case Calls(side) => CallsKeeps(j, side);
      case Resolves(side, send, nextRun) => ResolvesKeeps(j, side, send, nextRun);
      case Native(event) => NativeKeeps(j, event);
    }
  }

  // --------------------------------------------------- a run under way has a stream

  /** The activity has made its first delivery durable, and its run is not over. */
  predicate Underway(pc: Pc) {
    || pc.Sending? || pc.Looping? || pc.Draining? || (pc.Publishing? && pc.next.ThenLoop?)
    || (Commits(pc) && (pc.op.ClaimInput? || pc.op.ReleaseInput?))
  }

  ghost predicate Streams(s: System) {
    Underway(s.a) ==> StreamExists(s)
  }

  lemma HandlerStreams(s: System, action: Action)
    requires Streams(s) && HandlerAction(action) && !action.HandlerSend?
    ensures Streams(Step(s, action))
  {
    HandlerHolds(s, action);
    if action.HandlerCancel? || action.HandlerReset? { ControlStreams(s, action); }
  }

  lemma ControlStreams(s: System, action: Action)
    requires Streams(s) && (action.HandlerCancel? || action.HandlerReset?)
    ensures Streams(Step(s, action))
  {
  }

  lemma ActivityStreams(s: System, action: Action)
    requires Streams(s) && ActivityKinds(s) && ActivityAction(action) && !action.ActivitySend?
    ensures Streams(Step(s, action))
  {
  }

  lemma SendStreams(s: System, send: SendOutcome, nextRun: nat)
    requires Streams(s)
    ensures Streams(HandlerSendStep(s, send, nextRun)) && Streams(ActivitySendStep(s, send, nextRun))
  {
  }

  lemma OthersStream(s: System, action: Action)
    requires Streams(s) && Between(action) && !HandlerAction(action) && !ActivityAction(action)
    ensures Streams(Step(s, action))
  {
  }

  lemma FailStreams(s: System, task: Task, op: Op)
    requires task.Activity? || Streams(s)
    ensures Streams(Fail(s, task, op))
  {
  }

  lemma DoneStreams(s: System, task: Task, op: Op, attempted: bool)
    requires Streams(s) || (task.Activity? && op.StartFirst?)
    requires task.Activity? ==> s.active.Some? && (op.ClaimInput? || op.ReleaseInput? ==> StreamExists(s))
    ensures Streams(Done(s, task, op, attempted))
  {
  }

  lemma BeginOpStreams(s: System, task: Task, op: Op, nativeId: nat, accepting: bool)
    requires Streams(s) && PcOf(s, task) == Queued(op)
    ensures Streams(BeginOp(s, task, op, nativeId, accepting))
  {
    var body := if IsOpen(s) then Mutate(op, s.core.store.current.value, nativeId, accepting) else None;
    if CanWrite(s, body, EventsOf(op)) {
      WritesFor(s, task, op, body, nativeId, accepting);
    } else {
      FailStreams(s, task, op);
      assert BeginOp(s, task, op, nativeId, accepting) == Fail(s, task, op);
    }
  }

  lemma WritesFor(s: System, task: Task, op: Op, body: Option<Body>, nativeId: nat, accepting: bool)
    requires PcOf(s, task) == Queued(op) && CanWrite(s, body, EventsOf(op))
    requires body == if IsOpen(s) then Mutate(op, s.core.store.current.value, nativeId, accepting) else None
    ensures var t := BeginOp(s, task, op, nativeId, accepting);
      t.active == s.active && (t.a == s.a || (s.a.Queued? && t.a.Writing? && t.a.op == s.a.op))
  {
  }

  lemma BeginStreams(s: System, nativeId: nat, accepting: bool)
    requires Streams(s)
    ensures Streams(BeginHeadStep(s, nativeId, accepting))
  {
    if s.queue != [] {
      var base, task := s.(queue := s.queue[1..]), s.queue[0];
      if task.Publisher? { FailStreams(base, Publisher, MarkRun(0)); }
      else if PcOf(s, task).Queued? { BeginOpStreams(base, task, PcOf(s, task).op, nativeId, accepting); }
    }
  }

  lemma FinishStreams(s: System, write: S.WriteOutcome)
    requires Inv(s) && Streams(s)
    ensures Streams(FinishWriteStep(s, write))
  {
    if s.writer.Some? && PcOf(s, s.writer.value).Writing? {
      var base, task := s.(core := S.Step(s.core, S.Finish(write)), writer := None), s.writer.value;
      assert Streams(base);
      FailStreams(base, task, PcOf(s, task).op);
      DoneStreams(base, task, PcOf(s, task).op, PcOf(s, task).attempted);
    }
  }

  lemma StepStreams(s: System, action: Action)
    requires Inv(s) && Streams(s)
    ensures Streams(Step(s, action))
  {
    if action.Crash? { }
    else if action.BeginHead? { BeginStreams(s, action.nativeId, action.accepting); }
    else if action.FinishWrite? { FinishStreams(s, action.write); }
    else if action.HandlerSend? || action.ActivitySend? { SendStreams(s, action.send, action.nextRun); }
    else if HandlerAction(action) { HandlerStreams(s, action); }
    else if ActivityAction(action) { ActivityStreams(s, action); }
    else { OthersStream(s, action); }
  }

  lemma {:induction false} RunStreams(actions: seq<Action>)
    ensures Streams(After(actions))
  {
    if actions != [] {
      RunInv(actions[..|actions| - 1]);
      RunStreams(actions[..|actions| - 1]);
      StepStreams(After(actions[..|actions| - 1]), actions[|actions| - 1]);
    }
  }

  // ------------------------------------------------------------------ theorems

  function RuntimeStep(action: JointAction): Action {
    match action
    case Proceeds(a) => a
    case Resolves(side, send, nextRun) => SendAction(side, send, nextRun)
    case _ => StreamCloses
  }

  lemma StepsAsRuntime(j: Joint, action: JointAction)
    ensures var t := JStep(j, action).system; t == j.system || t == Step(j.system, RuntimeStep(action))
  {
  }

  /** The joint system does nothing that the runtime alone could not do. */
  lemma {:induction false} IsRuntimeRun(actions: seq<JointAction>) returns (run: seq<Action>)
    ensures After(run) == JAfter(actions).system
  {
    run := [];
    if actions != [] {
      var j, action := JAfter(actions[..|actions| - 1]), actions[|actions| - 1];
      run := IsRuntimeRun(actions[..|actions| - 1]);
      StepsAsRuntime(j, action);
      if JAfter(actions).system != j.system {
        AfterAppend(run, RuntimeStep(action));
        run := run + [RuntimeStep(action)];
      }
    }
  }

  /** The runtime never submits an input twice to a stream, so what `ClaudeStream` proves holds of every stream it drives. */
  lemma StreamsAreFresh(actions: seq<JointAction>)
    ensures T.FreshRun(JAfter(actions).trace)
  {
    JRunInv(actions);
  }

  /** While a run is under way, the runtime takes its stream to be open exactly when it accepts input. */
  lemma RuntimeKnowsItsStream(actions: seq<JointAction>)
    requires Underway(JAfter(actions).system.a)
    ensures StreamExists(JAfter(actions).system)
    ensures StreamOpen(JAfter(actions).system) <==> T.Accepting(StreamOf(JAfter(actions)))
  {
    JRunInv(actions);
    var run := IsRuntimeRun(actions);
    RunStreams(run);
  }

  /**
   When the runtime sees a run end without an error, every input written during the run, by whichever
   task, was handed to its stream, echoed after that submission, and covered by a later result.
   */
  lemma SuccessCoversEveryWrittenInput(actions: seq<JointAction>, k: nat)
    requires var j := JAfter(actions);
      && j.system.a.Draining? && CanProceed(j, ActivityDrained(true)) && j.base <= k < |j.system.written|
    ensures var j := JAfter(actions); T.Covered(StreamOf(j).history, j.system.written[k])
  {
    var j := JAfter(actions);
    JRunInv(actions);
    RuntimeKnowsItsStream(actions);
    T.SuccessCoversEveryInput(j.trace, true, false, j.system.written[k]);
  }
}
