/** Every step of the runtime keeps its invariant. */
module ClaudeRuntimeSteps {
  import opened Wrappers
  import opened ClaudeState
  import opened ClaudeCallbacks
  import opened ClaudeCallbackFacts
  import opened ClaudeRuntime
  import opened ClaudeRuntimeInvariant
  import opened ClaudeRuntimeFrames

  // ------------------------------------------------------------ handler steps

  /** The handler moves to a point where it holds no commit and no hand-off. */
  lemma HandlerMoves(s: System, t: System)
    requires Inv(s) && IsOpen(s) && t == s.(h := t.h, active := t.active)
    requires !Commits(s.h) && !Commits(t.h) && !t.h.Sending? && Kinds(t)
    ensures Inv(t)
  {
    FrameBodies(s, t);
    FrameChain(s, t);
    FrameWrites(s, t);
    FrameClaims(s, t);
    HandlerKnowsNothing(t);
    FrameActivityKnows(s, t);
  }

  lemma HandlerEnqueues(s: System, op: Op)
    requires Inv(s) && IsOpen(s) && !Commits(s.h)
    requires var t := Enqueue(s, Handler, op); Kinds(t) && HandlerKnows(t) && ClaimOf(t.h) <= ClaimOf(s.h)
    ensures Inv(Enqueue(s, Handler, op))
  {
    var t := Enqueue(s, Handler, op);
    FrameBodies(s, t);
    EnqueueChain(s, Handler, op);
    FrameWrites(s, t);
    FrameClaims(s, t);
    EnqueueOrder(s, Handler, op);
    FrameActivityKnows(s, t);
  }

  lemma HandlerStartKeeps(s: System)
    requires Inv(s)
    ensures HandlerFree(s) ==> Inv(s.(h := Publishing(ThenStart)))
  {
    if HandlerFree(s) { HandlerMoves(s, s.(h := Publishing(ThenStart))); }
  }

  lemma HandlerAdmitKeeps(s: System, id: string, text: string, run: nat, settings: nat, fingerprint: nat)
    requires Inv(s)
    ensures Inv(HandlerAdmitStep(s, id, text, run, settings, fingerprint))
  {
    var t := HandlerAdmitStep(s, id, text, run, settings, fingerprint);
    if t != s {
      HandlerEnqueues(s, t.h.op);
    }
  }

  lemma HandlerRetryKeeps(s: System, id: string, fingerprint: nat)
    requires Inv(s)
    ensures Inv(HandlerRetryStep(s, id, fingerprint))
  {
    var t := HandlerRetryStep(s, id, fingerprint);
    if t != s { HandlerMoves(s, t); }
  }

  lemma ReplayKeeps(s: System, previous: Control, key: string)
    requires Inv(s) && HandlerFree(s)
    ensures Inv(ReplayControl(s, previous, key))
  {
    if previous.fingerprint == key { HandlerMoves(s, ReplayControl(s, previous, key)); }
  }

  /** The first input of a run that has not started belongs to the live run, so it is never cancelled as dormant. */
  lemma FirstIsLive(s: System)
    requires Inv(s) && IsOpen(s) && Prestart(s.a)
    ensures var i := FindId(Current(s).messages, FirstOf(s.a).id);
            s.active.Some? && i.Some? && InRun(Current(s).messages[i.value], s.active.value.id)
  {
    var d, b := FirstOf(s.a), Current(s);
    var k :| 0 <= k < |b.messages| && b.messages[k].id == d.id && b.messages[k].nativeId == d.nativeId
             && b.messages[k].runId == d.run && b.messages[k].status == Accepted;
    assert Distinct(b);
    assert FindId(b.messages, d.id).value == k;
  }

  /** The commit of a cancel; a dormant input it takes is not the first one of a run that has not started. */
  lemma CancelCommits(s: System, message: nat, id: Option<string>)
    requires Inv(s) && HandlerFree(s) && FindControl(Current(s).controls, message).None? && HandlerCancelStep(s, message, id) != s
    ensures var t := HandlerCancelStep(s, message, id);
            t.h.Queued? && t.h.op.CancelControl? && t == Enqueue(s, Handler, t.h.op)
            && (Prestart(s.a) && t.h.op.dormant.Some? ==> t.h.op.dormant.value != FirstOf(s.a).id)
  {
    if Prestart(s.a) { FirstIsLive(s); }
  }

  lemma CancelEnqueues(s: System, op: Op)
    requires Inv(s) && HandlerFree(s) && op.CancelControl?
    requires Prestart(s.a) && op.dormant.Some? ==> op.dormant.value != FirstOf(s.a).id
    ensures Inv(Enqueue(s, Handler, op))
  {
    HandlerEnqueues(s, op);
  }

  lemma HandlerCancelKeeps(s: System, message: nat, id: Option<string>)
    requires Inv(s)
    ensures Inv(HandlerCancelStep(s, message, id))
  {
    var t := HandlerCancelStep(s, message, id);
    if HandlerFree(s) {
      var previous := FindControl(Current(s).controls, message);
      if previous.Some? {
        ReplayKeeps(s, previous.value, "cancel" + if id.Some? then ":" + id.value else "");
      } else if t != s {
        CancelCommits(s, message, id);
        CancelEnqueues(s, t.h.op);
      }
    }
  }

  lemma HandlerResetKeeps(s: System, message: nat, conversationId: nat)
    requires Inv(s)
    ensures Inv(HandlerResetStep(s, message, conversationId))
  {
    var t := HandlerResetStep(s, message, conversationId);
    if HandlerFree(s) {
      var previous := FindControl(Current(s).controls, message);
      if previous.Some? {
        ReplayKeeps(s, previous.value, "reset");
      } else if t != s {
        HandlerEnqueues(s, t.h.op);
      }
    }
  }

  lemma HandlerReadyKeeps(s: System, ok: bool)
    requires Inv(s)
    ensures Inv(HandlerReadyStep(s, ok))
  {
    var t := HandlerReadyStep(s, ok);
    if t.h.Idle? && s.h.AwaitReady? {
      HandlerMoves(s, t);
    } else if t.h.Queued? && s.h.AwaitReady? {
      var d, b := t.h.op.delivery, Current(s);
      assert Matches(b, d.id, d.nativeId);
      HandlerEnqueues(s, t.h.op);
    }
  }

  lemma Launches(s: System, t: System)
    requires Inv(s) && IsOpen(s) && s.h.Idle? && s.a.Idle? && s.active.None? && t == s.(active := t.active, a := t.a)
    requires t.a.Launched? && HasFirst(Current(s), t.a.delivery) && Kinds(t)
    ensures Inv(t)
  {
    FrameBodies(s, t);
    FrameChain(s, t);
    FrameWrites(s, t);
    FrameClaims(s, t);
    HandlerKnowsNothing(t);
    LaunchKnows(s, t);
  }

  /** `start` takes an accepted input: the activity now relies on it, and nobody else holds its native ID. */
  lemma StartNextKeeps(s: System)
    requires Inv(s) && IsOpen(s) && s.initialised && s.h.Publishing?
    ensures Inv(StartNext(s))
  {
    var t, middle := StartNext(s), s.(h := Idle);
    HandlerMoves(s, middle);
    if t.a.Launched? && s.a.Idle? { Launches(middle, t); }
  }

  lemma LaunchKnows(s: System, t: System)
    requires Inv(s) && IsOpen(s) && s.a.Idle? && t.core == s.core && t.a.Launched? && t.writer == s.writer && t.queue == s.queue && t.h == s.h == Idle
    requires HasFirst(Current(s), t.a.delivery)
    ensures ActivityKnows(t)
  {
    if s.writer.Some? && s.core.store.writing.Some? && !s.writer.value.Activity? {
      var d, b, next := t.a.delivery, Current(s), s.core.store.writing.value.body;
      BystanderWrite(s);
      var k :| 0 <= k < |b.messages| && b.messages[k].id == d.id && b.messages[k].nativeId == d.nativeId
             && b.messages[k].runId == d.run && b.messages[k].status == Accepted;
      assert next.messages[k] == b.messages[k];
    }
  }

  /** A write by the observers, the cancel hook or the publisher leaves accepted inputs alone. */
  lemma BystanderWrite(s: System)
    requires Inv(s) && IsOpen(s) && s.writer.Some? && !s.writer.value.Activity? && !s.writer.value.Handler?
    ensures var b, next := Current(s), s.core.store.writing.value.body;
            && SameInputs(b, next) && NoNewAccepted(b, next) && NoNewTerminalLoss(b, next)
            && (forall i :: 0 <= i < |b.messages| && b.messages[i].status == Accepted ==> next.messages[i] == b.messages[i])
  {
    var b := Current(s);
    var pc := PcOf(s, s.writer.value);
    if !s.writer.value.Publisher? && pc.op.ObserveBatch? {
      ObserveFit(b, pc.op.run, pc.op.batch, pc.accepting, Blocked(s), s.used, s.log);
      forall i | 0 <= i < |b.messages| && b.messages[i].status == Accepted
        ensures s.core.store.writing.value.body.messages[i] == b.messages[i]
      {
        ObserveKeepsAccepted(b, pc.op.run, pc.op.batch, pc.accepting, i);
      }
    }
  }

  predicate ResumeStarts(s: System, ok: bool) {
    ok && s.h.Publishing? && (s.h.next.ThenStart? || (s.h.next.ThenRetry? && s.active.None?))
  }

  lemma ResumeMoves(s: System, ok: bool)
    requires Inv(s) && IsOpen(s) && s.h.Publishing? && !ResumeStarts(s, ok)
    ensures Inv(HandlerResumeStep(s, ok))
  {
    var t := HandlerResumeStep(s, ok);
    assert t == s.(h := t.h) && (t.h.Idle? || t.h.AwaitReady?);
    HandlerMoves(s, t);
  }

  lemma HandlerResumeKeeps(s: System, ok: bool)
    requires Inv(s)
    ensures Inv(HandlerResumeStep(s, ok))
  {
    var t := HandlerResumeStep(s, ok);
    if IsOpen(s) && s.h.Publishing? {
      if ResumeStarts(s, ok) {
        assert t == StartNext(s);
        StartNextKeeps(s);
      } else {
        ResumeMoves(s, ok);
      }
    }
  }

  lemma HandlerHandsOff(s: System, t: System)
    requires Inv(s) && s.h.Sending? && t == s.(h := t.h, active := t.active, written := t.written)
    requires (t.h.Idle? || t.h.Publishing?) && Kinds(t)
    requires t.written == s.written || t.written == s.written + [s.h.delivery.nativeId]
    ensures Inv(t)
  {
    HandOff(s, t);
    FrameBodies(s, t);
    FrameChain(s, t);
    FrameWrites(s, t);
    HandlerKnowsNothing(t);
    FrameActivityKnows(s, t);
  }

  lemma HandlerSendKeeps(s: System, send: SendOutcome, nextRun: nat)
    requires Inv(s)
    ensures Inv(HandlerSendStep(s, send, nextRun))
  {
    var t := HandlerSendStep(s, send, nextRun);
    if t != s {
      if send.Refused? {
        HandlerEnqueues(s, t.h.op);
      } else {
        HandlerHandsOff(s, t);
      }
    }
  }

  /** A claimed native ID is written, or given up: it is never claimed again. */
  lemma HandOff(s: System, t: System)
    requires Claims(s) && t.used == s.used && t.foreign == s.foreign && t.o == s.o && t.t == s.t
    requires ClaimOf(t.h) <= ClaimOf(s.h) && ClaimOf(t.a) <= ClaimOf(s.a)
    requires t.written == s.written
             || exists n :: t.written == s.written + [n] && n in ClaimOf(s.h) + ClaimOf(s.a) && n !in ClaimOf(t.h) + ClaimOf(t.a)
    ensures Claims(t) && Blocked(t) <= Blocked(s)
  {
    if t.written != s.written {
      var n :| t.written == s.written + [n] && n in ClaimOf(s.h) + ClaimOf(s.a) && n !in ClaimOf(t.h) + ClaimOf(t.a);
    }
  }

  // ----------------------------------------------------------- activity steps

  lemma ActivityKnowsNothing(t: System)
    requires IsOpen(t) && !Prestart(t.a) && !Commits(t.a) && !(t.a.Sending? && !t.a.first)
    ensures ActivityKnows(t)
  {
  }

  /** The activity moves to a point where it relies on no input. */
  lemma ActivityMoves(s: System, t: System)
    requires Inv(s) && IsOpen(s) && t == s.(a := t.a, active := t.active, rest := t.rest, written := t.written)
    requires !Commits(s.a) && !Commits(t.a) && !s.a.Idle? && !t.a.Launched? && !t.a.Sending? && Kinds(t)
    requires t.written == s.written || (s.a.Sending? && t.written == s.written + [s.a.delivery.nativeId])
    ensures Inv(t)
  {
    HandOff(s, t);
    FrameBodies(s, t);
    FrameChain(s, t);
    FrameWrites(s, t);
    FrameHandlerKnows(s, t);
    ActivityKnowsNothing(t);
  }

  lemma ActivityEnqueues(s: System, op: Op)
    requires Inv(s) && IsOpen(s) && !Commits(s.a)
    requires var t := Enqueue(s, Activity, op);
             Kinds(t) && HandlerKnows(t) && ActivityKnows(t) && ClaimOf(t.a) <= ClaimOf(s.a)
    ensures Inv(Enqueue(s, Activity, op))
  {
    var t := Enqueue(s, Activity, op);
    FrameBodies(s, t);
    EnqueueChain(s, Activity, op);
    FrameWrites(s, t);
    FrameClaims(s, t);
  }

  /** The activity joins the chain behind the handler, if the handler waits there. */
  lemma ActivityJoins(s: System, op: Op)
    requires Chain(s) && s.h.Queued?
    ensures HandlerAhead(Enqueue(s, Activity, op))
  {
    var t := Enqueue(s, Activity, op);
    assert PcOf(s, Handler).Queued? && Handler in s.queue;
    var i :| 0 <= i < |s.queue| && s.queue[i] == Handler;
    assert t.queue[i] == Handler && t.queue[|s.queue|] == Activity;
  }

  lemma ActivitySkippedKeeps(s: System)
    requires Inv(s)
    ensures s.a.Launched? ==> Inv(s.(a := Closing))
  {
    if s.a.Launched? { ActivityMoves(s, s.(a := Closing)); }
  }

  lemma ActivityLaunchKeeps(s: System)
    requires Inv(s)
    ensures Inv(ActivityLaunchStep(s))
  {
    var t := ActivityLaunchStep(s);
    if s.a.Launched? && s.active.Some? {
      if s.active.value.aborted {
        ActivityMoves(s, t);
      } else {
        ActivityEnqueues(s, StartFirst(s.a.delivery));
      }
    }
  }

  /** Every callback of the handler but the admission changes inputs in place. */
  lemma HandlerOpWrites(op: Op, state: State, nativeId: nat, accepting: bool)
    requires HandlerOp(op) && !op.AdmitInput? && Mutate(op, state, nativeId, accepting).Some?
    ensures SameInputs(state.body, Mutate(op, state, nativeId, accepting).value)
  {
  }

  function Admitted(op: Op, nativeId: nat): Input
    requires op.AdmitInput?
  {
    Input(op.id, op.text, nativeId, op.run, Accepted, Some(op.settings), op.fingerprint, "")
  }

  /** What a write by the handler makes of the inputs in memory. */
  lemma HandlerWrite(s: System)
    requires IsOpen(s) && s.writer == Some(Handler) && s.core.store.writing.Some? && Writes(s) && Kinds(s) && HandlerKnows(s)
    ensures var b, next := Current(s), s.core.store.writing.value.body;
            if s.h.op.AdmitInput? then next == Admit(b, Admitted(s.h.op, s.h.nativeId)) && NoInput(b, s.h.op.id)
            else SameInputs(b, next)
  {
    assert PcOf(s, Handler) == s.h;
    if !s.h.op.AdmitInput? {
      HandlerOpWrites(s.h.op, s.core.store.current.value, s.h.nativeId, s.h.accepting);
    }
  }

  lemma AdmitMatches(b: Body, input: Input, id: string, nativeId: nat)
    requires input.id != id && Matches(b, id, nativeId)
    ensures Matches(Admit(b, input), id, nativeId)
  {
    assert forall m :: m in Evict(b.messages) ==> m in b.messages;
  }

  /** An input found in memory is still the only one under its ID in whatever is being written. */
  lemma WriteMatches(s: System, id: string, nativeId: nat)
    requires Inv(s) && IsOpen(s) && s.writer.Some? && !s.writer.value.Activity?
    requires Matches(Current(s), id, nativeId) && !NoInput(Current(s), id)
    ensures Matches(s.core.store.writing.value.body, id, nativeId)
  {
    var b, next := Current(s), s.core.store.writing.value.body;
    if s.writer.value.Handler? {
      HandlerWrite(s);
      if s.h.op.AdmitInput? {
        AdmitMatches(b, Admitted(s.h.op, s.h.nativeId), id, nativeId);
      } else {
        SameInputsKeep(b, next, id, nativeId);
      }
    } else {
      BystanderWrite(s);
      SameInputsKeep(b, next, id, nativeId);
    }
  }

  lemma ActivityClaims(s: System, d: Delivery)
    requires Inv(s) && IsOpen(s) && s.a.Looping?
    requires Matches(Current(s), d.id, d.nativeId) && !NoInput(Current(s), d.id)
    ensures Inv(Enqueue(s, Activity, ClaimInput(d)))
  {
    var t := Enqueue(s, Activity, ClaimInput(d));
    if s.h.Queued? { ActivityJoins(s, ClaimInput(d)); }
    if s.writer.Some? && !s.writer.value.Activity? { WriteMatches(s, d.id, d.nativeId); }
    assert HandlerKnows(t);
    assert ActivityKnows(t);
    ActivityEnqueues(s, ClaimInput(d));
  }

  lemma ActivityTakes(s: System, id: string)
    requires Inv(s) && IsOpen(s) && s.a.Looping? && s.active.Some?
    ensures match FindId(Current(s).messages, id)
            case None => Inv(s.(a := Settling(true)))
            case Some(i) =>
              var m := Current(s).messages[i];
              m.status == Accepted ==> Inv(Enqueue(s, Activity, ClaimInput(Delivery(s.active.value.id, id, m.nativeId, s.active.value.settings))))
  {
    var found := FindId(Current(s).messages, id);
    if found.None? {
      ActivityMoves(s, s.(a := Settling(true)));
    } else if Current(s).messages[found.value].status == Accepted {
      var m := Current(s).messages[found.value];
      assert Distinct(Current(s)) && m.id == id;
      ActivityClaims(s, Delivery(s.active.value.id, id, m.nativeId, s.active.value.settings));
    }
  }

  lemma ActivityNextKeeps(s: System)
    requires Inv(s)
    ensures Inv(ActivityNextStep(s))
  {
    if s.a.Looping? && IsOpen(s) && s.active.Some? {
      if s.rest == [] {
        ActivityMoves(s, s.(a := Draining));
      } else {
        var middle := s.(rest := s.rest[1..]);
        ActivityMoves(s, middle);
        ActivityTakes(middle, s.rest[0]);
      }
    }
  }

  lemma ActivityReleases(s: System, nextRun: nat)
    requires Inv(s) && IsOpen(s) && s.a.Sending? && !s.a.first && !StreamOpen(s)
    ensures Inv(ActivitySendStep(s, Refused, nextRun))
  {
    var op := ReleaseInput(s.a.delivery, nextRun);
    var t := Enqueue(s, Activity, op);
    assert HandlerKnows(t);
    assert ActivityKnows(t);
    ActivityEnqueues(s, op);
  }

  lemma ActivityWrote(s: System, nextRun: nat)
    requires Inv(s) && IsOpen(s) && s.a.Sending? && StreamOpen(s)
    ensures Inv(ActivitySendStep(s, Wrote, nextRun))
  {
    ActivityMoves(s, ActivitySendStep(s, Wrote, nextRun));
  }

  lemma ActivityFails(s: System, send: SendOutcome, nextRun: nat)
    requires Inv(s) && IsOpen(s) && s.a.Sending? && (send.Broke? || (send.Refused? && s.a.first && !StreamOpen(s)))
    ensures Inv(ActivitySendStep(s, send, nextRun))
  {
    ActivityMoves(s, ActivitySendStep(s, send, nextRun));
  }

  lemma ActivitySendKeeps(s: System, send: SendOutcome, nextRun: nat)
    requires Inv(s)
    ensures Inv(ActivitySendStep(s, send, nextRun))
  {
    if !s.a.Sending? || !IsOpen(s) || (StreamOpen(s) && send.Refused?) || (!StreamOpen(s) && send.Wrote?) {
      assert ActivitySendStep(s, send, nextRun) == s;
    } else if send.Refused? && !s.a.first {
      ActivityReleases(s, nextRun);
    } else if send.Wrote? {
      ActivityWrote(s, nextRun);
    } else {
      ActivityFails(s, send, nextRun);
    }
  }

  lemma ActivityResumeKeeps(s: System, ok: bool)
    requires Inv(s)
    ensures Inv(ActivityResumeStep(s, ok))
  {
    if s.a.Publishing? { ActivityMoves(s, ActivityResumeStep(s, ok)); }
  }

  lemma ActivityDrainedKeeps(s: System, ok: bool)
    requires Inv(s)
    ensures Inv(ActivityDrainedStep(s, ok))
  {
    if s.a.Draining? { ActivityMoves(s, ActivityDrainedStep(s, ok)); }
  }

  lemma ActivityFinalises(s: System, op: Op)
    requires Inv(s) && IsOpen(s) && s.a.Settling? && op.FinaliseRun?
    ensures Inv(Enqueue(s, Activity, op))
  {
    var t := Enqueue(s, Activity, op);
    FrameHandlerKnows(s, t);
    assert ActivityKnows(t);
    ActivityEnqueues(s, op);
  }

  lemma ActivitySettleKeeps(s: System, outcome: Outcome, code: string)
    requires Inv(s)
    ensures Inv(ActivitySettleStep(s, outcome, code))
  {
    var t := ActivitySettleStep(s, outcome, code);
    if s.a.Settling? && t.a.Queued? {
      var middle := s.(active := t.active);
      ActivityMoves(s, middle);
      assert t == Enqueue(middle, Activity, t.a.op);
      ActivityFinalises(middle, t.a.op);
    }
  }

  lemma ActivityClosedKeeps(s: System)
    requires Inv(s)
    ensures s.a.Closing? ==> Inv(s.(a := Idle))
  {
    if s.a.Closing? { ActivityMoves(s, s.(a := Idle)); }
  }

  /** Closing the stream changes nothing that any part of the invariant looks at. */
  lemma StreamClosesKinds(s: System)
    requires Kinds(s)
    ensures Kinds(Close(s))
  {
  }

  lemma StreamClosesKeeps(s: System)
    requires Inv(s)
    ensures Inv(Close(s))
  {
    var t := Close(s);
    StreamClosesKinds(s);
    FrameBodies(s, t);
    FrameChain(s, t);
    FrameWrites(s, t);
    FrameClaims(s, t);
    if IsOpen(s) {
      FrameHandlerKnows(s, t);
      FrameActivityKnows(s, t);
    }
  }
}
