/**
 An admission keeps its place. It is accepted only with a free place or with a finished input to evict.
 A finished input becomes unfinished only when it is given back, which needs a closed stream; and while
 a run's stream is closed no admission is accepted, and what is given back later queues behind it.
 */
module ClaudePlaces {
  import opened Wrappers
  import opened ClaudeState
  import opened ClaudeCallbacks
  import opened ClaudeCallbackFacts
  import opened ClaudeRuntime
  import opened ClaudeRuntimeInvariant
  import opened ClaudeRuntimeSteps
  import opened ClaudeRuntimeWrites
  import opened ClaudeRuntimeTheorems
  import opened ClaudeFinality
  import opened ClaudeRevival
  import opened ClaudeDelivery
  import S = ClaudeStore

  /** A free place, or a finished input to evict. */
  predicate HasPlace(b: Body) {
    |b.messages| < MAX_MESSAGES || FindTerminal(b.messages).Some?
  }

  predicate Admitting(pc: Pc) {
    Commits(pc) && pc.op.AdmitInput?
  }

  predicate Releasing(pc: Pc) {
    Commits(pc) && pc.op.ReleaseInput?
  }

  /** The activity gives an input back before the handler's commit runs. */
  ghost predicate ReleaseAhead(s: System) {
    Releasing(s.a) && (s.a.Writing? || Earlier(s.queue, Activity, Handler))
  }

  ghost predicate Placed(s: System) {
    && (Releasing(s.a) ==> !StreamOpen(s))
    && (Admitting(s.h) ==> !ReleaseAhead(s) && IsOpen(s) && HasPlace(Current(s)))
  }

  // --------------------------------------------------- giving back needs a closed stream

  lemma HandlerKeepsReleasing(s: System, action: Action)
    requires HandlerAction(action) && Releasing(Step(s, action).a)
    ensures Step(s, action).a == s.a
  {
    if action.HandlerCancel? || action.HandlerReset? { ControlKeepsReleasing(s, action); }
  }

  lemma ControlKeepsReleasing(s: System, action: Action)
    requires (action.HandlerCancel? || action.HandlerReset?) && Releasing(Step(s, action).a)
    ensures Step(s, action).a == s.a
  {
  }

  lemma ActivityKeepsReleasing(s: System, action: Action)
    requires ActivityAction(action) && Releasing(Step(s, action).a)
    ensures Step(s, action) == s || (action.ActivitySend? && !StreamOpen(s) && !StreamOpen(Step(s, action)))
  {
    if action.ActivitySend? { SendKeepsReleasing(s, action.send, action.nextRun); }
  }

  lemma SendKeepsReleasing(s: System, send: SendOutcome, nextRun: nat)
    requires Releasing(ActivitySendStep(s, send, nextRun).a)
    ensures ActivitySendStep(s, send, nextRun) == s || (!StreamOpen(s) && !StreamOpen(ActivitySendStep(s, send, nextRun)))
  {
  }

  lemma OthersKeepReleasing(s: System, action: Action)
    requires Between(action) && !HandlerAction(action) && !ActivityAction(action)
    ensures Step(s, action).a == s.a
  {
  }

  lemma ChainKeepsReleasing(s: System, action: Action)
    requires Inv(s) && (action.BeginHead? || action.FinishWrite?) && Releasing(Step(s, action).a)
    ensures Releasing(s.a)
  {
    var t := Step(s, action);
    assert PcOf(s, Activity) == s.a && PcOf(t, Activity) == t.a;
    if action.BeginHead? { BeginPcs(s, action.nativeId, action.accepting); } else { FinishPcs(s, action.write); }
  }

  lemma ReleasesClosed(s: System, action: Action)
    requires Inv(s) && Streams(s) && (Releasing(s.a) ==> !StreamOpen(s)) && Releasing(Step(s, action).a)
    ensures !StreamOpen(Step(s, action))
  {
    if action.HandlerSend? {
      HandlerSendCloses(s, action.send, action.nextRun);
    } else if HandlerAction(action) {
      HandlerKeepsReleasing(s, action);
      StepHolds(s, action);
    } else if ActivityAction(action) {
      ActivityKeepsReleasing(s, action);
    } else if action.BeginHead? || action.FinishWrite? {
      ChainKeepsReleasing(s, action);
      StepHolds(s, action);
    } else if !action.Crash? {
      OthersKeepReleasing(s, action);
      StepHolds(s, action);
    }
  }

  lemma HandlerSendCloses(s: System, send: SendOutcome, nextRun: nat)
    ensures var t := HandlerSendStep(s, send, nextRun); t.a == s.a && (StreamOpen(t) ==> StreamOpen(s))
  {
  }

  // ------------------------------------------- nothing is given back ahead of an admission

  /** An admission that is accepted finds the stream open, or no run: so nothing is being given back. */
  lemma AcceptedWithPlace(s: System, action: Action)
    requires action.HandlerAdmit? && Streams(s) && (Releasing(s.a) ==> !StreamOpen(s)) && Step(s, action) != s
    ensures var t := Step(s, action); !Releasing(t.a) && IsOpen(t) && HasPlace(Current(t))
  {
  }

  /** While its commit is on its way, the handler does nothing else. */
  lemma HandlerWaits(s: System, action: Action)
    requires HandlerAction(action) && Commits(s.h)
    ensures Step(s, action) == s
  {
    if action.HandlerCancel? || action.HandlerReset? { ControlWaits(s, action); }
  }

  lemma ControlWaits(s: System, action: Action)
    requires (action.HandlerCancel? || action.HandlerReset?) && Commits(s.h)
    ensures Step(s, action) == s
  {
  }

  /** Only these start an admission. */
  lemma AdmittingBefore(s: System, action: Action)
    requires Inv(s) && Admitting(Step(s, action).h) && !action.HandlerAdmit?
    ensures Admitting(s.h)
  {
    var t := Step(s, action);
    if HandlerAction(action) {
      HandlerNeverAdmits(s, action);
    } else if action.BeginHead? || action.FinishWrite? {
      assert PcOf(s, Handler) == s.h && PcOf(t, Handler) == t.h;
      if action.BeginHead? { BeginPcs(s, action.nativeId, action.accepting); } else { FinishPcs(s, action.write); }
    } else {
      OthersNeverAdmit(s, action);
    }
  }

  lemma HandlerNeverAdmits(s: System, action: Action)
    requires HandlerAction(action) && !action.HandlerAdmit? && Admitting(Step(s, action).h)
    ensures Admitting(s.h)
  {
    if action.HandlerCancel? || action.HandlerReset? { ControlNeverAdmits(s, action); }
  }

  lemma ControlNeverAdmits(s: System, action: Action)
    requires (action.HandlerCancel? || action.HandlerReset?) && Admitting(Step(s, action).h)
    ensures Admitting(s.h)
  {
  }

  lemma OthersNeverAdmit(s: System, action: Action)
    requires !HandlerAction(action) && !action.BeginHead? && !action.FinishWrite? && Admitting(Step(s, action).h)
    ensures Admitting(s.h)
  {
  }

  /** The chain when neither the handler nor its head moves. */
  ghost predicate Joins(s: System, t: System) {
    && t.h == s.h && s.queue <= t.queue && |t.queue| <= |s.queue| + 1
    && (t.a == s.a || !Commits(s.a)) && !(t.a.Writing? && !s.a.Writing?)
  }

  lemma BetweenJoins(s: System, action: Action)
    requires Between(action) && !HandlerAction(action) && IsOpen(s)
    ensures Joins(s, Step(s, action))
  {
    if ActivityAction(action) { ActivityJoins(s, action); } else { OthersJoin(s, action); }
  }

  lemma ActivityJoins(s: System, action: Action)
    requires ActivityAction(action)
    ensures Joins(s, Step(s, action))
  {
    if action.ActivitySend? { SendJoins(s, action.send, action.nextRun); }
    else if action.ActivityNext? || action.ActivitySettle? || action.ActivityLaunch? { ActivityEnqueuesJoin(s, action); }
  }

  lemma SendJoins(s: System, send: SendOutcome, nextRun: nat)
    ensures Joins(s, ActivitySendStep(s, send, nextRun))
  {
  }

  lemma ActivityEnqueuesJoin(s: System, action: Action)
    requires action.ActivityNext? || action.ActivitySettle? || action.ActivityLaunch?
    ensures Joins(s, Step(s, action))
  {
  }

  lemma OthersJoin(s: System, action: Action)
    requires Between(action) && !HandlerAction(action) && !ActivityAction(action) && IsOpen(s)
    ensures Joins(s, Step(s, action))
  {
  }

  lemma JoinsBehind(s: System, t: System)
    requires Chain(s) && Chain(t) && Joins(s, t) && Commits(s.h) && ReleaseAhead(t)
    ensures ReleaseAhead(s)
  {
    assert PcOf(s, Handler) == s.h && PcOf(s, Activity) == s.a && PcOf(t, Activity) == t.a && PcOf(t, Handler) == t.h;
    if !t.a.Writing? {
      if s.h.Queued? {
        EarlierGrows(s.queue, t.queue, Activity, Handler);
        assert Activity in s.queue;
      } else {
        assert false;
      }
    }
  }

  lemma ChainBehind(s: System, action: Action)
    requires Inv(s) && Chain(Step(s, action)) && (action.BeginHead? || action.FinishWrite?)
    requires Commits(s.h) && Commits(Step(s, action).h) && ReleaseAhead(Step(s, action))
    ensures ReleaseAhead(s)
  {
    var t := Step(s, action);
    assert PcOf(s, Handler) == s.h && PcOf(s, Activity) == s.a && PcOf(t, Activity) == t.a && PcOf(t, Handler) == t.h;
    if action.BeginHead? {
      BeginPcs(s, action.nativeId, action.accepting);
      if t != s { BeganBehind(s, t); }
    } else {
      FinishPcs(s, action.write);
    }
  }

  lemma BeganBehind(s: System, t: System)
    requires Chain(s) && Chain(t) && Began(s, t) && Commits(s.h) && Commits(t.h) && ReleaseAhead(t)
    ensures ReleaseAhead(s)
  {
    assert PcOf(s, Handler) == s.h && PcOf(s, Activity) == s.a && PcOf(t, Activity) == t.a && PcOf(t, Handler) == t.h;
    HeadIsEarlier(s.queue, Activity, Handler);
    if s.queue[0] != Activity { EarlierAfterHead(s.queue, Activity, Handler); }
  }

  lemma AheadBefore(s: System, action: Action)
    requires Inv(s) && Inv(Step(s, action)) && IsOpen(s) && Admitting(s.h) && Admitting(Step(s, action).h) && !action.Crash?
    requires ReleaseAhead(Step(s, action))
    ensures ReleaseAhead(s)
  {
    if HandlerAction(action) { HandlerWaits(s, action); }
    else if action.BeginHead? || action.FinishWrite? { ChainBehind(s, action); }
    else { BetweenJoins(s, action); JoinsBehind(s, Step(s, action)); }
  }

  // ------------------------------------------------------------------- a place is kept

  /** The stored write of the activity gives back an input that was finished. */
  ghost predicate Revives(s: System, action: Action, n: nat) {
    IsOpen(s) && TerminalIn(Current(s), n) && s.writer == Some(Activity) && StoresRelease(s, action, n)
  }

  lemma FinishedStays(b: Body, next: Body)
    requires |next.messages| == |b.messages| && NoNewTerminalLoss(b, next) && HasPlace(b)
    ensures HasPlace(next)
  {
    if FindTerminal(b.messages).Some? { assert Terminal(next.messages[FindTerminal(b.messages).value]); }
  }

  lemma StartKeepsFinished(b: Body, d: Delivery)
    requires Distinct(b) && HasFirst(b, d) && StartRun(b, d.run, d.id).Some?
    ensures var next := StartRun(b, d.run, d.id).value; |next.messages| == |b.messages| && NoNewTerminalLoss(b, next)
  {
    var k :| 0 <= k < |b.messages| && b.messages[k].id == d.id && b.messages[k].nativeId == d.nativeId
             && b.messages[k].runId == d.run && b.messages[k].status == Accepted;
    AtId(b, k);
  }

  lemma ReleaseKeepsFinished(b: Body, d: Delivery, nextRun: nat)
    requires Distinct(b) && Has(b, d.id, d.nativeId) && Release(b, d.run, d.id, nextRun, d.settings).Some? && !TerminalIn(b, d.nativeId)
    ensures var next := Release(b, d.run, d.id, nextRun, d.settings).value; |next.messages| == |b.messages| && NoNewTerminalLoss(b, next)
  {
    var k :| 0 <= k < |b.messages| && b.messages[k].id == d.id && b.messages[k].nativeId == d.nativeId;
    AtId(b, k);
  }

  /** A stored write of the activity leaves a place, unless it gives a finished input back. */
  lemma ActivityLeavesPlace(s: System)
    requires Inv(s) && Known(s) && IsOpen(s) && Completes(s, FinishWrite(S.Stored)) && s.writer == Some(Activity) && HasPlace(Current(s))
    ensures PcOf(s, Activity) == s.a && s.a.Writing?
    ensures HasPlace(s.core.store.writing.value.body) || (s.a.op.ReleaseInput? && TerminalIn(Current(s), s.a.op.delivery.nativeId))
  {
    var b, next := Current(s), s.core.store.writing.value.body;
    assert PcOf(s, Activity) == s.a && s.a.Writing?;
    FitDistinct(s);
    match s.a.op
    case ClaimInput(d) => ActivityWrite(s); FinishedStays(b, next);
    case StartFirst(d) => StartKeepsFinished(b, d); FinishedStays(b, next);
    case FinaliseRun(run, _, outcome, code) => FinaliseFit(b, run, outcome, code, Blocked(s), s.used, s.log); FinishedStays(b, next);
    case ReleaseInput(d, nextRun) =>
      if !TerminalIn(b, d.nativeId) { ReleaseKeepsFinished(b, d, nextRun); FinishedStays(b, next); }
  }

  lemma StepLeavesPlace(s: System, action: Action)
    requires Inv(s) && Known(s) && IsOpen(s) && HasPlace(Current(s))
    requires Admitting(s.h) && Admitting(Step(s, action).h) && IsOpen(Step(s, action))
    ensures HasPlace(Current(Step(s, action))) || exists n :: Revives(s, action, n)
  {
    StepMemory(s, action);
    if Completes(s, action) {
      var writer, next := s.writer.value, s.core.store.writing.value.body;
      assert PcOf(s, Handler) == s.h;
      FinishPcs(s, S.Stored);
      FinishMoves(s);
      assert PcOf(Step(s, action), Handler) == Step(s, action).h;
      assert !writer.Handler?;
      if writer.Activity? {
        ActivityLeavesPlace(s);
        if !HasPlace(next) { assert Revives(s, action, s.a.op.delivery.nativeId); }
      } else {
        BystanderWrite(s);
        FinishedStays(Current(s), next);
      }
    }
  }

  lemma NothingRevives(s: System, action: Action, n: nat)
    requires Admitting(s.h) && !ReleaseAhead(s)
    ensures !Revives(s, action, n)
  {
    assert PcOf(s, Activity) == s.a;
  }

  lemma AdmittingKeeps(s: System, action: Action)
    requires Inv(s) && Known(s) && Placed(s) && Admitting(s.h) && Admitting(Step(s, action).h)
    ensures var t := Step(s, action); !ReleaseAhead(t) && IsOpen(t) && HasPlace(Current(t))
  {
    var t := Step(s, action);
    StepKeeps(s, action);
    assert IsOpen(t);
    if ReleaseAhead(t) { AheadBefore(s, action); }
    StepLeavesPlace(s, action);
    forall n ensures !Revives(s, action, n) { NothingRevives(s, action, n); }
  }

  lemma StepPlaced(s: System, action: Action)
    requires Inv(s) && Known(s) && Streams(s) && Placed(s)
    ensures Placed(Step(s, action))
  {
    var t := Step(s, action);
    if Releasing(t.a) { ReleasesClosed(s, action); }
    if Admitting(t.h) {
      if action.HandlerAdmit? && t != s {
        AcceptedWithPlace(s, action);
      } else if t != s {
        AdmittingBefore(s, action);
        AdmittingKeeps(s, action);
      }
    }
  }

  lemma {:induction false} RunPlaced(actions: seq<Action>)
    ensures Placed(After(actions))
  {
    if actions != [] {
      var shorter := actions[..|actions| - 1];
      RunPlaced(shorter);
      RunKnown(shorter);
      RunStreams(shorter);
      StepPlaced(After(shorter), actions[|actions| - 1]);
    }
  }

  /**
   In every run, from the moment an admission is accepted until it is stored, the list has a free place
   or a finished input, so no admission evicts an input that is not finished.
   */
  lemma AdmissionsFindPlace(actions: seq<Action>)
    requires Admitting(After(actions).h)
    ensures IsOpen(After(actions)) && HasPlace(Current(After(actions)))
  {
    RunPlaced(actions);
  }
}
