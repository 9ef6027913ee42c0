/**
 When a finished input of the durable Claude runtime is accepted again. Giving an unwritten input
 back is a commit of its own, so a commit that finishes the input may run before it.
 */
module ClaudeFinality {
  import opened Wrappers
  import opened ClaudeState
  import opened ClaudeCallbacks
  import opened ClaudeCallbackFacts
  import opened ClaudeRuntime
  import opened ClaudeRuntimeInvariant
  import opened ClaudeRuntimeWrites
  import opened ClaudeRuntimeTheorems
  import S = ClaudeStore

  ghost predicate TerminalIn(b: Body, n: nat) {
    exists i :: 0 <= i < |b.messages| && b.messages[i].nativeId == n && Terminal(b.messages[i])
  }

  // ------------------------------------------------------------ what moves memory

  /** The write that this step makes the current state, if it completes one. */
  predicate Completes(s: System, action: Action) {
    action == FinishWrite(S.Stored) && s.writer.Some? && s.core.store.writing.Some? && !(s.a.Sending? && !s.a.first)
  }

  ghost predicate MemoryMoves(s: System, t: System, action: Action)
    requires IsOpen(s) && IsOpen(t)
  {
    if Completes(s, action) then Current(t) == s.core.store.writing.value.body else Current(t) == Current(s)
  }

  lemma FailMemory(s: System, task: Task, op: Op)
    requires IsOpen(s) && IsOpen(Fail(s, task, op))
    ensures Current(Fail(s, task, op)) == Current(s)
  {
  }

  lemma BeginMemory(s: System, nativeId: nat, accepting: bool)
    requires IsOpen(s) && IsOpen(BeginHeadStep(s, nativeId, accepting))
    ensures Current(BeginHeadStep(s, nativeId, accepting)) == Current(s)
  {
    if s.queue != [] {
      var base, task := s.(queue := s.queue[1..]), s.queue[0];
      if IsOpen(Fail(base, task, MarkRun(0))) { FailMemory(base, task, MarkRun(0)); }
      if PcOf(s, task).Queued? && IsOpen(Fail(base, task, PcOf(s, task).op)) { FailMemory(base, task, PcOf(s, task).op); }
    }
  }

  lemma DoneMemory(s: System, task: Task, op: Op, attempted: bool)
    requires IsOpen(s)
    ensures IsOpen(Done(s, task, op, attempted)) && Current(Done(s, task, op, attempted)) == Current(s)
  {
    DoneCore(s, task, op, attempted);
  }

  lemma StoredMemory(s: System)
    requires Inv(s) && IsOpen(s) && Completes(s, FinishWrite(S.Stored)) && IsOpen(FinishWriteStep(s, S.Stored))
    ensures Current(FinishWriteStep(s, S.Stored)) == s.core.store.writing.value.body
  {
    var task, base := s.writer.value, s.(core := S.Step(s.core, S.Finish(S.Stored)), writer := None);
    assert IsOpen(base) && Current(base) == s.core.store.writing.value.body;
    if !task.Publisher? { DoneMemory(base, task, PcOf(s, task).op, PcOf(s, task).attempted); }
  }

  lemma FailedMemory(s: System, outcome: S.WriteOutcome)
    requires IsOpen(s) && IsOpen(FinishWriteStep(s, outcome)) && s.writer.Some? && !outcome.Stored?
    ensures Current(FinishWriteStep(s, outcome)) == Current(s)
  {
    var task, base := s.writer.value, s.(core := S.Step(s.core, S.Finish(outcome)), writer := None);
    assert base.core.store.current == s.core.store.current;
    if PcOf(s, task).Writing? && IsOpen(Fail(base, task, PcOf(s, task).op)) { FailMemory(base, task, PcOf(s, task).op); }
  }

  lemma FinishMemory(s: System, outcome: S.WriteOutcome)
    requires Inv(s) && IsOpen(s) && IsOpen(FinishWriteStep(s, outcome))
    ensures MemoryMoves(s, FinishWriteStep(s, outcome), FinishWrite(outcome))
  {
    if s.writer.Some? && !(s.a.Sending? && !s.a.first) {
      if outcome.Stored? { StoredMemory(s); } else { FailedMemory(s, outcome); }
    }
  }

  lemma StoreMemory(s: System, action: Action)
    requires action.Crash? || action.Weigh? || action.Open? || action.StartFlush? || action.SendPart? || action.AbortFlush?
    requires IsOpen(s) && IsOpen(Step(s, action))
    ensures Current(Step(s, action)) == Current(s)
  {
  }

  /** Memory changes only when a write completes, and then it becomes what was written. */
  lemma StepMemory(s: System, action: Action)
    requires Inv(s) && IsOpen(s) && IsOpen(Step(s, action))
    ensures MemoryMoves(s, Step(s, action), action)
  {
    if action.BeginHead? {
      BeginMemory(s, action.nativeId, action.accepting);
    } else if action.FinishWrite? {
      FinishMemory(s, action.write);
    } else if HandlerAction(action) {
      HandlerCore(s, action);
    } else if ActivityAction(action) {
      ActivityCore(s, action);
    } else if action.ObserveEvents? || action.CancelHook? || action.StreamCloses? {
      BystanderCore(s, action);
    } else {
      StoreMemory(s, action);
    }
  }

  // --------------------------------------------------------------- what is known

  ghost predicate EchoKnown(s: System, n: nat) {
    n in s.written || n in s.foreign
  }

  ghost predicate BatchKnown(s: System, pc: Pc) {
    Commits(pc) && pc.op.ObserveBatch? ==> forall n :: n in Echoes(pc.op.batch) ==> EchoKnown(s, n)
  }

  ghost predicate LogKnown(s: System, log: Log) {
    forall i :: 0 <= i < |log| && log[i].1.UserEcho? ==> EchoKnown(s, log[i].1.uuid)
  }

  /** Whatever was echoed was written or is foreign, and a new input has a new native ID. */
  ghost predicate Known(s: System) {
    && BatchKnown(s, s.o) && BatchKnown(s, s.t)
    && LogKnown(s, s.log)
    && (s.h.Writing? && s.h.op.AdmitInput? && IsOpen(s) ==> forall m :: m in Current(s).messages ==> m.nativeId != s.h.nativeId)
  }

  /** A step that leaves the observers, the log and the handler's write alone. */
  ghost predicate Quiet(s: System, t: System) {
    && t.o == s.o && t.t == s.t && t.log == s.log && t.foreign == s.foreign && s.written <= t.written
    && (t.h.Writing? ==> t.h == s.h && t.core.store.current == s.core.store.current)
  }

  lemma QuietKeeps(s: System, t: System)
    requires Known(s) && Quiet(s, t)
    ensures Known(t)
  {
  }

  lemma HandlerQuiet(s: System, action: Action)
    requires HandlerAction(action) && !action.HandlerCancel? && !action.HandlerReset?
    ensures Quiet(s, Step(s, action))
  {
    HandlerCore(s, action);
  }

  lemma ControlQuiet(s: System, action: Action)
    requires action.HandlerCancel? || action.HandlerReset?
    ensures Quiet(s, Step(s, action))
  {
  }

  lemma ActivityQuiet(s: System, action: Action)
    requires ActivityAction(action) && !action.ActivitySend? && !action.ActivitySettle? && !action.ActivityNext?
    ensures Quiet(s, Step(s, action))
  {
  }

  lemma BystanderQuiet(s: System, action: Action)
    requires action.CancelHook? || action.StreamCloses?
    ensures Quiet(s, Step(s, action))
  {
  }

  lemma ActivitySendQuiet(s: System, send: SendOutcome, nextRun: nat)
    ensures Quiet(s, ActivitySendStep(s, send, nextRun))
  {
  }

  lemma ActivityEndsQuiet(s: System, action: Action)
    requires action.ActivitySettle? || action.ActivityNext?
    ensures Quiet(s, Step(s, action))
  {
  }

  lemma StoreQuiet(s: System, action: Action)
    requires action.Open? || action.Weigh? || action.StartFlush? || action.SendPart? || action.AbortFlush?
    ensures Quiet(s, Step(s, action))
  {
  }

  lemma ObservesKnown(s: System, timer: bool, run: nat, batch: seq<NativeEvent>)
    requires Known(s)
    ensures Known(Step(s, ObserveEvents(timer, run, batch)))
  {
  }

  lemma FailKnown(s: System, base: System, task: Task, op: Op)
    requires Known(s) && base.h == s.h && base.o == s.o && base.t == s.t && base.log == s.log && base.foreign == s.foreign && base.written == s.written
    requires base.core.store.current == s.core.store.current && (task.Publisher? ==> !s.h.Writing?)
    requires s.h.Writing? ==> task.Handler?
    ensures Known(Fail(base, task, op))
  {
  }

  lemma FreshNative(s: System, nativeId: nat)
    requires Inv(s) && IsOpen(s) && nativeId !in s.used
    ensures forall m :: m in Current(s).messages ==> m.nativeId != nativeId
  {
    forall m | m in Current(s).messages ensures m.nativeId in s.used {
      var i :| 0 <= i < |Current(s).messages| && Current(s).messages[i] == m;
    }
  }

  lemma TagKnown(s: System, log: Log, run: nat, batch: seq<NativeEvent>)
    requires LogKnown(s, log) && forall n :: n in Echoes(batch) ==> EchoKnown(s, n)
    ensures LogKnown(s, log + Tag(run, batch))
  {
    var more := log + Tag(run, batch);
    forall i | 0 <= i < |more| && more[i].1.UserEcho? ensures EchoKnown(s, more[i].1.uuid) {
      if i >= |log| {
        var e := batch[i - |log|];
        assert more[i] == (run, e);
        assert e.uuid in Echoes(batch);
      }
    }
  }

  lemma BeginsKnown(s: System, t: System, task: Task, op: Op, nativeId: nat, accepting: bool)
    requires Inv(s) && Known(s) && Begins(s, t, task, op, nativeId, accepting)
    ensures Known(t)
  {
    FreshNative(s, nativeId);
    assert s.o == PcOf(s, Observer) && s.t == PcOf(s, Timer) && s.h == PcOf(s, Handler);
    assert t.o == PcOf(t, Observer) && t.t == PcOf(t, Timer) && t.h == PcOf(t, Handler);
    if op.ObserveBatch? { TagKnown(s, s.log, op.run, op.batch); }
    assert LogKnown(s, t.log);
    LogStays(s, t);
  }

  lemma LogStays(s: System, t: System)
    requires LogKnown(s, t.log) && t.written == s.written && t.foreign == s.foreign
    ensures LogKnown(t, t.log)
  {
  }

  lemma BeginKnown(s: System, nativeId: nat, accepting: bool)
    requires Inv(s) && Known(s)
    ensures Known(BeginHeadStep(s, nativeId, accepting))
  {
    var t := BeginHeadStep(s, nativeId, accepting);
    if t != s {
      var task, base := s.queue[0], s.(queue := s.queue[1..]);
      assert !s.h.Writing? by { assert PcOf(s, Handler) == s.h; }
      if task.Publisher? {
        if !S.CanBegin(s.core.store) { FailKnown(s, base, Publisher, MarkRun(0)); } else { QuietKeeps(s, t); }
      } else {
        var op := PcOf(s, task).op;
        FailKnown(s, base, task, op);
        if t != Fail(base, task, op) {
          BeginOpBegins(s, task, op, nativeId, accepting);
          BeginsKnown(s, t, task, op, nativeId, accepting);
        }
      }
    }
  }

  lemma FinishKnown(s: System, outcome: S.WriteOutcome)
    requires Chain(s) && Known(s)
    ensures Known(FinishWriteStep(s, outcome))
  {
    var t := FinishWriteStep(s, outcome);
    if t != s {
      var task := s.writer.value;
      var base := s.(core := S.Step(s.core, S.Finish(outcome)), writer := None);
      assert !s.h.Writing? || task.Handler? by { assert PcOf(s, Handler) == s.h; }
      if task.Publisher? {
        assert t == base;
      } else if outcome.Stored? {
        DoneKnown(s, base, task, PcOf(s, task).op, PcOf(s, task).attempted);
      } else {
        FailKnown(s, base, task, PcOf(s, task).op);
      }
    }
  }

  lemma DoneKnown(s: System, base: System, task: Task, op: Op, attempted: bool)
    requires Known(s) && base == s.(core := base.core, writer := None) && !task.Publisher? && (s.h.Writing? ==> task.Handler?)
    ensures Known(Done(base, task, op, attempted))
  {
  }

  lemma StepKnown(s: System, action: Action)
    requires Inv(s) && Known(s)
    ensures Known(Step(s, action))
  {
    if action.BeginHead? {
      BeginKnown(s, action.nativeId, action.accepting);
    } else if action.FinishWrite? {
      FinishKnown(s, action.write);
    } else if action.ObserveEvents? {
      ObservesKnown(s, action.timer, action.run, action.batch);
    } else if action.Crash? {
    } else if action.HandlerCancel? || action.HandlerReset? {
      ControlQuiet(s, action);
      QuietKeeps(s, Step(s, action));
    } else if HandlerAction(action) {
      HandlerQuiet(s, action);
      QuietKeeps(s, Step(s, action));
    } else if action.ActivitySend? {
      ActivitySendQuiet(s, action.send, action.nextRun);
      QuietKeeps(s, Step(s, action));
    } else if action.ActivitySettle? || action.ActivityNext? {
      ActivityEndsQuiet(s, action);
      QuietKeeps(s, Step(s, action));
    } else if ActivityAction(action) {
      ActivityQuiet(s, action);
      QuietKeeps(s, Step(s, action));
    } else if action.CancelHook? || action.StreamCloses? {
      BystanderQuiet(s, action);
      QuietKeeps(s, Step(s, action));
    } else {
      StoreQuiet(s, action);
      QuietKeeps(s, Step(s, action));
    }
  }

  lemma {:induction false} RunKnown(actions: seq<Action>)
    ensures Inv(After(actions)) && Known(After(actions))
  {
    RunInv(actions);
    if actions != [] {
      var shorter := actions[..|actions| - 1];
      RunKnown(shorter);
      StepKnown(After(shorter), actions[|actions| - 1]);
    }
  }

  // ------------------------------------------------- which commits revive an input

  lemma AcceptedOrTerminal(b: Body, n: nat)
    requires Distinct(b) && TerminalIn(b, n)
    ensures !AcceptedIn(b, n)
  {
  }

  /** An admission makes no finished input accepted, because the new input has a new native ID. */
  lemma AdmitRevivesNothing(b: Body, input: Input, n: nat)
    requires Distinct(b) && TerminalIn(b, n) && input.nativeId != n
    ensures !AcceptedIn(Admit(b, input), n)
  {
    AcceptedOrTerminal(b, n);
    AdmitAccepts(b, input);
  }

  /** Callbacks that keep the inputs in place and make none accepted revive nothing. */
  lemma SameInputsReviveNothing(b: Body, next: Body, n: nat)
    requires Distinct(b) && TerminalIn(b, n) && SameInputs(b, next) && NoNewAccepted(b, next)
    ensures !AcceptedIn(next, n)
  {
    AcceptedOrTerminal(b, n);
    SameInputsAccepted(b, next);
  }

  lemma ReleaseRevives(b: Body, d: Delivery, nextRun: nat, n: nat)
    requires Distinct(b) && TerminalIn(b, n) && Has(b, d.id, d.nativeId) && Release(b, d.run, d.id, nextRun, d.settings).Some?
    ensures AcceptedIn(Release(b, d.run, d.id, nextRun, d.settings).value, n) <==> d.nativeId == n
  {
    HasMatches(b, d.id, d.nativeId);
    ReleaseAccepts(b, d.run, d.id, nextRun, d.settings, d.nativeId);
    AcceptedOrTerminal(b, n);
    var i := FindId(b.messages, d.id).value;
    assert Release(b, d.run, d.id, nextRun, d.settings).value.messages[i].status == Accepted;
    assert b.messages[i].nativeId == d.nativeId;
  }

  lemma ControlsReviveNothing(b: Body, op: Op, state: State, nativeId: nat, accepting: bool)
    requires state.body == b && Mutate(op, state, nativeId, accepting).Some?
    requires op.CancelControl? || op.ResetControl? || op.MarkRun?
    ensures var next := Mutate(op, state, nativeId, accepting).value; SameInputs(b, next) && NoNewAccepted(b, next)
  {
  }

  lemma RunsReviveNothing(b: Body, op: Op, state: State, nativeId: nat, accepting: bool)
    requires state.body == b && Mutate(op, state, nativeId, accepting).Some?
    requires op.FinaliseRun? || op.StartFirst? || op.ClaimInput?
    ensures var next := Mutate(op, state, nativeId, accepting).value; SameInputs(b, next) && NoNewAccepted(b, next)
  {
  }

  lemma RecoverRevivesNothing(b: Body, isNew: bool, seed: Option<(nat, bool)>, nextRun: nat)
    ensures SameInputs(b, Recover(b, isNew, seed, nextRun)) && NoNewAccepted(b, Recover(b, isNew, seed, nextRun))
  {
  }

  /** Of all callbacks, only the one that gives an input back makes a finished input accepted. */
  lemma CallbackRevives(b: Body, op: Op, state: State, nativeId: nat, accepting: bool, n: nat, used: set<nat>, log: Log)
    requires state.body == b && Fit(b, {}, used, log) && TerminalIn(b, n) && Mutate(op, state, nativeId, accepting).Some?
    requires op.AdmitInput? ==> nativeId != n
    requires op.ReleaseInput? ==> Has(b, op.delivery.id, op.delivery.nativeId)
    ensures AcceptedIn(Mutate(op, state, nativeId, accepting).value, n) <==> op.ReleaseInput? && op.delivery.nativeId == n
  {
    var next := Mutate(op, state, nativeId, accepting).value;
    match op
    case Initialize(seed, nextRun) =>
      RecoverRevivesNothing(b, state.revision == 0, seed, nextRun);
      SameInputsReviveNothing(b, next, n);
    case AdmitInput(id, text, run, settings, fingerprint, _) =>
      AdmitRevivesNothing(b, Input(id, text, nativeId, run, Accepted, Some(settings), fingerprint, ""), n);
    case ReleaseInput(d, nextRun) => ReleaseRevives(b, d, nextRun, n);
    case ObserveBatch(run, batch) =>
      ObserveFit(b, run, batch, accepting, {}, used, log);
      SameInputsReviveNothing(b, next, n);
    case _ =>
      if op.CancelControl? || op.ResetControl? || op.MarkRun? {
        ControlsReviveNothing(b, op, state, nativeId, accepting);
      } else {
        RunsReviveNothing(b, op, state, nativeId, accepting);
      }
      SameInputsReviveNothing(b, next, n);
  }

  /** The step that completes the durable write of the commit that gives this input back. */
  predicate StoresRelease(s: System, action: Action, n: nat) {
    && Completes(s, action) && !s.writer.value.Publisher?
    && var pc := PcOf(s, s.writer.value); pc.Writing? && pc.op.ReleaseInput? && pc.op.delivery.nativeId == n
  }

  lemma WriteRevives(s: System, n: nat)
    requires Inv(s) && Known(s) && IsOpen(s) && Completes(s, FinishWrite(S.Stored)) && TerminalIn(Current(s), n)
    ensures AcceptedIn(s.core.store.writing.value.body, n) <==> StoresRelease(s, FinishWrite(S.Stored), n)
  {
    var b, task := Current(s), s.writer.value;
    FitWeakens(b, Blocked(s), s.used, s.log, {}, s.used, s.log);
    AcceptedOrTerminal(b, n);
    if !task.Publisher? {
      var pc := PcOf(s, task);
      assert pc.Writing? && (task.Handler? ==> pc == s.h) && (task.Activity? ==> pc == s.a);
      CallbackRevives(b, pc.op, s.core.store.current.value, pc.nativeId, pc.accepting, n, s.used, s.log);
    }
  }

  /** A finished input is accepted again by no step except the stored write of the commit that gives it back. */
  lemma RevivedOnlyByRelease(actions: seq<Action>, action: Action, n: nat)
    requires IsOpen(After(actions)) && IsOpen(Step(After(actions), action)) && TerminalIn(Current(After(actions)), n)
    ensures AcceptedIn(Current(Step(After(actions), action)), n) <==> StoresRelease(After(actions), action, n)
  {
    var s := After(actions);
    RunKnown(actions);
    StepMemory(s, action);
    FitDistinct(s);
    AcceptedOrTerminal(Current(s), n);
    if Completes(s, action) { WriteRevives(s, n); }
  }

  lemma FitDistinct(s: System)
    requires Inv(s) && IsOpen(s)
    ensures Distinct(Current(s))
  {
  }
}
