/**
 What the state file retains: exactly which writes take an accepted input away, what an admission
 evicts, and what a recovered file holds.
 */
module ClaudeRetention {
  import opened Wrappers
  import opened ClaudeState
  import opened ClaudeCallbacks
  import opened ClaudeCallbackFacts
  import opened ClaudeRuntime
  import opened ClaudeRuntimeInvariant
  import opened ClaudeRuntimeSteps
  import opened ClaudeRuntimeWrites
  import opened ClaudeRuntimeTheorems
  import opened ClaudeFinality
  import opened ClaudeRevival
  import opened ClaudePlaces
  import S = ClaudeStore

  // --------------------------------------------------------------- what lands

  /** The step that makes the file what is being written: the write ends, in whatever way, or the process dies after the rename. */
  predicate Lands(s: System, action: Action) {
    && s.core.store.writing.Some?
    && match action
       case FinishWrite(outcome) => s.writer.Some? && !(s.a.Sending? && !s.a.first) && !outcome.Lost?
       case Crash(landed) => landed
       case _ => false
  }

  function FileAfter(s: System, action: Action): Option<State> {
    if Lands(s, action) then s.core.store.writing else s.core.store.disk
  }

  lemma FailFile(s: System, task: Task, op: Op)
    ensures Fail(s, task, op).core.store.disk == s.core.store.disk
  {
  }

  lemma BeginFile(s: System, nativeId: nat, accepting: bool)
    ensures BeginHeadStep(s, nativeId, accepting).core.store.disk == s.core.store.disk
  {
    if s.queue != [] {
      var base, task := s.(queue := s.queue[1..]), s.queue[0];
      FailFile(base, task, MarkRun(0));
      if PcOf(s, task).Queued? { FailFile(base, task, PcOf(s, task).op); }
    }
  }

  lemma FinishFile(s: System, outcome: S.WriteOutcome)
    requires s.writer.Some? <==> s.core.store.writing.Some?
    ensures FinishWriteStep(s, outcome).core.store.disk == FileAfter(s, FinishWrite(outcome))
  {
    if s.writer.Some? && !(s.a.Sending? && !s.a.first) {
      var base, task := s.(core := S.Step(s.core, S.Finish(outcome)), writer := None), s.writer.value;
      if !task.Publisher? && PcOf(s, task).Writing? {
        FailFile(base, task, PcOf(s, task).op);
        DoneCore(base, task, PcOf(s, task).op, PcOf(s, task).attempted);
      }
    }
  }

  lemma StoreFile(s: System, action: Action)
    requires action.Crash? || action.Weigh? || action.Open? || action.StartFlush? || action.SendPart? || action.AbortFlush?
    ensures Step(s, action).core.store.disk == FileAfter(s, action)
  {
  }

  /** The file changes only when a write lands, and then it becomes what was written. */
  lemma StepFile(s: System, action: Action)
    requires Inv(s)
    ensures Step(s, action).core.store.disk == FileAfter(s, action)
  {
    if action.BeginHead? { BeginFile(s, action.nativeId, action.accepting); }
    else if action.FinishWrite? { FinishFile(s, action.write); }
    else if HandlerAction(action) { HandlerCore(s, action); }
    else if ActivityAction(action) { ActivityCore(s, action); }
    else if action.ObserveEvents? || action.CancelHook? || action.StreamCloses? { BystanderCore(s, action); }
    else { StoreFile(s, action); }
  }

  // ------------------------------------------- what a commit takes from accepted

  /** The commit leaves this accepted input accepted no longer. */
  predicate Takes(op: Op, m: Input) {
    match op
    case ClaimInput(d) => d.id == m.id
    case StartFirst(d) => d.id == m.id
    case FinaliseRun(run, _, _, _) => m.runId == run
    case CancelControl(_, dormant, _) => dormant == Some(m.id)
    case ResetControl(_, _) => true
    case _ => false
  }

  /** What one body makes of the accepted input at a place where the inputs stay in place. */
  lemma InPlace(b: Body, next: Body, i: nat)
    requires Distinct(b) && SameInputs(b, next) && i < |b.messages|
    ensures AcceptedIn(next, b.messages[i].nativeId) <==> next.messages[i].status == Accepted
  {
    var n := b.messages[i].nativeId;
    if AcceptedIn(next, n) {
      var j :| 0 <= j < |next.messages| && next.messages[j].nativeId == n && next.messages[j].status == Accepted;
      assert b.messages[j].nativeId == n;
    }
  }

  lemma RunTakes(b: Body, op: Op, state: State, i: nat)
    requires state.body == b && Distinct(b) && i < |b.messages| && b.messages[i].status == Accepted && Mutate(op, state, 0, false).Some?
    requires op.ClaimInput? || op.StartFirst? || op.FinaliseRun?
    ensures AcceptedIn(Mutate(op, state, 0, false).value, b.messages[i].nativeId) <==> !Takes(op, b.messages[i])
  {
    var next := Mutate(op, state, 0, false).value;
    AtId(b, i);
    assert SameInputs(b, next);
    InPlace(b, next, i);
  }

  lemma ControlTakes(b: Body, op: Op, state: State, i: nat)
    requires state.body == b && Distinct(b) && i < |b.messages| && b.messages[i].status == Accepted && Mutate(op, state, 0, false).Some?
    requires op.CancelControl? || op.ResetControl? || op.MarkRun?
    ensures AcceptedIn(Mutate(op, state, 0, false).value, b.messages[i].nativeId) <==> !Takes(op, b.messages[i])
  {
    var next := Mutate(op, state, 0, false).value;
    AtId(b, i);
    assert SameInputs(b, next);
    InPlace(b, next, i);
  }

  lemma RecoverTakes(b: Body, isNew: bool, seed: Option<(nat, bool)>, nextRun: nat, i: nat)
    requires Distinct(b) && i < |b.messages| && b.messages[i].status == Accepted
    ensures AcceptedIn(Recover(b, isNew, seed, nextRun), b.messages[i].nativeId)
  {
    RecoverRevivesNothing(b, isNew, seed, nextRun);
    InPlace(b, Recover(b, isNew, seed, nextRun), i);
  }

  lemma ReleaseTakes(b: Body, d: Delivery, nextRun: nat, i: nat)
    requires Distinct(b) && i < |b.messages| && b.messages[i].status == Accepted && Release(b, d.run, d.id, nextRun, d.settings).Some?
    ensures AcceptedIn(Release(b, d.run, d.id, nextRun, d.settings).value, b.messages[i].nativeId)
  {
    var next := Release(b, d.run, d.id, nextRun, d.settings).value;
    assert SameInputs(b, next);
    InPlace(b, next, i);
  }

  lemma ObserveTakes(b: Body, run: nat, batch: seq<NativeEvent>, accepting: bool, i: nat)
    requires i < |b.messages| && b.messages[i].status == Accepted && Observe(b, run, batch, accepting).Some?
    ensures AcceptedIn(Observe(b, run, batch, accepting).value, b.messages[i].nativeId)
  {
    ObserveKeepsAccepted(b, run, batch, accepting, i);
    var next := Observe(b, run, batch, accepting).value;
    assert next.messages[i].nativeId == b.messages[i].nativeId && next.messages[i].status == Accepted;
  }

  predicate OldestFinished(b: Body, m: Input) {
    FindTerminal(b.messages).Some? && b.messages[FindTerminal(b.messages).value] == m
  }

  /** With a place to take, an admission drops only the oldest finished input, and that only from a full list. */
  lemma AdmitKeepsExactly(b: Body, input: Input, i: nat)
    requires Distinct(b) && HasPlace(b) && i < |b.messages| && input.nativeId != b.messages[i].nativeId
    ensures b.messages[i] in Admit(b, input).messages <==> !OldestFinished(b, b.messages[i]) || |b.messages| < MAX_MESSAGES
  {
    var next, at := Admit(b, input), FindTerminal(b.messages);
    if |b.messages| < MAX_MESSAGES || i < at.value {
      assert next.messages[i] == b.messages[i];
    } else if i > at.value {
      assert next.messages[i - 1] == b.messages[i];
      assert b.messages[i].nativeId != b.messages[at.value].nativeId;
    } else {
      forall m | m in next.messages ensures m != b.messages[i] {
        var j :| 0 <= j < |next.messages| && next.messages[j] == m;
        if j < |next.messages| - 1 {
          var from := EvictOrigin(b.messages, j);
          assert m == b.messages[from] && from != i;
        }
      }
    }
  }

  lemma AdmitTakes(b: Body, input: Input, i: nat)
    requires Distinct(b) && HasPlace(b) && i < |b.messages| && b.messages[i].status == Accepted && input.nativeId != b.messages[i].nativeId
    ensures AcceptedIn(Admit(b, input), b.messages[i].nativeId)
  {
    AdmitKeepsExactly(b, input, i);
    var j :| 0 <= j < |Admit(b, input).messages| && Admit(b, input).messages[j] == b.messages[i];
  }

  /** Of the callbacks, exactly those that `Takes` names take an accepted input away. */
  lemma CallbackTakes(b: Body, op: Op, state: State, nativeId: nat, accepting: bool, i: nat)
    requires state.body == b && Distinct(b) && i < |b.messages| && b.messages[i].status == Accepted
    requires Mutate(op, state, nativeId, accepting).Some? && (op.AdmitInput? ==> HasPlace(b) && nativeId != b.messages[i].nativeId)
    ensures AcceptedIn(Mutate(op, state, nativeId, accepting).value, b.messages[i].nativeId) <==> !Takes(op, b.messages[i])
  {
    match op
    case Initialize(seed, nextRun) => RecoverTakes(b, state.revision == 0, seed, nextRun, i);
    case AdmitInput(id, text, run, settings, fingerprint, _) =>
      AdmitTakes(b, Input(id, text, nativeId, run, Accepted, Some(settings), fingerprint, ""), i);
    case ReleaseInput(d, nextRun) => ReleaseTakes(b, d, nextRun, i);
    case ObserveBatch(run, batch) => ObserveTakes(b, run, batch, accepting, i);
    case _ =>
      if op.ClaimInput? || op.StartFirst? || op.FinaliseRun? { RunTakes(b, op, state, i); } else { ControlTakes(b, op, state, i); }
  }

  predicate WriterTakes(s: System, m: Input) {
    && s.writer.Some? && !s.writer.value.Publisher? && PcOf(s, s.writer.value).Writing?
    && Takes(PcOf(s, s.writer.value).op, m)
  }

  /** While a write is in progress, memory is what the file holds. */
  lemma WritingMirrors(actions: seq<Action>)
    requires After(actions).core.store.writing.Some? && After(actions).core.store.disk.Some?
    ensures After(actions).core.store.current == After(actions).core.store.disk
  {
    CoreInv(actions);
  }

  lemma WriteTakes(s: System, i: nat)
    requires Inv(s) && Known(s) && Placed(s) && IsOpen(s) && s.writer.Some? && s.core.store.writing.Some?
    requires i < |Current(s).messages| && Current(s).messages[i].status == Accepted
    ensures AcceptedIn(s.core.store.writing.value.body, Current(s).messages[i].nativeId) <==> !WriterTakes(s, Current(s).messages[i])
  {
    var b, task := Current(s), s.writer.value;
    FitDistinct(s);
    if task.Publisher? {
      assert s.core.store.writing.value.body == b;
    } else {
      var pc := PcOf(s, task);
      assert pc.Writing? && (task.Handler? ==> pc == s.h);
      CallbackTakes(b, pc.op, s.core.store.current.value, pc.nativeId, pc.accepting, i);
    }
  }

  /**
   An accepted input survives every step of every run in the file, whatever crashes and however writes
   end, except a landing write of a commit that claims it, starts with it, finalises its run, cancels it,
   or resets the session. No admission evicts it.
   */
  lemma AcceptedLeavesFileExactly(actions: seq<Action>, action: Action, m: Input)
    requires var disk := After(actions).core.store.disk; disk.Some? && m in disk.value.body.messages && m.status == Accepted
    ensures var s, disk := After(actions), Step(After(actions), action).core.store.disk;
      disk.Some? && (AcceptedIn(disk.value.body, m.nativeId) <==> !(Lands(s, action) && WriterTakes(s, m)))
  {
    var s := After(actions);
    var i :| 0 <= i < |s.core.store.disk.value.body.messages| && s.core.store.disk.value.body.messages[i] == m;
    RunKnown(actions);
    RunPlaced(actions);
    StepFile(s, action);
    if Lands(s, action) {
      WritingMirrors(actions);
      WriteTakes(s, i);
    } else {
      assert AcceptedIn(s.core.store.disk.value.body, m.nativeId);
    }
  }

  // ------------------------------------------------------------ what an admission evicts

  /** An admission drops no input but, from a full list, the oldest finished one. */
  lemma AdmissionEvictsExactly(actions: seq<Action>, m: Input)
    requires var s := After(actions);
      && IsOpen(s) && Completes(s, FinishWrite(S.Stored)) && s.writer == Some(Handler) && s.h.Writing? && s.h.op.AdmitInput?
      && m in Current(s).messages
    ensures var s, t := After(actions), Step(After(actions), FinishWrite(S.Stored));
      && IsOpen(t) && t.core.store.disk == t.core.store.current
      && (m in Current(t).messages <==> !OldestFinished(Current(s), m) || |Current(s).messages| < MAX_MESSAGES)
  {
    var s := After(actions);
    RunKnown(actions);
    RunPlaced(actions);
    FitDistinct(s);
    AdmissionStored(s);
    assert PcOf(s, Handler) == s.h;
    var i :| 0 <= i < |Current(s).messages| && Current(s).messages[i] == m;
    FreshInput(s, m);
    AdmitKeepsExactly(Current(s), Admitted(s.h.op, s.h.nativeId), i);
  }

  lemma FreshInput(s: System, m: Input)
    requires Known(s) && IsOpen(s) && s.h.Writing? && s.h.op.AdmitInput? && m in Current(s).messages
    ensures m.nativeId != s.h.nativeId
  {
  }

  lemma AdmissionStored(s: System)
    requires Inv(s) && IsOpen(s) && Completes(s, FinishWrite(S.Stored)) && s.writer == Some(Handler) && s.h.Writing? && s.h.op.AdmitInput?
    ensures var t := Step(s, FinishWrite(S.Stored));
      IsOpen(t) && t.core.store.disk == t.core.store.current && Current(t) == Admit(Current(s), Admitted(s.h.op, s.h.nativeId))
  {
    HandlerWrite(s);
    var base := s.(core := S.Step(s.core, S.Finish(S.Stored)), writer := None);
    assert Step(s, FinishWrite(S.Stored)) == Done(base, Handler, s.h.op, s.h.attempted);
    DoneCore(base, Handler, s.h.op, s.h.attempted);
  }

  // ------------------------------------------------------------------ recovery

  /** The recovered state: nothing is pending, and exactly the accepted inputs of `b` still are, all in the next run. */
  ghost predicate RecoveredFrom(b: Body, next: Body, nextRun: nat) {
    && |next.messages| == |b.messages|
    && forall i :: 0 <= i < |b.messages| ==>
         && !Pending(next.messages[i])
         && (next.messages[i].status == Accepted <==> b.messages[i].status == Accepted)
         && (Terminal(b.messages[i]) ==> next.messages[i].status == b.messages[i].status)
         && (next.messages[i].status == Accepted ==> next.messages[i].runId == nextRun)
         && (next.messages[i].settings.Some? ==> next.messages[i].status == Accepted)
  }

  /**
   Whatever run left the file: once a reopened runtime is initialised, its memory and its file are the
   recovered form of the file that it found.
   */
  lemma RecoveredFile(actions: seq<Action>)
    requires var s := After(actions);
      IsOpen(s) && Completes(s, FinishWrite(S.Stored)) && s.writer == Some(Handler) && s.h.Writing? && s.h.op.Initialize?
    ensures var s, t := After(actions), Step(After(actions), FinishWrite(S.Stored));
      && t.initialised && IsOpen(t) && t.core.store.disk == t.core.store.current
      && RecoveredFrom(Current(s), Current(t), s.h.op.nextRun)
      && (s.core.store.disk.Some? ==> Current(s) == s.core.store.disk.value.body)
  {
    var s := After(actions);
    RunInv(actions);
    if s.core.store.disk.Some? { WritingMirrors(actions); }
    RecoveryStored(s);
    RecoveryKeepsOnlyAccepted(Current(s), s.core.store.current.value.revision == 0, s.h.op.seed, s.h.op.nextRun);
  }

  lemma RecoveryStored(s: System)
    requires Inv(s) && IsOpen(s) && Completes(s, FinishWrite(S.Stored)) && s.writer == Some(Handler) && s.h.Writing? && s.h.op.Initialize?
    ensures var t := Step(s, FinishWrite(S.Stored));
      && t.initialised && IsOpen(t) && t.core.store.disk == t.core.store.current
      && Current(t) == Recover(Current(s), s.core.store.current.value.revision == 0, s.h.op.seed, s.h.op.nextRun)
  {
    assert PcOf(s, Handler) == s.h;
    var base := s.(core := S.Step(s.core, S.Finish(S.Stored)), writer := None);
    assert Step(s, FinishWrite(S.Stored)) == Done(base, Handler, s.h.op, s.h.attempted);
  }
}
