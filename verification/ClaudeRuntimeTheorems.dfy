/** What the runtime invariant means for whole runs. */
module ClaudeRuntimeTheorems {
  import opened Wrappers
  import opened ClaudeState
  import opened ClaudeCallbacks
  import opened ClaudeCallbackFacts
  import opened ClaudeRuntime
  import opened ClaudeRuntimeInvariant
  import opened ClaudeRuntimeWrites
  import P = ClaudeProtocol
  import S = ClaudeStore

  // -------------------------------------------- the store inside the runtime

  lemma FailCore(s: System, task: Task, op: Op)
    requires S.Inv(s.core)
    ensures S.Inv(Fail(s, task, op).core)
  {
    S.StepPreserves(s.core, S.Discard);
    S.StepPreserves(s.core, S.AbortFlush);
  }

  lemma DoneCore(s: System, task: Task, op: Op, attempted: bool)
    ensures Done(s, task, op, attempted).core == s.core
  {
  }

  lemma BeginOpCore(s: System, task: Task, op: Op, nativeId: nat, accepting: bool)
    requires S.Inv(s.core)
    ensures S.Inv(BeginOp(s, task, op, nativeId, accepting).core)
  {
    var body := if IsOpen(s) then Mutate(op, s.core.store.current.value, nativeId, accepting) else None;
    if CanWrite(s, body, EventsOf(op)) {
      S.StepPreserves(s.core, S.Begin(body.value, EventsOf(op)));
      assert BeginOp(s, task, op, nativeId, accepting).core == S.Step(s.core, S.Begin(body.value, EventsOf(op)));
    } else {
      FailCore(s, task, op);
      assert BeginOp(s, task, op, nativeId, accepting) == Fail(s, task, op);
    }
  }

  lemma BeginHeadCore(s: System, nativeId: nat, accepting: bool)
    requires S.Inv(s.core)
    ensures S.Inv(BeginHeadStep(s, nativeId, accepting).core)
  {
    if s.queue != [] && s.writer.None? && nativeId !in s.used + s.foreign {
      var task, base := s.queue[0], s.(queue := s.queue[1..]);
      if task.Publisher? {
        S.StepPreserves(s.core, S.BeginAck);
        FailCore(base, task, MarkRun(0));
      } else if PcOf(s, task).Queued? {
        BeginOpCore(base, task, PcOf(s, task).op, nativeId, accepting);
      }
    }
  }

  lemma FinishWriteCore(s: System, outcome: S.WriteOutcome)
    requires S.Inv(s.core)
    ensures S.Inv(FinishWriteStep(s, outcome).core)
  {
    if s.writer.Some? && !(s.a.Sending? && !s.a.first) {
      S.StepPreserves(s.core, S.Finish(outcome));
      var task, base := s.writer.value, s.(core := S.Step(s.core, S.Finish(outcome)), writer := None);
      if !task.Publisher? && PcOf(s, task).Writing? {
        FailCore(base, task, PcOf(s, task).op);
        DoneCore(base, task, PcOf(s, task).op, PcOf(s, task).attempted);
      }
    }
  }

  predicate HandlerAction(action: Action) {
    || action.HandlerStart? || action.HandlerAdmit? || action.HandlerRetry? || action.HandlerCancel? || action.HandlerReset?
    || action.HandlerResume? || action.HandlerReady? || action.HandlerSend?
  }

  predicate ActivityAction(action: Action) {
    || action.ActivitySkipped? || action.ActivityLaunch? || action.ActivitySend? || action.ActivityNext? || action.ActivityResume?
    || action.ActivityDrained? || action.ActivitySettle? || action.ActivityClosed?
  }

  lemma HandlerControlCore(s: System, action: Action)
    requires action.HandlerCancel? || action.HandlerReset? || action.HandlerAdmit? || action.HandlerRetry?
    ensures Step(s, action).core == s.core
  {
  }

  lemma HandlerCore(s: System, action: Action)
    requires HandlerAction(action)
    ensures Step(s, action).core == s.core
  {
    if action.HandlerCancel? || action.HandlerReset? || action.HandlerAdmit? || action.HandlerRetry? { HandlerControlCore(s, action); }
  }

  lemma ActivityCore(s: System, action: Action)
    requires ActivityAction(action)
    ensures Step(s, action).core == s.core
  {
  }

  lemma BystanderCore(s: System, action: Action)
    requires action.ObserveEvents? || action.CancelHook? || action.StreamCloses?
    ensures Step(s, action).core == s.core
  {
  }

  lemma StoreActionCore(s: System, action: Action)
    requires S.Inv(s.core)
    requires action.Crash? || action.Open? || action.Weigh? || action.StartFlush? || action.SendPart? || action.AbortFlush?
    ensures S.Inv(Step(s, action).core)
  {
    if action.Crash? { S.StepPreserves(s.core, S.Crash(action.landed)); }
    else if action.Open? { S.StepPreserves(s.core, S.Open(action.conversationId)); }
    else if action.Weigh? { S.StepPreserves(s.core, S.Weigh(action.sizes)); }
    else if action.StartFlush? { S.StepPreserves(s.core, S.StartFlush); }
    else if action.SendPart? { S.StepPreserves(s.core, S.SendPart); }
    else { S.StepPreserves(s.core, S.AbortFlush); }
  }

  /** Every step leaves the store alone, or is one step of it. */
  lemma StepCore(s: System, action: Action)
    requires S.Inv(s.core)
    ensures S.Inv(Step(s, action).core)
  {
    if action.BeginHead? {
      BeginHeadCore(s, action.nativeId, action.accepting);
    } else if action.FinishWrite? {
      FinishWriteCore(s, action.write);
    } else if HandlerAction(action) {
      HandlerCore(s, action);
    } else if ActivityAction(action) {
      ActivityCore(s, action);
    } else if action.ObserveEvents? || action.CancelHook? || action.StreamCloses? {
      BystanderCore(s, action);
    } else {
      StoreActionCore(s, action);
    }
  }

  lemma {:induction false} CoreInv(actions: seq<Action>)
    ensures S.Inv(After(actions).core)
  {
    if actions != [] {
      CoreInv(actions[..|actions| - 1]);
      StepCore(After(actions[..|actions| - 1]), actions[|actions| - 1]);
    }
  }

  // ------------------------------------------------------------ main theorems

  /** Over every run, with crashes, ambiguous writes and restarts, no native ID is handed to a native stream twice. */
  lemma AtMostOneDelivery(actions: seq<Action>)
    ensures NoRepeats(After(actions).written)
  {
    RunInv(actions);
  }

  ghost predicate AcceptedSomewhere(s: System, n: nat) {
    var store := s.core.store;
    || (store.disk.Some? && AcceptedIn(store.disk.value.body, n))
    || (store.current.Some? && AcceptedIn(store.current.value.body, n))
    || (store.writing.Some? && AcceptedIn(store.writing.value.body, n))
  }

  lemma FailWrites(s: System, task: Task, op: Op)
    ensures Fail(s, task, op).written == s.written
  {
  }

  lemma DoneWrites(s: System, task: Task, op: Op, attempted: bool)
    ensures Done(s, task, op, attempted).written == s.written
  {
  }

  lemma BeginHeadWrites(s: System, nativeId: nat, accepting: bool)
    ensures BeginHeadStep(s, nativeId, accepting).written == s.written
  {
    if s.queue != [] {
      var base := s.(queue := s.queue[1..]);
      FailWrites(base, s.queue[0], MarkRun(0));
      if PcOf(s, s.queue[0]).Queued? { FailWrites(base, s.queue[0], PcOf(s, s.queue[0]).op); }
    }
  }

  lemma FinishWriteWrites(s: System, outcome: S.WriteOutcome)
    ensures FinishWriteStep(s, outcome).written == s.written
  {
    if s.writer.Some? && PcOf(s, s.writer.value).Writing? {
      var base, pc := s.(core := S.Step(s.core, S.Finish(outcome)), writer := None), PcOf(s, s.writer.value);
      FailWrites(base, s.writer.value, pc.op);
      DoneWrites(base, s.writer.value, pc.op, pc.attempted);
    }
  }

  lemma HandlerGrows(s: System, action: Action)
    requires HandlerAction(action)
    ensures s.written <= Step(s, action).written && (!action.HandlerSend? ==> Step(s, action).written == s.written)
  {
  }

  lemma ActivityGrows(s: System, action: Action)
    requires ActivityAction(action) && !action.ActivitySend? && !action.ActivitySettle?
    ensures Step(s, action).written == s.written
  {
  }

  lemma ActivityEndGrows(s: System, action: Action)
    requires action.ActivitySend? || action.ActivitySettle?
    ensures s.written <= Step(s, action).written && (!action.ActivitySend? ==> Step(s, action).written == s.written)
  {
  }

  /** Only the two hand-offs write anything. */
  lemma StepGrows(s: System, action: Action)
    ensures s.written <= Step(s, action).written
    ensures !action.HandlerSend? && !action.ActivitySend? ==> Step(s, action).written == s.written
  {
    if HandlerAction(action) {
      HandlerGrows(s, action);
    } else if action.ActivitySend? || action.ActivitySettle? {
      ActivityEndGrows(s, action);
    } else if ActivityAction(action) {
      ActivityGrows(s, action);
    } else if action.BeginHead? {
      BeginHeadWrites(s, action.nativeId, action.accepting);
    } else if action.FinishWrite? {
      FinishWriteWrites(s, action.write);
    }
  }

  lemma AfterAppend(before: seq<Action>, action: Action)
    ensures After(before + [action]) == Step(After(before), action)
  {
    assert (before + [action])[..|before|] == before;
  }

  lemma {:induction false} RunGrows(before: seq<Action>, after: seq<Action>)
    ensures After(before).written <= After(before + after).written
  {
    if after == [] {
      assert before + after == before;
    } else {
      var shorter, last := after[..|after| - 1], after[|after| - 1];
      RunGrows(before, shorter);
      assert before + after == (before + shorter) + [last];
      AfterAppend(before + shorter, last);
      StepGrows(After(before + shorter), last);
    }
  }

  /**
   Once an input's bytes were written it is never accepted again: not in memory, not in the file, not in a
   write in progress, at no later point of any run. Since a hand-off is itself a step, the durable move away
   from accepted also precedes it.
   */
  lemma WrittenIsNeverAcceptedAgain(before: seq<Action>, after: seq<Action>, n: nat)
    requires n in After(before).written
    ensures !AcceptedSomewhere(After(before + after), n)
  {
    RunGrows(before, after);
    RunInv(before + after);
  }

  /** A new run, after recovery or not, starts only with an accepted input that nothing has been written of. */
  lemma RunsStartUnwritten(actions: seq<Action>)
    ensures var s := After(actions);
            Prestart(s.a) ==> IsOpen(s) && AcceptedIn(Current(s), FirstOf(s.a).nativeId) && FirstOf(s.a).nativeId !in s.written
  {
    RunInv(actions);
    var s := After(actions);
    if Prestart(s.a) {
      HasFirstAccepted(Current(s), FirstOf(s.a));
      assert FirstOf(s.a).nativeId !in Blocked(s);
    }
  }

  /** After the recovery commit nothing is pending, and exactly the inputs that were accepted still are. */
  lemma RecoveryKeepsOnlyAccepted(b: Body, isNew: bool, seed: Option<(nat, bool)>, nextRun: nat)
    ensures var b' := Recover(b, isNew, seed, nextRun);
            && |b'.messages| == |b.messages|
            && forall i :: 0 <= i < |b.messages| ==>
                 && !Pending(b'.messages[i])
                 && (b'.messages[i].status == Accepted <==> b.messages[i].status == Accepted)
                 && (Terminal(b.messages[i]) ==> b'.messages[i].status == b.messages[i].status)
                 && (b'.messages[i].status == Accepted ==> b'.messages[i].runId == nextRun)
                 && (b'.messages[i].settings.Some? ==> b'.messages[i].status == Accepted)
  {
    assert forall i :: 0 <= i < |b.messages| ==>
             Recover(b, isNew, seed, nextRun).messages[i]
             == RecoverInput(b.messages[i], b.run, b.run.Some? && b.run.value.status == RunCancelling, nextRun);
  }

  /** A completed input was echoed by the native process, and a successful result of the same run followed. */
  lemma CompletedOnlyAfterEchoAndResult(actions: seq<Action>, state: State, i: nat)
    requires After(actions).core.store.disk == Some(state) || After(actions).core.store.current == Some(state)
    requires i < |state.body.messages| && state.body.messages[i].status == Completed
    ensures var m := state.body.messages[i];
            EchoedThenResult(After(actions).log, m.runId, m.nativeId)
  {
    RunInv(actions);
  }

  /** Every file the runtime leaves behind passes `decode`, and holds settings only of accepted inputs. */
  lemma FilesDecode(actions: seq<Action>)
    ensures var disk := After(actions).core.store.disk;
            disk.Some? ==> Decodes(disk.value) && SettingsErased(disk.value.body)
  {
    RunInv(actions);
    CoreInv(actions);
  }

  /** The publications of any run of the runtime fold, at any client, to the highest revision sent. */
  lemma ClientsFollowTheRuntime(actions: seq<Action>, initial: View)
    ensures var sent := After(actions).core.sent;
            && P.Fold(initial, sent).Ok? && P.Newest(initial, sent, P.Fold(initial, sent).value)
            && forall i, j :: 0 <= i < |sent| && 0 <= j < |sent| && sent[i].publication.revision == sent[j].publication.revision
                 ==> sent[i].publication == sent[j].publication
  {
    CoreInv(actions);
    var core := After(actions).core;
    forall k | 0 <= k < |core.sent|
      ensures core.sent[k].publication.view.revision == core.sent[k].publication.revision <= MAX_SAFE_INTEGER
    {
      assert core.sent[k].publication in core.history;
    }
    P.FoldIsNewest(initial, core.sent);
  }

  // ------------------------------------------------ when recovery is possible

  function From(s: System, actions: seq<Action>): System {
    if actions == [] then s else Step(From(s, actions[..|actions| - 1]), actions[|actions| - 1])
  }

  /** The recovery commit itself needs room in the outbox. */
  predicate HasRoom(disk: Option<State>) {
    disk.Some? ==> |disk.value.outbox| < MAX_PUBLICATIONS && disk.value.revision < MAX_SAFE_INTEGER
  }

  /** The view of the recovered state can be brought within its budget. */
  predicate RecoveryFits(disk: Option<State>) {
    disk.Some? ==>
      var b := disk.value.body;
      ViewFits(disk.value.revision + 1, b.(run := RecoverRun(b.run)), disk.value.sizes.usage)
  }

  /** What can be read off the file: its size, its outbox and revision, and its run. */
  predicate Recoverable(disk: Option<State>) {
    S.Opens(disk) && HasRoom(disk) && RecoveryFits(disk)
  }

  lemma RecoveredViewFits(revision: nat, b: Body, isNew: bool, seed: Option<(nat, bool)>, nextRun: nat, usage: nat)
    ensures ViewFits(revision, Recover(b, isNew, seed, nextRun), usage) <==> ViewFits(revision, b.(run := RecoverRun(b.run)), usage)
  {
    assert Recover(b, isNew, seed, nextRun).messages == [] <==> b.messages == [];
  }

  /** Closed, or waiting for a recovery commit that will be refused. */
  ghost predicate Wedged(s: System, disk: Option<State>) {
    && Inv(s) && !Recoverable(disk) && s.core.store.disk == disk
    && !s.initialised && s.core.store.writing.None?
    && (IsOpen(s) ==> s.core.store.current == disk && s.core.sizes == disk.value.sizes && S.Opens(disk))
  }

  lemma WedgedQueue(s: System, disk: Option<State>)
    requires Wedged(s, disk) && s.queue != []
    ensures s.queue[0] == Handler && s.h.Queued? && s.h.op.Initialize?
  {
    var task := s.queue[0];
    assert task in s.queue && (task.Publisher? || PcOf(s, task).Queued?);
  }

  /** The recovery commit of a wedged runtime is rejected. */
  lemma WedgedRejects(s: System, disk: Option<State>, nativeId: nat, accepting: bool)
    requires Wedged(s, disk) && s.queue != [] && s.writer.None?
    ensures s.h.Queued? && s.h.op.Initialize?
    ensures var t := BeginHeadStep(s, nativeId, accepting);
      t == s || t == Fail(s.(queue := s.queue[1..]), Handler, s.h.op)
  {
    WedgedQueue(s, disk);
    var op := s.h.op;
    RecoveredViewFits(disk.value.revision + 1, disk.value.body, disk.value.revision == 0, op.seed, op.nextRun, disk.value.sizes.usage);
  }

  lemma WedgedStays(s: System, disk: Option<State>, action: Action)
    requires Wedged(s, disk)
    ensures Wedged(Step(s, action), disk) && Step(s, action).written == s.written
  {
    StepKeeps(s, action);
    WedgedWrites(s, disk, action);
    WedgedFile(s, disk, action);
  }

  lemma WedgedWrites(s: System, disk: Option<State>, action: Action)
    requires Wedged(s, disk)
    ensures Step(s, action).written == s.written
  {
    StepGrows(s, action);
  }

  lemma WedgedFile(s: System, disk: Option<State>, action: Action)
    requires Wedged(s, disk)
    ensures var t := Step(s, action);
      && t.core.store.disk == disk && !t.initialised && t.core.store.writing.None?
      && (IsOpen(t) ==> t.core.store.current == disk && t.core.sizes == disk.value.sizes && S.Opens(disk))
  {
    if action.BeginHead? { WedgedHead(s, disk, action.nativeId, action.accepting); }
  }

  lemma WedgedHead(s: System, disk: Option<State>, nativeId: nat, accepting: bool)
    requires Wedged(s, disk)
    ensures var t := BeginHeadStep(s, nativeId, accepting);
      && t.core.store.disk == disk && !t.initialised && t.core.store.writing.None?
      && (IsOpen(t) ==> t.core.store.current == disk && t.core.sizes == disk.value.sizes && S.Opens(disk))
  {
    if s.queue != [] && s.writer.None? { WedgedRejects(s, disk, nativeId, accepting); }
  }

  lemma {:induction false} WedgedForever(s: System, disk: Option<State>, actions: seq<Action>)
    requires Wedged(s, disk)
    ensures Wedged(From(s, actions), disk) && From(s, actions).written == s.written
  {
    if actions != [] {
      WedgedForever(s, disk, actions[..|actions| - 1]);
      WedgedStays(From(s, actions[..|actions| - 1]), disk, actions[|actions| - 1]);
    }
  }

  /** Opening, and one recovery commit that succeeds. */
  const RECOVERY: seq<Action> := [Open(0, None, 0), BeginHead(0, false), FinishWrite(S.Stored)]

  lemma FromThree(s: System, a: Action, b: Action, c: Action)
    ensures From(s, [a, b, c]) == Step(Step(Step(s, a), b), c)
  {
    var all := [a, b, c];
    assert all[..2] == [a, b] && [a, b][..1] == [a] && [a][..0] == [];
    assert From(s, []) == s;
    assert From(s, [a]) == Step(s, a);
    assert From(s, [a, b]) == Step(From(s, [a]), b);
  }

  lemma OpenStep(s: System)
    requires !IsOpen(s) && s.queue == [] && !s.core.store.fenced && s.core.store.writing.None? && s.writer.None? && s.a.Idle?
    requires S.Opens(s.core.store.disk)
    ensures var t := Step(s, Open(0, None, 0));
            && t.core.sizes == S.Loaded(s.core.store.disk, 0).sizes
            && t.core.store.current.Some? && t.core.store.disk == s.core.store.disk && S.CanBegin(t.core.store)
            && (s.core.store.disk.Some? ==> t.core.store.current == s.core.store.disk)
            && (s.core.store.disk.None? ==> t.core.store.current == Some(FreshState(0)))
            && t.queue == [Handler] && t.h == Queued(Initialize(None, 0)) && t.writer.None? && t.a.Idle?
            && t.used == s.used && t.foreign == s.foreign
  {
  }

  predicate Attempts(b: Body, op: Op) {
    op.ClaimInput? && ClaimAttempts(b, op.delivery.id)
  }

  /** The head of the chain takes its turn. */
  lemma HeadBegins(s: System, task: Task, op: Op, nativeId: nat)
    requires s.queue != [] && s.queue[0] == task && !task.Publisher? && s.writer.None?
    requires PcOf(s, task) == Queued(op) && nativeId !in s.used + s.foreign
    ensures Step(s, BeginHead(nativeId, false)) == BeginOp(s.(queue := s.queue[1..]), task, op, nativeId, false)
  {
  }

  lemma BeginsWriting(s: System, task: Task, op: Op, nativeId: nat, next: Body)
    requires IsOpen(s) && CanWrite(s, Some(next), EventsOf(op)) && (task.Handler? || task.Activity?) && !op.ObserveBatch?
    requires Mutate(op, s.core.store.current.value, nativeId, false) == Some(next)
    ensures BeginOp(s, task, op, nativeId, false) == SetPc(s, task, Writing(op, Attempts(Current(s), op), nativeId, false)).(
      core := S.Step(s.core, S.Begin(next, EventsOf(op))), writer := Some(task),
      used := if op.AdmitInput? then s.used + {nativeId} else s.used)
  {
  }

  lemma DraftIsWritten(core: S.StoreSystem, body: Body)
    requires S.CanBegin(core.store) && S.CommitDraft(core.store.current.value, body, [], core.sizes).Some?
    ensures var state, writing := core.store.current.value, S.Step(core, S.Begin(body, [])).store.writing;
      && writing.Some? && writing.value.body == body && writing.value.sizes == core.sizes
      && |writing.value.outbox| == |state.outbox| + 1 && writing.value.revision == state.revision + 1
  {
  }

  lemma RecoveryTurn(s: System, op: Op, nativeId: nat, body: Body)
    requires s.core.store.current.Some? && s.writer.None? && s.queue == [Handler] && s.h == Queued(op) && op.Initialize?
    requires nativeId !in s.used + s.foreign && Mutate(op, s.core.store.current.value, nativeId, false) == Some(body)
    requires CanWrite(s, Some(body), [])
    ensures Step(s, BeginHead(nativeId, false)) ==
      s.(core := S.Step(s.core, S.Begin(body, [])), queue := [], writer := Some(Handler), h := Writing(op, false, nativeId, false))
  {
    HeadBegins(s, Handler, op, nativeId);
    BeginsWriting(s.(queue := s.queue[1..]), Handler, op, nativeId, body);
  }

  lemma BeginRecovery(s: System, nativeId: nat)
    requires s.core.store.current.Some? && S.CanBegin(s.core.store) && s.queue == [Handler]
    requires s.h == Queued(Initialize(None, 0)) && s.writer.None? && s.a.Idle? && nativeId !in s.used + s.foreign
    requires var state := s.core.store.current.value;
      && |state.outbox| < MAX_PUBLICATIONS && state.revision < MAX_SAFE_INTEGER
      && ViewFits(state.revision + 1, state.body.(run := RecoverRun(state.body.run)), s.core.sizes.usage)
    ensures var t, state := Step(s, BeginHead(nativeId, false)), s.core.store.current.value;
            && t.core.store.writing.Some? && t.writer == Some(Handler) && t.queue == []
            && |t.core.store.writing.value.outbox| == |state.outbox| + 1 && t.core.store.writing.value.revision == state.revision + 1
            && t.core.store.writing.value.body == Recover(state.body, state.revision == 0, None, 0)
            && t.core.store.writing.value.sizes == s.core.sizes
            && t.h == Writing(Initialize(None, 0), false, nativeId, false) && t.a.Idle? && t.used == s.used && t.foreign == s.foreign
  {
    var op, state := Initialize(None, 0), s.core.store.current.value;
    var body := Recover(state.body, state.revision == 0, None, 0);
    RecoveredViewFits(state.revision + 1, state.body, state.revision == 0, None, 0, s.core.sizes.usage);
    DraftIsWritten(s.core, body);
    RecoveryTurn(s, op, nativeId, body);
  }

  lemma FinishRecovery(s: System)
    requires s.core.store.writing.Some? && s.writer == Some(Handler) && s.a.Idle? && s.h.Writing? && s.h.op.Initialize?
    ensures var t := Step(s, FinishWrite(S.Stored));
            && t.initialised && t.core.store.disk == s.core.store.writing && t.core.store.writing.None?
            && t.queue == s.queue && t.used == s.used && t.foreign == s.foreign
  {
  }

  lemma RecoverySucceeds(s: System, nativeId: nat)
    requires Inv(s) && !IsOpen(s) && s.queue == [] && !s.core.store.fenced && Recoverable(s.core.store.disk)
    requires nativeId !in s.used + s.foreign
    ensures From(s, [Open(0, None, 0), BeginHead(nativeId, false), FinishWrite(S.Stored)]).initialised
  {
    OpenStep(s);
    var reopened := Step(s, Open(0, None, 0));
    BeginRecovery(reopened, nativeId);
    FinishRecovery(Step(reopened, BeginHead(nativeId, false)));
    FromThree(s, Open(0, None, 0), BeginHead(nativeId, false), FinishWrite(S.Stored));
  }

  lemma UnusedExists(used: set<nat>) returns (n: nat)
    ensures n !in used
  {
    n := Above(used);
  }

  /** A number above every member of a finite set. */
  ghost function Above(used: set<nat>): (n: nat)
    ensures forall m :: m in used ==> m < n
  {
    if used == {} then 0
    else
      var m :| m in used;
      var rest := Above(used - {m});
      assert forall k :: k in used ==> k == m || k in used - {m};
      if rest > m then rest else m + 1
  }

  /**
   A stopped runtime can be brought back exactly when its file is within the size limit, has room in its
   outbox for the recovery commit, and lists so few inputs in its run that the view of the recovered state
   fits. Otherwise every later attempt fails for good: nothing is published, nothing is delivered, the file
   never changes.
   */
  lemma RecoversExactly(s: System)
    requires Inv(s) && !IsOpen(s) && s.queue == [] && !s.core.store.fenced
    ensures (exists actions :: From(s, actions).initialised) <==> Recoverable(s.core.store.disk)
  {
    if Recoverable(s.core.store.disk) {
      var n := UnusedExists(s.used + s.foreign);
      RecoverySucceeds(s, n);
    } else {
      forall actions ensures !From(s, actions).initialised {
        WedgedForever(s, s.core.store.disk, actions);
      }
    }
  }

  /** A restart that recovers and stops again before anything was acknowledged. */
  function Restarts(count: nat): seq<Action> {
    if count == 0 then [] else Restarts(count - 1) + RECOVERY + [Crash(false)]
  }

  lemma CrashStep(s: System)
    ensures var t := Step(s, Crash(false));
            && !IsOpen(t) && !t.core.store.fenced && t.core.store.writing.None? && t.core.store.disk == s.core.store.disk
            && t.queue == [] && t.writer.None? && t.a.Idle? && t.used == s.used && t.foreign == s.foreign
  {
  }

  /** What such a restart leaves: a stopped runtime whose file holds one more publication than before. */
  ghost predicate Filled(s: System, count: nat) {
    && !IsOpen(s) && !s.core.store.fenced && s.core.store.writing.None?
    && s.queue == [] && s.writer.None? && s.a.Idle? && s.used == {} && s.foreign == {}
    && (if count == 0 then s.core.store.disk.None?
        else s.core.store.disk.Some? && Bare(s.core.store.disk.value, count))
  }

  /** A state without inputs, and with so many publications. */
  ghost predicate Bare(state: State, count: nat) {
    |state.outbox| == count == state.revision && state.body.messages == [] && state.body.run.None? && state.sizes == NO_SIZES
  }

  lemma {:induction false} FewDigits(n: nat)
    ensures Digits(n) <= n + 1
  {
    if n >= 10 { FewDigits(n / 10); }
  }

  lemma BareFits(state: State, count: nat)
    requires Bare(state, count) && count <= MAX_PUBLICATIONS
    ensures FileBytes(state) == 0 && ViewFits(state.revision + 1, state.body.(run := RecoverRun(state.body.run)), 0)
  {
    FewDigits(state.revision + 1);
  }

  lemma RecoveredIsBare(b: Body)
    requires b.messages == [] && b.run.None?
    ensures var r := Recover(b, true, None, 0); r.messages == [] && r.run.None?
    ensures var r := Recover(b, false, None, 0); r.messages == [] && r.run.None?
  {
  }

  /** A runtime whose recovery commit waits for its turn, over a file with so many publications. */
  ghost predicate Reopened(s: System, count: nat) {
    && s.core.store.current.Some? && S.CanBegin(s.core.store) && s.core.sizes == NO_SIZES && Bare(s.core.store.current.value, count)
    && s.queue == [Handler] && s.h == Queued(Initialize(None, 0)) && s.writer.None? && s.a.Idle? && s.used == {} && s.foreign == {}
  }

  ghost predicate Recovering(s: System, count: nat) {
    && s.core.store.writing.Some? && s.writer == Some(Handler) && s.a.Idle? && s.h.Writing? && s.h.op.Initialize?
    && Bare(s.core.store.writing.value, count)
    && s.queue == [] && s.used == {} && s.foreign == {}
  }

  lemma FilledReopens(before: seq<Action>, count: nat)
    requires Filled(After(before), count) && count <= MAX_PUBLICATIONS
    ensures Reopened(After(before + [Open(0, None, 0)]), count)
  {
    if count > 0 { BareFits(After(before).core.store.disk.value, count); }
    OpenStep(After(before));
    AfterAppend(before, Open(0, None, 0));
  }

  lemma ReopenedRecovers(before: seq<Action>, count: nat)
    requires count < MAX_PUBLICATIONS && Reopened(After(before), count)
    ensures Recovering(After(before + [BeginHead(0, false)]), count + 1)
  {
    BareFits(After(before).core.store.current.value, count);
    RecoveredIsBare(After(before).core.store.current.value.body);
    BeginRecovery(After(before), 0);
    AfterAppend(before, BeginHead(0, false));
  }

  lemma RecoveringFills(before: seq<Action>, count: nat)
    requires count > 0 && Recovering(After(before), count)
    ensures Filled(After(before + [FinishWrite(S.Stored)] + [Crash(false)]), count)
  {
    var finished := before + [FinishWrite(S.Stored)];
    FinishRecovery(After(before));
    AfterAppend(before, FinishWrite(S.Stored));
    CrashStep(After(finished));
    AfterAppend(finished, Crash(false));
  }

  lemma RestartsNext(count: nat)
    requires count > 0
    ensures Restarts(count) == Restarts(count - 1) + [Open(0, None, 0)] + [BeginHead(0, false)] + [FinishWrite(S.Stored)] + [Crash(false)]
  {
  }

  /** Such restarts fill the outbox, so after 256 of them the full outbox is reached. */
  lemma {:induction false} RestartsFillTheOutbox(count: nat)
    requires count <= MAX_PUBLICATIONS
    ensures Filled(After(Restarts(count)), count)
  {
    if count > 0 {
      var before := Restarts(count - 1);
      RestartsFillTheOutbox(count - 1);
      FilledReopens(before, count - 1);
      ReopenedRecovers(before + [Open(0, None, 0)], count - 1);
      RecoveringFills(before + [Open(0, None, 0)] + [BeginHead(0, false)], count);
      RestartsNext(count);
    }
  }

  /** 256 restarts without a completed flush leave a runtime that no later step can bring back. */
  lemma RestartsCanWedge(actions: seq<Action>)
    ensures !From(After(Restarts(MAX_PUBLICATIONS)), actions).initialised
  {
    var s := After(Restarts(MAX_PUBLICATIONS));
    RestartsFillTheOutbox(MAX_PUBLICATIONS);
    RunInv(Restarts(MAX_PUBLICATIONS));
    WedgedForever(s, s.core.store.disk, actions);
  }
}
