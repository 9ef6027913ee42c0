/** The steps of the operation chain keep the runtime invariant. */
module ClaudeRuntimeWrites {
  import opened Wrappers
  import opened ClaudeState
  import opened ClaudeCallbacks
  import opened ClaudeCallbackFacts
  import opened ClaudeRuntime
  import opened ClaudeRuntimeInvariant
  import opened ClaudeRuntimeFrames
  import opened ClaudeRuntimeSteps
  import S = ClaudeStore

  // ------------------------------------------------------------- the chain

  lemma TailMembers(queue: seq<Task>)
    requires queue != [] && forall i, j :: 0 <= i < j < |queue| ==> queue[i] != queue[j]
    ensures forall task: Task :: task in queue[1..] <==> task in queue && task != queue[0]
    ensures forall i, j :: 0 <= i < j < |queue[1..]| ==> queue[1..][i] != queue[1..][j]
  {
    forall task: Task ensures task in queue[1..] <==> task in queue && task != queue[0] {
      assert queue == [queue[0]] + queue[1..];
      if task in queue[1..] {
        var i :| 0 <= i < |queue[1..]| && queue[1..][i] == task;
        assert queue[i + 1] == task;
      }
    }
  }

  /** The head of the chain leaves it without writing. */
  lemma LeaveChain(s: System, t: System, task: Task)
    requires Chain(s) && s.queue != [] && s.queue[0] == task && !task.Publisher? && s.writer.None?
    requires t.queue == s.queue[1..] && t.writer == s.writer && t.core == s.core
    requires !Commits(PcOf(t, task))
    requires forall other: Task :: other != task ==> PcOf(t, other) == PcOf(s, other)
    ensures Chain(t)
  {
    TailMembers(s.queue);
  }

  lemma EnterWriting(s: System, t: System, task: Task)
    requires Chain(s) && s.queue != [] && s.queue[0] == task && !task.Publisher? && s.writer.None?
    requires t.queue == s.queue[1..] && t.writer == Some(task) && t.core.store.writing.Some? && t.core.flush == s.core.flush
    requires PcOf(t, task).Writing?
    requires forall other: Task :: other != task ==> PcOf(t, other) == PcOf(s, other)
    ensures Chain(t)
  {
    TailMembers(s.queue);
  }

  lemma LeaveWriting(s: System, t: System, task: Task)
    requires Chain(s) && s.writer == Some(task) && !task.Publisher?
    requires t.queue == s.queue && t.writer == None && t.core.store.writing.None? && t.core.flush == s.core.flush
    requires !Commits(PcOf(t, task))
    requires forall other: Task :: other != task ==> PcOf(t, other) == PcOf(s, other)
    ensures Chain(t)
  {
  }

  /** Dropping the head never puts the handler ahead of the activity. */
  lemma DequeueOrder(s: System, t: System)
    requires Chain(s) && s.queue != [] && t.queue == s.queue[1..]
    ensures HandlerAhead(t) ==> HandlerAhead(s)
    ensures s.queue[0] != Handler && HandlerAhead(s) ==> HandlerAhead(t)
    ensures s.queue[0] == Activity ==> !HandlerAhead(s)
    ensures s.queue[0] == Handler && Activity in s.queue ==> HandlerAhead(s)
  {
    if HandlerAhead(t) {
      var i, j :| 0 <= i < j < |t.queue| && t.queue[i] == Handler && t.queue[j] == Activity;
      assert s.queue[i + 1] == Handler && s.queue[j + 1] == Activity;
    }
    if HandlerAhead(s) && s.queue[0] != Handler {
      var i, j :| 0 <= i < j < |s.queue| && s.queue[i] == Handler && s.queue[j] == Activity;
      assert t.queue[i - 1] == Handler && t.queue[j - 1] == Activity;
    }
    if s.queue[0] == Handler && Activity in s.queue {
      var j :| 0 <= j < |s.queue| && s.queue[j] == Activity;
      assert s.queue[0] == Handler && 0 < j;
    }
  }

  lemma AheadIsQueued(s: System)
    requires Chain(s)
    ensures HandlerAhead(s) ==> s.h.Queued? && s.a.Queued?
  {
    if HandlerAhead(s) {
      assert PcOf(s, Handler).Queued? && PcOf(s, Activity).Queued?;
    }
  }

  // ------------------------------------------------------- a commit begins

  /** The callback of a waiting commit makes a fit body of the one in memory. */
  lemma OpFit(s: System, task: Task, op: Op, nativeId: nat, accepting: bool)
    requires Inv(s) && IsOpen(s) && PcOf(s, task) == Queued(op)
    requires Mutate(op, s.core.store.current.value, nativeId, accepting).Some? && nativeId !in s.used
    ensures var next := Mutate(op, s.core.store.current.value, nativeId, accepting).value;
            var mine := if op.ReleaseInput? then {op.delivery.nativeId} else {};
            Fit(next, Blocked(s) - mine, if op.AdmitInput? then s.used + {nativeId} else s.used,
                if op.ObserveBatch? then s.log + Tag(op.run, op.batch) else s.log)
  {
    var b, state := Current(s), s.core.store.current.value;
    match op
    case Initialize(seed, nextRun) => RecoverFit(b, state.revision == 0, seed, nextRun, Blocked(s), s.used, s.log);
    case AdmitInput(_, _, _, _, _, _) => AdmitFit(b, Admitted(op, nativeId), Blocked(s), s.used, s.log);
    case ClaimInput(d) => ClaimFit(b, d.id, Blocked(s), s.used, s.log);
    case StartFirst(d) => StartRunFit(b, d.run, d.id, Blocked(s), s.used, s.log);
    case ObserveBatch(run, batch) => ObserveFit(b, run, batch, accepting, Blocked(s), s.used, s.log);
    case FinaliseRun(run, _, outcome, code) => FinaliseFit(b, run, outcome, code, Blocked(s), s.used, s.log);
    case MarkRun(run) => MarkFit(b, run, Blocked(s), s.used, s.log);
    case CancelControl(requested, dormant, control) => CancelFit(b, requested, dormant, control, Blocked(s), s.used, s.log);
    case ResetControl(conversationId, control) => ResetFit(b, conversationId, control, Blocked(s), s.used, s.log);
    case ReleaseInput(d, nextRun) =>
      assert PcOf(s, task) == if task.Handler? then s.h else if task.Activity? then s.a else PcOf(s, task);
      var rest := Blocked(s) - {d.nativeId};
      FitWeakens(b, Blocked(s), s.used, s.log, rest, s.used, s.log);
      HasMatches(b, d.id, d.nativeId);
      ReleaseFit(b, d.run, d.id, nextRun, d.settings, d.nativeId, rest, s.used, s.log);
  }

  lemma HasMatches(b: Body, id: string, nativeId: nat)
    requires Distinct(b) && Has(b, id, nativeId)
    ensures Matches(b, id, nativeId)
  {
    var k :| 0 <= k < |b.messages| && b.messages[k].id == id && b.messages[k].nativeId == nativeId;
  }

  /** An input that is not finished survives an admission that has room. */
  lemma AdmitKeepsInput(b: Body, input: Input, i: nat)
    requires i < |b.messages| && !Terminal(b.messages[i])
    requires |b.messages| < MAX_MESSAGES || !NoTerminal(b)
    ensures exists j :: 0 <= j < |Admit(b, input).messages| && Admit(b, input).messages[j] == b.messages[i]
  {
    EvictKeeps(b.messages, i);
    var kept := Evict(b.messages);
    var j :| 0 <= j < |kept| && kept[j] == b.messages[i];
    assert Admit(b, input).messages[j] == kept[j];
  }

  /** What the activity relies on survives an admission that was queued ahead of it. */
  lemma AdmitKeepsActivity(s: System, input: Input)
    requires Inv(s) && IsOpen(s) && s.queue != [] && s.queue[0] == Handler && s.writer.None?
    requires s.h.Queued? && s.h.op.AdmitInput? && input.id == s.h.op.id
    ensures ActivityKnowsBody(s, Admit(Current(s), input))
  {
    var b, next := Current(s), Admit(Current(s), input);
    assert !PcOf(s, Activity).Writing?;
    if s.a.Queued? {
      assert PcOf(s, Activity).Queued? && Activity in s.queue;
      DequeueOrder(s, s.(queue := s.queue[1..]));
    }
    if Prestart(s.a) {
      var d := FirstOf(s.a);
      var k :| 0 <= k < |b.messages| && b.messages[k].id == d.id && b.messages[k].nativeId == d.nativeId
               && b.messages[k].runId == d.run && b.messages[k].status == Accepted;
      AdmitKeepsInput(b, input, k);
    } else if s.a.Queued? && s.a.op.ClaimInput? {
      AdmitMatches(b, input, s.a.op.delivery.id, s.a.op.delivery.nativeId);
    } else if ReleasedBy(s.a).Some? {
      var d := ReleasedBy(s.a).value;
      var k :| 0 <= k < |b.messages| && b.messages[k].id == d.id && b.messages[k].nativeId == d.nativeId && b.messages[k].status == Delivering;
      AdmitKeepsInput(b, input, k);
    }
  }

  /** What the activity relies on survives a change in place that leaves its first input alone. */
  lemma SameInputsKeepActivity(s: System, b: Body, next: Body)
    requires ActivityKnowsBody(s, b) && SameInputs(b, next)
    requires Prestart(s.a) ==>
               forall i :: 0 <= i < |b.messages| && b.messages[i].id == FirstOf(s.a).id && b.messages[i].status == Accepted
                 ==> next.messages[i] == b.messages[i]
    ensures ActivityKnowsBody(s, next)
  {
    if Prestart(s.a) {
      var d := FirstOf(s.a);
      var k :| 0 <= k < |b.messages| && b.messages[k].id == d.id && b.messages[k].nativeId == d.nativeId
               && b.messages[k].runId == d.run && b.messages[k].status == Accepted;
      assert next.messages[k] == b.messages[k];
    } else if Commits(s.a) && (s.a.op.ClaimInput? || s.a.op.ReleaseInput?) {
      SameInputsKeep(b, next, s.a.op.delivery.id, s.a.op.delivery.nativeId);
    } else if s.a.Sending? && !s.a.first {
      SameInputsKeep(b, next, s.a.delivery.id, s.a.delivery.nativeId);
    }
  }

  lemma HandlerBeginKeepsActivity(s: System, nativeId: nat, accepting: bool)
    requires Inv(s) && IsOpen(s) && s.queue != [] && s.queue[0] == Handler && s.writer.None? && s.h.Queued?
    requires Mutate(s.h.op, s.core.store.current.value, nativeId, accepting).Some?
    ensures ActivityKnowsBody(s, Mutate(s.h.op, s.core.store.current.value, nativeId, accepting).value)
  {
    var b, next := Current(s), Mutate(s.h.op, s.core.store.current.value, nativeId, accepting).value;
    if s.h.op.AdmitInput? {
      AdmitKeepsActivity(s, Admitted(s.h.op, nativeId));
    } else {
      HandlerOpWrites(s.h.op, s.core.store.current.value, nativeId, accepting);
      if s.h.op.CancelControl? {
        CancelFit(b, s.h.op.requested, s.h.op.dormant, s.h.op.control, Blocked(s), s.used, s.log);
      }
      SameInputsKeepActivity(s, b, next);
    }
  }

  /** An observation moves nothing the activity relies on: what it holds has not been written, so it is not echoed. */
  lemma ObserveKeepsActivity(s: System, run: nat, batch: seq<NativeEvent>, accepting: bool)
    requires Inv(s) && IsOpen(s) && Observe(Current(s), run, batch, accepting).Some?
    requires forall n :: n in Echoes(batch) ==> n in s.written || n in s.foreign
    ensures var b, next := Current(s), Observe(Current(s), run, batch, accepting).value;
            && ActivityKnowsBody(s, next)
            && (ReleasedBy(s.a).Some? ==>
                  var d := ReleasedBy(s.a).value; HasAs(b, d.id, d.nativeId, Delivering) ==> HasAs(next, d.id, d.nativeId, Delivering))
  {
    var b, next := Current(s), Observe(Current(s), run, batch, accepting).value;
    ObserveFit(b, run, batch, accepting, Blocked(s), s.used, s.log);
    forall i | 0 <= i < |b.messages| && b.messages[i].status == Accepted ensures next.messages[i] == b.messages[i] {
      ObserveKeepsAccepted(b, run, batch, accepting, i);
    }
    SameInputsKeepActivity(s, b, next);
    if ReleasedBy(s.a).Some? {
      var d := ReleasedBy(s.a).value;
      assert d.nativeId in ClaimOf(s.a);
      assert d.nativeId !in Echoes(batch);
      if HasAs(b, d.id, d.nativeId, Delivering) {
        var k :| 0 <= k < |b.messages| && b.messages[k].id == d.id && b.messages[k].nativeId == d.nativeId && b.messages[k].status == Delivering;
        ObserveKeepsDelivering(b, run, batch, accepting, k);
      }
    }
  }

  // --------------------------------------------------- beginning, in parts

  /** The head of the chain starts writing the body its callback made. */
  ghost predicate Begins(s: System, t: System, task: Task, op: Op, nativeId: nat, accepting: bool) {
    && s.queue != [] && s.queue[0] == task && !task.Publisher? && s.writer.None?
    && PcOf(s, task) == Queued(op) && nativeId !in s.used + s.foreign
    && IsOpen(s) && S.CanBegin(s.core.store)
    && Mutate(op, s.core.store.current.value, nativeId, accepting).Some?
    && t.core.store.writing.Some?
    && t.core.store.writing.value.body == Mutate(op, s.core.store.current.value, nativeId, accepting).value
    && t.core == S.Step(s.core, S.Begin(t.core.store.writing.value.body, EventsOf(op)))
    && t.core.store.current == s.core.store.current && t.core.store.disk == s.core.store.disk && t.core.flush == s.core.flush
    && t.queue == s.queue[1..] && t.writer == Some(task) && t.initialised == s.initialised
    && t.active == s.active && t.written == s.written && t.foreign == s.foreign
    && t.used == (if op.AdmitInput? then s.used + {nativeId} else s.used)
    && t.log == (if op.ObserveBatch? then s.log + Tag(op.run, op.batch) else s.log)
    && PcOf(t, task) == Writing(op, op.ClaimInput? && ClaimAttempts(Current(s), op.delivery.id), nativeId, accepting)
    && OthersKeep(s, t, task)
  }

  predicate OthersKeep(s: System, t: System, task: Task) {
    && (task.Handler? || t.h == s.h)
    && (task.Activity? || t.a == s.a)
    && (task.Observer? || t.o == s.o)
    && (task.Timer? || t.t == s.t)
    && (task.Canceller? || t.c == s.c)
  }

  lemma StoreBegins(s: System, body: Body, events: seq<Event>)
    requires IsOpen(s) && CanWrite(s, Some(body), events)
    ensures var core := S.Step(s.core, S.Begin(body, events));
      && core.store.writing.Some? && core.store.writing.value.body == body && core.flush == s.core.flush
      && core.store.current == s.core.store.current && core.store.disk == s.core.store.disk
  {
  }

  lemma BeginOpBegins(s: System, task: Task, op: Op, nativeId: nat, accepting: bool)
    requires s.queue != [] && s.queue[0] == task && !task.Publisher? && s.writer.None?
    requires PcOf(s, task) == Queued(op) && nativeId !in s.used + s.foreign && IsOpen(s)
    requires CanWrite(s, Mutate(op, s.core.store.current.value, nativeId, accepting), EventsOf(op))
    ensures Begins(s, BeginOp(s.(queue := s.queue[1..]), task, op, nativeId, accepting), task, op, nativeId, accepting)
  {
    StoreBegins(s, Mutate(op, s.core.store.current.value, nativeId, accepting).value, EventsOf(op));
  }

  lemma BeginBlocks(s: System, t: System, task: Task, op: Op, nativeId: nat, accepting: bool)
    requires Begins(s, t, task, op, nativeId, accepting) && Kinds(s) && Claims(s)
    ensures Blocked(t) <= Blocked(s)
    ensures op.ReleaseInput? ==> op.delivery.nativeId !in Blocked(t)
    ensures Claims(t)
  {
  }

  lemma BeginBodies(s: System, t: System, task: Task, op: Op, nativeId: nat, accepting: bool)
    requires Inv(s) && Begins(s, t, task, op, nativeId, accepting)
    ensures BodiesFit(t)
  {
    BeginBlocks(s, t, task, op, nativeId, accepting);
    OpFit(s, task, op, nativeId, accepting);
    var store := s.core.store;
    var mine := if op.ReleaseInput? then {op.delivery.nativeId} else {};
    FitWeakens(t.core.store.writing.value.body, Blocked(s) - mine, t.used, t.log, Blocked(t), t.used, t.log);
    FitWeakens(store.current.value.body, Blocked(s), s.used, s.log, Blocked(t), t.used, t.log);
    if store.disk.Some? { FitWeakens(store.disk.value.body, Blocked(s), s.used, s.log, Blocked(t), t.used, t.log); }
  }

  lemma BeginTaskKinds(s: System, t: System, task: Task, op: Op, nativeId: nat, accepting: bool)
    requires HandlerKinds(s) && ActivityKinds(s) && BystanderKinds(s) && Begins(s, t, task, op, nativeId, accepting)
    ensures HandlerKinds(t) && ActivityKinds(t) && BystanderKinds(t)
  {
  }

  lemma BeginSlotKinds(s: System, t: System, task: Task, op: Op, nativeId: nat, accepting: bool)
    requires SlotKinds(s) && Begins(s, t, task, op, nativeId, accepting)
    ensures SlotKinds(t)
  {
  }

  lemma BeginStartupKinds(s: System, t: System, task: Task, op: Op, nativeId: nat, accepting: bool)
    requires StartupKinds(s) && Begins(s, t, task, op, nativeId, accepting)
    ensures StartupKinds(t)
  {
  }

  lemma BeginKinds(s: System, t: System, task: Task, op: Op, nativeId: nat, accepting: bool)
    requires Kinds(s) && Begins(s, t, task, op, nativeId, accepting)
    ensures Kinds(t)
  {
    BeginTaskKinds(s, t, task, op, nativeId, accepting);
    BeginSlotKinds(s, t, task, op, nativeId, accepting);
    BeginStartupKinds(s, t, task, op, nativeId, accepting);
  }

  lemma OthersKeepPcs(s: System, t: System, task: Task, other: Task)
    requires OthersKeep(s, t, task) && other != task
    ensures PcOf(t, other) == PcOf(s, other)
  {
  }

  lemma BeginChain(s: System, t: System, task: Task, op: Op, nativeId: nat, accepting: bool)
    requires Chain(s) && Begins(s, t, task, op, nativeId, accepting)
    ensures Chain(t)
  {
    forall other: Task | other != task ensures PcOf(t, other) == PcOf(s, other) { OthersKeepPcs(s, t, task, other); }
    EnterWriting(s, t, task);
  }

  lemma BeginWrites(s: System, t: System, task: Task, op: Op, nativeId: nat, accepting: bool)
    requires Begins(s, t, task, op, nativeId, accepting)
    ensures Writes(t)
  {
  }

  lemma BeginHandlerKnows(s: System, t: System, task: Task, op: Op, nativeId: nat, accepting: bool)
    requires Inv(s) && Begins(s, t, task, op, nativeId, accepting)
    ensures HandlerKnows(t)
  {
    DequeueOrder(s, t);
    assert t.h == PcOf(t, Handler) && t.a == PcOf(t, Activity);
    assert s.h == PcOf(s, Handler) && s.a == PcOf(s, Activity);
  }

  /** A commit of another task keeps what the activity relies on, in the body it writes. */
  lemma BeginKeepsActivity(s: System, t: System, task: Task, op: Op, nativeId: nat, accepting: bool)
    requires Inv(s) && Begins(s, t, task, op, nativeId, accepting) && !task.Activity?
    ensures ActivityKnowsBody(s, t.core.store.writing.value.body)
    ensures ReleasedBy(s.a).Some? && !task.Handler? ==>
              var d := ReleasedBy(s.a).value;
              HasAs(Current(s), d.id, d.nativeId, Delivering) ==> HasAs(t.core.store.writing.value.body, d.id, d.nativeId, Delivering)
  {
    if task.Handler? {
      HandlerBeginKeepsActivity(s, nativeId, accepting);
    } else if task.Canceller? {
      SameInputsKeepActivity(s, Current(s), t.core.store.writing.value.body);
    } else {
      ObserveKeepsActivity(s, op.run, op.batch, accepting);
    }
  }

  lemma BeginActivityKnows(s: System, t: System, task: Task, op: Op, nativeId: nat, accepting: bool)
    requires Inv(s) && Begins(s, t, task, op, nativeId, accepting)
    ensures ActivityKnows(t)
  {
    DequeueOrder(s, t);
    if !task.Activity? {
      BeginKeepsActivity(s, t, task, op, nativeId, accepting);
      assert ActivityKnowsBody(t, t.core.store.writing.value.body);
    }
    assert ActivityKnowsBody(t, Current(t));
  }

  lemma BeginKeeps(s: System, t: System, task: Task, op: Op, nativeId: nat, accepting: bool)
    requires Inv(s) && Begins(s, t, task, op, nativeId, accepting)
    ensures Inv(t)
  {
    BeginBlocks(s, t, task, op, nativeId, accepting);
    BeginBodies(s, t, task, op, nativeId, accepting);
    BeginKinds(s, t, task, op, nativeId, accepting);
    BeginChain(s, t, task, op, nativeId, accepting);
    BeginWrites(s, t, task, op, nativeId, accepting);
    BeginHandlerKnows(s, t, task, op, nativeId, accepting);
    BeginActivityKnows(s, t, task, op, nativeId, accepting);
  }

  // ------------------------------------------------------ a commit is rejected

  /** A task gives up its commit, whether it waited or was being written; memory is as before. */
  ghost predicate GivesUp(s: System, t: System, task: Task) {
    && !task.Publisher? && IsOpen(s) && IsOpen(t)
    && t.core.store.current == s.core.store.current && t.core.store.writing.None? && t.writer.None?
    && t.initialised == s.initialised && t.core.flush == s.core.flush
    && t.written == s.written && t.used == s.used && t.foreign == s.foreign && t.log == s.log
    && (PcOf(t, task).Idle? || (task.Activity? && (PcOf(t, task).Closing? || PcOf(t, task).Settling?)))
    && Commits(PcOf(s, task)) && !PcOf(s, task).op.Initialize?
    && OthersKeep(s, t, task)
    && (HandlerAhead(t) ==> HandlerAhead(s)) && (!task.Handler? && HandlerAhead(s) && !task.Activity? ==> HandlerAhead(t))
    && t.active.Some? == s.active.Some?
    && (s.active.Some? ==> t.active.value.id == s.active.value.id && t.active.value.ready == s.active.value.ready)
  }

  lemma GivesUpKinds(s: System, t: System, task: Task)
    requires Kinds(s) && GivesUp(s, t, task)
    ensures Kinds(t)
  {
  }

  lemma GivesUpKnows(s: System, t: System, task: Task)
    requires Inv(s) && GivesUp(s, t, task)
    ensures HandlerKnows(t) && ActivityKnows(t) && Claims(t) && Blocked(t) <= Blocked(s)
  {
    if task.Handler? { HandlerKnowsNothing(t); }
    if task.Activity? { ActivityKnowsNothing(t); }
    assert Claims(t);
    assert HandlerKnows(t);
    if !task.Activity? { assert ActivityKnowsBody(t, Current(t)); }
  }

  lemma FailLeaves(base: System, task: Task, op: Op)
    requires !task.Publisher? && !op.Initialize?
    ensures var t := Fail(base, task, op);
            && t.core == base.core && t.queue == base.queue && t.writer == base.writer && t.initialised == base.initialised
            && t.written == base.written && t.used == base.used && t.foreign == base.foreign && t.log == base.log
            && OthersKeep(base, t, task)
            && t.active.Some? == base.active.Some?
            && (base.active.Some? ==> t.active.value.id == base.active.value.id && t.active.value.ready == base.active.value.ready)
            && (PcOf(t, task).Idle? || (task.Activity? && (PcOf(t, task).Closing? || PcOf(t, task).Settling?)))
  {
  }

  lemma FailGivesUp(s: System, base: System, task: Task, op: Op)
    requires Kinds(s) && IsOpen(s) && !task.Publisher? && Commits(PcOf(s, task)) && PcOf(s, task).op == op && !op.Initialize?
    requires base == s.(core := base.core, queue := base.queue, writer := None)
    requires base.core.store.current == s.core.store.current && base.core.store.writing.None? && base.core.flush == s.core.flush
    requires (HandlerAhead(base) ==> HandlerAhead(s)) && (!task.Handler? && HandlerAhead(s) && !task.Activity? ==> HandlerAhead(base))
    ensures GivesUp(s, Fail(base, task, op), task)
  {
    FailLeaves(base, task, op);
    var t := Fail(base, task, op);
    assert HandlerAhead(t) <==> HandlerAhead(base);
  }

  lemma Rejected(s: System, t: System, task: Task)
    requires Inv(s) && GivesUp(s, t, task) && s.queue != [] && s.queue[0] == task && s.writer.None? && t.queue == s.queue[1..]
    requires t.core == s.core
    ensures Inv(t)
  {
    GivesUpKinds(s, t, task);
    GivesUpKnows(s, t, task);
    FrameBodies(s, t);
    LeaveChain(s, t, task);
    assert Writes(t);
  }

  lemma RejectKeeps(s: System, task: Task, op: Op)
    requires Inv(s) && IsOpen(s) && s.queue != [] && s.queue[0] == task && !task.Publisher? && s.writer.None?
    requires PcOf(s, task) == Queued(op) && !op.Initialize?
    ensures Inv(Fail(s.(queue := s.queue[1..]), task, op))
  {
    var base := s.(queue := s.queue[1..]);
    DequeueOrder(s, base);
    FailLeaves(base, task, op);
    FailGivesUp(s, base, task, op);
    Rejected(s, Fail(base, task, op), task);
  }

  lemma CloseKeeps(s: System, t: System)
    requires Shape(t) && !IsOpen(t) && Claims(s) && BodiesFit(s)
    requires t.core.store.disk.Some? ==> t.core.store.disk == s.core.store.disk || t.core.store.disk == s.core.store.writing
    requires t.queue == [] && t.writer == None && !t.initialised && t.active == None
    requires t.h == t.a == t.o == t.t == t.c == Idle
    requires t.written == s.written && t.used == s.used && t.foreign == s.foreign && t.log == s.log
    ensures Inv(t)
  {
    if t.core.store.disk.Some? {
      FitWeakens(t.core.store.disk.value.body, Blocked(s), s.used, s.log, Blocked(t), t.used, t.log);
    }
    forall task: Task ensures PcOf(t, task).Idle? {}
  }

  lemma HasMember(queue: seq<Task>)
    requires queue != []
    ensures exists task: Task :: task in queue
  {
    assert queue[0] in queue;
  }

  lemma NoMembers(queue: seq<Task>)
    requires forall task: Task :: task !in queue
    ensures queue == []
  {
    if queue != [] { HasMember(queue); }
  }

  /** While the runtime initializes, the handler is alone. */
  lemma AloneInChain(s: System)
    requires Chain(s) && Kinds(s) && !s.initialised
    ensures s.queue != [] && s.queue[0] == Handler ==> s.queue[1..] == []
    ensures s.writer == Some(Handler) ==> s.queue == []
  {
    forall task: Task | task in s.queue ensures task.Handler? && s.h.Queued? {
      assert task.Publisher? || PcOf(s, task).Queued?;
    }
    if s.queue != [] && s.queue[0] == Handler {
      TailMembers(s.queue);
      NoMembers(s.queue[1..]);
    }
    if s.writer == Some(Handler) {
      assert PcOf(s, Handler).Writing?;
      NoMembers(s.queue);
    }
  }

  lemma InitializeRejected(s: System, op: Op)
    requires Inv(s) && IsOpen(s) && s.queue != [] && s.queue[0] == Handler && s.writer.None? && s.h == Queued(op) && op.Initialize?
    ensures Inv(Fail(s.(queue := s.queue[1..]), Handler, op))
  {
    AloneInChain(s);
    CloseKeeps(s, Fail(s.(queue := s.queue[1..]), Handler, op));
  }

  lemma CrashKeeps(s: System, landed: bool)
    requires Inv(s)
    ensures Inv(Step(s, Crash(landed)))
  {
    CloseKeeps(s, Step(s, Crash(landed)));
  }

  // ------------------------------------------------------- the publisher's turn

  /** The file and memory are the same, up to the outbox, as before. */
  lemma PublisherKeeps(s: System, t: System)
    requires Inv(s) && IsOpen(s) && s.initialised && Shape(t)
    requires t == s.(core := t.core, queue := t.queue, writer := t.writer) && Chain(t) && Writes(t)
    requires IsOpen(t) && Current(t) == Current(s)
    requires t.core.store.disk.Some? ==>
               (s.core.store.disk.Some? && t.core.store.disk.value.body == s.core.store.disk.value.body)
               || t.core.store.disk.value.body == Current(s)
    requires t.core.store.writing.Some? ==> t.core.store.writing.value.body == Current(s)
    requires t.writer.Some? ==> t.writer == Some(Publisher)
    requires HandlerAhead(t) <==> HandlerAhead(s)
    ensures Inv(t)
  {
    assert BodiesFit(t);
    assert Kinds(t);
    assert Claims(t);
    assert HandlerKnows(t);
    assert ActivityKnowsBody(t, Current(t));
  }

  lemma PublisherLeavesChain(s: System, t: System)
    requires Chain(s) && s.queue != [] && s.queue[0] == Publisher && s.writer.None?
    requires t == s.(core := t.core, queue := s.queue[1..], writer := t.writer)
    requires t.core.store.writing.Some? <==> t.writer == Some(Publisher)
    requires t.writer.Some? ==> t.writer == Some(Publisher)
    requires t.core.flush.AckWriting? <==> t.writer == Some(Publisher)
    requires !t.core.flush.AckQueued?
    ensures Chain(t)
  {
    TailMembers(s.queue);
    forall task: Task ensures PcOf(t, task) == PcOf(s, task) {}
  }

  lemma AckRefused(s: System)
    requires Inv(s) && IsOpen(s) && s.queue != [] && s.queue[0] == Publisher && s.writer.None?
    ensures Inv(s.(queue := s.queue[1..], core := S.Step(s.core, S.AbortFlush)))
  {
    var t := s.(queue := s.queue[1..], core := S.Step(s.core, S.AbortFlush));
    DequeueOrder(s, t);
    PublisherLeavesChain(s, t);
    assert Writes(t);
    PublisherKeeps(s, t);
  }

  lemma AckBegins(s: System)
    requires Inv(s) && IsOpen(s) && s.queue != [] && s.queue[0] == Publisher && s.writer.None? && S.CanBegin(s.core.store)
    requires s.core.flush.AckQueued?
    ensures Inv(s.(queue := s.queue[1..], core := S.Step(s.core, S.BeginAck), writer := Some(Publisher)))
  {
    var t := s.(queue := s.queue[1..], core := S.Step(s.core, S.BeginAck), writer := Some(Publisher));
    DequeueOrder(s, t);
    PublisherLeavesChain(s, t);
    assert Writes(t);
    PublisherKeeps(s, t);
  }

  lemma PublisherTurnKeeps(s: System)
    requires Inv(s) && s.queue != [] && s.queue[0] == Publisher && s.writer.None?
    ensures Inv(if !S.CanBegin(s.core.store) then Fail(s.(queue := s.queue[1..]), Publisher, MarkRun(0))
                else s.(queue := s.queue[1..], core := S.Step(s.core, S.BeginAck), writer := Some(Publisher)))
  {
    assert Publisher in s.queue;
    assert s.core.flush.AckQueued? && IsOpen(s);
    if S.CanBegin(s.core.store) { AckBegins(s); } else { AckRefused(s); }
  }

  lemma BeginHeadKeeps(s: System, nativeId: nat, accepting: bool)
    requires Inv(s)
    ensures Inv(BeginHeadStep(s, nativeId, accepting))
  {
    if s.queue != [] && s.writer.None? && nativeId !in s.used + s.foreign {
      var task := s.queue[0];
      if task.Publisher? {
        PublisherTurnKeeps(s);
      } else if PcOf(s, task).Queued? {
        HeadKeeps(s, task, PcOf(s, task).op, nativeId, accepting);
      }
    }
  }

  lemma HeadKeeps(s: System, task: Task, op: Op, nativeId: nat, accepting: bool)
    requires Inv(s) && s.queue != [] && s.queue[0] == task && !task.Publisher? && s.writer.None?
    requires PcOf(s, task) == Queued(op) && nativeId !in s.used + s.foreign
    ensures Inv(BeginOp(s.(queue := s.queue[1..]), task, op, nativeId, accepting))
  {
    OpenWhileQueued(s, task);
    var base := s.(queue := s.queue[1..]);
    var body := Mutate(op, s.core.store.current.value, nativeId, accepting);
    if CanWrite(s, body, EventsOf(op)) {
      BeginOpBegins(s, task, op, nativeId, accepting);
      BeginKeeps(s, BeginOp(base, task, op, nativeId, accepting), task, op, nativeId, accepting);
    } else {
      assert BeginOp(base, task, op, nativeId, accepting) == Fail(base, task, op);
      if op.Initialize? { InitializeRejected(s, op); } else { RejectKeeps(s, task, op); }
    }
  }

  lemma OpenWhileQueued(s: System, task: Task)
    requires Kinds(s) && !task.Publisher? && Commits(PcOf(s, task))
    ensures IsOpen(s)
    ensures PcOf(s, task).op.Initialize? ==> task == Handler && !s.initialised
    ensures !PcOf(s, task).op.Initialize? ==> s.initialised
  {
  }

  // --------------------------------------------------------- a write completes

  /** The body written by `task` becomes the body in memory. */
  ghost predicate Stores(s: System, t: System, task: Task) {
    && !task.Publisher? && IsOpen(s) && s.writer == Some(task) && s.core.store.writing.Some?
    && !(s.a.Sending? && !s.a.first)
    && PcOf(s, task).Writing?
    && t.core == S.Step(s.core, S.Finish(S.Stored))
    && t.core.store == S.Store(s.core.store.writing, s.core.store.writing, s.core.store.fenced, None)
    && t.core.flush == s.core.flush
    && t.queue == s.queue && t.writer.None?
    && t.written == s.written && t.used == s.used && t.foreign == s.foreign && t.log == s.log
    && OthersKeep(s, t, task)
  }

  /** What became of the writer. */
  ghost predicate Granted(s: System, t: System, task: Task)
    requires PcOf(s, task).Writing?
  {
    var pc := PcOf(s, task);
    match task
    case Handler =>
      (t.h.Idle? || t.h.Publishing? || (pc.op.ClaimInput? && pc.attempted && t.h == Sending(pc.op.delivery, false)))
    case Activity =>
      || t.a.Looping? || t.a.Settling? || t.a.Publishing?
      || (pc.op.StartFirst? && t.a == Sending(pc.op.delivery, true))
      || (pc.op.ClaimInput? && pc.attempted && t.a == Sending(pc.op.delivery, false))
    case Observer => t.o.Idle?
    case Timer => t.t.Idle?
    case Canceller => t.c.Idle?
    case Publisher => false
  }

  function DoneBase(s: System): System {
    s.(core := S.Step(s.core, S.Finish(S.Stored)), writer := None)
  }

  lemma BaseKinds(s: System)
    requires Kinds(s) && s.core.store.writing.Some? && s.core.store.current.Some?
    ensures var base := DoneBase(s);
            Kinds(base) && base.core.store == S.Store(s.core.store.writing, s.core.store.writing, s.core.store.fenced, None)
    ensures !s.core.flush.AckWriting? ==> DoneBase(s).core.flush == s.core.flush
  {
  }

  lemma DoneLeaves(base: System, task: Task, op: Op, attempted: bool)
    requires !task.Publisher?
    ensures var t := Done(base, task, op, attempted);
            && t.core == base.core && t.queue == base.queue && t.writer == base.writer
            && t.written == base.written && t.used == base.used && t.foreign == base.foreign && t.log == base.log
            && OthersKeep(base, t, task) && t.active.Some? == base.active.Some?
  {
  }

  lemma DoneStores(s: System, task: Task)
    requires Chain(s) && Kinds(s) && s.writer == Some(task) && !task.Publisher? && !(s.a.Sending? && !s.a.first)
    ensures PcOf(s, task).Writing?
    ensures Stores(s, Done(DoneBase(s), task, PcOf(s, task).op, PcOf(s, task).attempted), task)
  {
    assert PcOf(s, task).Writing?;
    OpenWhileQueued(s, task);
    BaseKinds(s);
    DoneLeaves(DoneBase(s), task, PcOf(s, task).op, PcOf(s, task).attempted);
  }

  lemma DoneGranted(s: System, task: Task)
    requires Kinds(s) && !task.Publisher? && PcOf(s, task).Writing?
    ensures Granted(s, Done(DoneBase(s), task, PcOf(s, task).op, PcOf(s, task).attempted), task)
  {
  }

  lemma HandlerDoneKinds(base: System, op: Op, attempted: bool)
    requires Kinds(base) && base.h.Writing? && op == base.h.op
    ensures Kinds(HandlerDone(base, op, attempted))
  {
    match op
    case Initialize(_, _) => assert HandlerDone(base, op, attempted) == base.(initialised := true, h := Idle);
    case CancelControl(_, _, _) => AbortKinds(base.(h := Publishing(ThenNothing)));
    case _ =>
  }

  lemma AbortKinds(s: System)
    requires Kinds(s)
    ensures Kinds(Abort(s))
  {
  }

  lemma ActivityDoneKinds(base: System, op: Op, attempted: bool)
    requires Kinds(base) && base.a.Writing? && op == base.a.op
    ensures Kinds(ActivityDone(base, op, attempted))
  {
  }

  lemma BystanderDoneKinds(base: System, task: Task, op: Op, attempted: bool)
    requires Kinds(base) && PcOf(base, task).Writing? && (task.Observer? || task.Timer? || task.Canceller?)
    ensures Kinds(Done(base, task, op, attempted))
  {
    match task
    case Observer => assert Done(base, task, op, attempted) == base.(o := Idle);
    case Timer => assert Done(base, task, op, attempted) == base.(t := Idle);
    case Canceller => AbortKinds(base.(c := Idle));
    case _ =>
  }

  /** What a task is about to hand over is no longer accepted in the body that was written. */
  lemma GrantedIsTaken(s: System, t: System, task: Task)
    requires Inv(s) && Stores(s, t, task) && Granted(s, t, task) && PcOf(t, task).Sending?
    ensures var n := PcOf(t, task).delivery.nativeId;
      n !in Blocked(s) && n in s.used && !AcceptedIn(s.core.store.writing.value.body, n)
  {
    var b, pc := Current(s), PcOf(s, task);
    if pc.op.ClaimInput? {
      ClaimFit(b, pc.op.delivery.id, Blocked(s), s.used, s.log);
    } else if pc.op.StartFirst? {
      HasFirstAccepted(b, pc.op.delivery);
      StartRunFit(b, pc.op.delivery.run, pc.op.delivery.id, Blocked(s), s.used, s.log);
    }
  }

  /** A native ID is granted only when the durable body no longer accepts it and nobody else holds it. */
  lemma StoredClaims(s: System, t: System, task: Task)
    requires Inv(s) && Stores(s, t, task) && Granted(s, t, task)
    ensures Claims(t) && BodiesFit(t)
  {
    var next := s.core.store.writing.value.body;
    if PcOf(t, task).Sending? { GrantedIsTaken(s, t, task); }
    if task.Handler? && t.h.Sending? {
      GrantOne(s, t, t.h.delivery.nativeId, next);
    } else if task.Activity? && t.a.Sending? {
      GrantOne(s, t, t.a.delivery.nativeId, next);
    } else {
      assert Blocked(t) <= Blocked(s);
      FitWeakens(next, Blocked(s), s.used, s.log, Blocked(t), t.used, t.log);
    }
  }

  lemma HasFirstAccepted(b: Body, d: Delivery)
    requires HasFirst(b, d) && Distinct(b)
    ensures AcceptedIn(b, d.nativeId) && Matches(b, d.id, d.nativeId)
  {
    var k :| 0 <= k < |b.messages| && b.messages[k].id == d.id && b.messages[k].nativeId == d.nativeId
             && b.messages[k].runId == d.run && b.messages[k].status == Accepted;
  }

  lemma GrantOne(s: System, t: System, n: nat, next: Body)
    requires Claims(s) && t.written == s.written && t.used == s.used && t.foreign == s.foreign && t.log == s.log
    requires (t.a == s.a && ClaimOf(t.h) == {n}) || (t.h == s.h && ClaimOf(t.a) == {n})
    requires t.o == s.o && t.t == s.t
    requires n !in Blocked(s) && n in s.used && !AcceptedIn(next, n)
    requires Fit(next, Blocked(s), s.used, s.log)
    requires t.core.store.disk == t.core.store.current && t.core.store.writing.None?
    requires t.core.store.current.Some? && t.core.store.current.value.body == next
    ensures Claims(t) && BodiesFit(t)
  {
    assert Blocked(t) <= Blocked(s) + {n};
    forall m | m in Blocked(t) ensures !AcceptedIn(next, m) {
      assert m in Blocked(s) || m == n;
    }
  }

  // What the tasks know after a write completes.

  lemma BystanderStored(s: System, t: System, task: Task)
    requires Inv(s) && Stores(s, t, task) && Granted(s, t, task) && (task.Observer? || task.Timer? || task.Canceller?)
    requires t.active.Some? == s.active.Some?
    ensures HandlerKnows(t) && ActivityKnows(t)
  {
    var b, next := Current(s), Current(t);
    BystanderWrite(s);
    AheadIsQueued(s);
    assert HandlerAhead(t) <==> HandlerAhead(s);
    HandlerKnowsSame(s, t, b, next);
    assert ActivityKnowsBody(t, next);
  }

  /** The handler's knowledge survives a write that changes inputs in place and finishes none less. */
  lemma HandlerKnowsSame(s: System, t: System, b: Body, next: Body)
    requires IsOpen(s) && IsOpen(t) && b == Current(s) && next == Current(t) && HandlerKnows(s)
    requires SameInputs(b, next) && NoNewTerminalLoss(b, next)
    requires t.h == s.h && t.a == s.a && t.active.Some? == s.active.Some? && (HandlerAhead(t) <==> HandlerAhead(s))
    ensures HandlerKnows(t)
  {
    if Commits(s.h) && s.h.op.AdmitInput? { SameInputsKeep(b, next, s.h.op.id, 0); }
    if s.h.Queued? && s.h.op.AdmitInput? { RoomSame(s, t); }
    if Commits(s.h) && (s.h.op.ClaimInput? || s.h.op.ReleaseInput?) { SameInputsKeep(b, next, s.h.op.delivery.id, s.h.op.delivery.nativeId); }
    if s.h.Sending? { SameInputsKeep(b, next, s.h.delivery.id, s.h.delivery.nativeId); }
  }

  lemma RoomSame(s: System, t: System)
    requires IsOpen(s) && IsOpen(t) && SameInputs(Current(s), Current(t)) && NoNewTerminalLoss(Current(s), Current(t))
    requires t.a == s.a && (HandlerAhead(t) <==> HandlerAhead(s)) && Room(s)
    ensures Room(t)
  {
    if !NoTerminal(Current(s)) {
      var i :| 0 <= i < |Current(s).messages| && Terminal(Current(s).messages[i]);
      assert Terminal(Current(t).messages[i]);
    }
  }

  lemma HandlerStored(s: System, t: System)
    requires Inv(s) && Stores(s, t, Handler) && Granted(s, t, Handler)
    ensures HandlerKnows(t) && ActivityKnows(t)
  {
    var b, next, op := Current(s), Current(t), s.h.op;
    AheadIsQueued(s);
    assert !HandlerAhead(t);
    assert ActivityKnowsBody(t, next);
    if t.h.Sending? {
      ClaimFit(b, op.delivery.id, Blocked(s), s.used, s.log);
    } else {
      HandlerKnowsNothing(t);
    }
  }

  /** The activity's commits change inputs in place. */
  lemma ActivityWrite(s: System)
    requires Inv(s) && IsOpen(s) && s.writer == Some(Activity)
    ensures var b, next := Current(s), s.core.store.writing.value.body;
            && SameInputs(b, next)
            && (s.a.op.ClaimInput? ==> NoNewTerminalLoss(b, next))
            && (s.a.op.ClaimInput? && s.a.attempted ==> HasAs(next, s.a.op.delivery.id, s.a.op.delivery.nativeId, Delivering))
  {
    var b, op := Current(s), s.a.op;
    assert PcOf(s, Activity) == s.a && s.a.Writing?;
    match op
    case ClaimInput(d) => ClaimFit(b, d.id, Blocked(s), s.used, s.log);
    case StartFirst(d) => StartRunFit(b, d.run, d.id, Blocked(s), s.used, s.log);
    case FinaliseRun(run, _, outcome, code) => FinaliseFit(b, run, outcome, code, Blocked(s), s.used, s.log);
    case ReleaseInput(d, nextRun) =>
  }

  lemma ActivityStored(s: System, t: System)
    requires Inv(s) && Stores(s, t, Activity) && Granted(s, t, Activity)
    ensures HandlerKnows(t) && ActivityKnows(t)
  {
    var b, next := Current(s), Current(t);
    assert PcOf(s, Activity) == s.a;
    ActivityWrite(s);
    if Commits(s.h) && s.h.op.AdmitInput? { SameInputsKeep(b, next, s.h.op.id, 0); }
    if Commits(s.h) && (s.h.op.ClaimInput? || s.h.op.ReleaseInput?) { SameInputsKeep(b, next, s.h.op.delivery.id, s.h.op.delivery.nativeId); }
    if s.h.Sending? { SameInputsKeep(b, next, s.h.delivery.id, s.h.delivery.nativeId); }
    if s.h.Queued? && s.h.op.AdmitInput? && t.a.Sending? && !t.a.first && !NoTerminal(b) {
      var i :| 0 <= i < |b.messages| && Terminal(b.messages[i]);
      assert Terminal(next.messages[i]);
    }
    assert HandlerKnows(t);
    if t.a.Sending? && !t.a.first {
      var d := t.a.delivery;
      var i :| 0 <= i < |next.messages| && next.messages[i].id == d.id && next.messages[i].nativeId == d.nativeId && next.messages[i].status == Delivering;
      assert Has(next, d.id, d.nativeId);
    }
  }

  lemma StoredKinds(s: System, task: Task)
    requires Inv(s) && s.writer == Some(task) && !task.Publisher? && !(s.a.Sending? && !s.a.first) && PcOf(s, task).Writing?
    ensures Kinds(Done(DoneBase(s), task, PcOf(s, task).op, PcOf(s, task).attempted))
  {
    BaseKinds(s);
    DoneLeaves(DoneBase(s), task, PcOf(s, task).op, PcOf(s, task).attempted);
    if task.Handler? {
      HandlerDoneKinds(DoneBase(s), s.h.op, s.h.attempted);
    } else if task.Activity? {
      ActivityDoneKinds(DoneBase(s), s.a.op, s.a.attempted);
    } else {
      BystanderDoneKinds(DoneBase(s), task, PcOf(s, task).op, PcOf(s, task).attempted);
    }
  }

  lemma StoredKnows(s: System, t: System, task: Task)
    requires Inv(s) && Stores(s, t, task) && Granted(s, t, task) && !task.Publisher? && t.active.Some? == s.active.Some?
    ensures HandlerKnows(t) && ActivityKnows(t)
  {
    if task.Handler? {
      HandlerStored(s, t);
    } else if task.Activity? {
      ActivityStored(s, t);
    } else {
      BystanderStored(s, t, task);
    }
  }

  lemma StoredInv(s: System, t: System, task: Task)
    requires Inv(s) && Stores(s, t, task) && Granted(s, t, task) && !task.Publisher? && t.active.Some? == s.active.Some? && Kinds(t)
    requires s.writer == Some(task) && !Commits(PcOf(t, task))
    ensures Inv(t)
  {
    StoredClaims(s, t, task);
    LeaveWriting(s, t, task);
    StoredKnows(s, t, task);
    assert Writes(t);
  }

  lemma StoredKeeps(s: System, task: Task)
    requires Inv(s) && s.writer == Some(task) && !task.Publisher? && !(s.a.Sending? && !s.a.first)
    ensures PcOf(s, task).Writing?
    ensures Inv(Done(DoneBase(s), task, PcOf(s, task).op, PcOf(s, task).attempted))
  {
    DoneStores(s, task);
    DoneGranted(s, task);
    StoredKinds(s, task);
    DoneLeaves(DoneBase(s), task, PcOf(s, task).op, PcOf(s, task).attempted);
    StoredInv(s, Done(DoneBase(s), task, PcOf(s, task).op, PcOf(s, task).attempted), task);
  }

  // ------------------------------------------------------------ a write fails

  function FailBase(s: System, outcome: S.WriteOutcome): System {
    s.(core := S.Step(s.core, S.Finish(outcome)), writer := None)
  }

  lemma FailedBase(s: System, outcome: S.WriteOutcome)
    requires s.core.store.writing.Some? && !outcome.Stored? && !s.core.flush.AckWriting?
    ensures var base := FailBase(s, outcome);
            && base.core.store.current == s.core.store.current && base.core.store.writing.None? && base.core.flush == s.core.flush
            && (base.core.store.disk == s.core.store.disk || base.core.store.disk == s.core.store.writing)
  {
  }

  lemma InitializeFails(s: System, outcome: S.WriteOutcome)
    requires Inv(s) && s.writer == Some(Handler) && s.h.Writing? && s.h.op.Initialize? && !outcome.Stored?
    ensures Inv(Fail(FailBase(s, outcome), Handler, s.h.op))
  {
    OpenWhileQueued(s, Handler);
    FailedBase(s, outcome);
    AloneInChain(s);
    CloseKeeps(s, Fail(FailBase(s, outcome), Handler, s.h.op));
  }

  /** A task whose commit failed gives it up: everything else stays as it was. */
  lemma GaveUp(s: System, t: System, task: Task)
    requires Inv(s) && GivesUp(s, t, task) && s.writer == Some(task) && t.queue == s.queue
    requires t.core.store.disk == s.core.store.disk || t.core.store.disk == s.core.store.writing
    ensures Inv(t)
  {
    GivesUpKinds(s, t, task);
    GivesUpKnows(s, t, task);
    FailedBodies(s, t);
    LeaveWriting(s, t, task);
  }

  lemma CommitFails(s: System, task: Task, outcome: S.WriteOutcome)
    requires Inv(s) && s.writer == Some(task) && !task.Publisher? && !outcome.Stored?
    requires PcOf(s, task).Writing? && !PcOf(s, task).op.Initialize?
    ensures Inv(Fail(FailBase(s, outcome), task, PcOf(s, task).op))
  {
    OpenWhileQueued(s, task);
    FailedBase(s, outcome);
    var base := FailBase(s, outcome);
    FailLeaves(base, task, PcOf(s, task).op);
    assert HandlerAhead(base) <==> HandlerAhead(s);
    FailGivesUp(s, base, task, PcOf(s, task).op);
    GaveUp(s, Fail(base, task, PcOf(s, task).op), task);
  }

  lemma FailedKeeps(s: System, task: Task, outcome: S.WriteOutcome)
    requires Inv(s) && s.writer == Some(task) && !task.Publisher? && !outcome.Stored?
    ensures PcOf(s, task).Writing? && Inv(Fail(FailBase(s, outcome), task, PcOf(s, task).op))
  {
    assert PcOf(s, task).Writing?;
    OpenWhileQueued(s, task);
    if PcOf(s, task).op.Initialize? { InitializeFails(s, outcome); } else { CommitFails(s, task, outcome); }
  }

  lemma FailedBodies(s: System, t: System)
    requires BodiesFit(s) && Blocked(t) <= Blocked(s) && t.used == s.used && t.log == s.log
    requires t.core.store.current == s.core.store.current && t.core.store.writing.None?
    requires t.core.store.disk == s.core.store.disk || t.core.store.disk == s.core.store.writing
    ensures BodiesFit(t)
  {
    var store := t.core.store;
    if store.disk.Some? { FitWeakens(store.disk.value.body, Blocked(s), s.used, s.log, Blocked(t), t.used, t.log); }
    if store.current.Some? { FitWeakens(store.current.value.body, Blocked(s), s.used, s.log, Blocked(t), t.used, t.log); }
  }

  lemma PublisherFinishKeeps(s: System, outcome: S.WriteOutcome)
    requires Inv(s) && s.writer == Some(Publisher)
    ensures Inv(FailBase(s, outcome))
  {
    var t := FailBase(s, outcome);
    forall task: Task ensures PcOf(t, task) == PcOf(s, task) {}
    assert s.core.store.writing.value.body == Current(s);
    assert Current(t) == Current(s);
    assert Chain(t);
    assert HandlerAhead(t) <==> HandlerAhead(s);
    PublisherKeeps(s, t);
  }

  lemma FinishTaken(s: System, task: Task, outcome: S.WriteOutcome)
    requires s.writer == Some(task) && !task.Publisher? && !(s.a.Sending? && !s.a.first) && PcOf(s, task).Writing?
    ensures FinishWriteStep(s, outcome) ==
      if outcome.Stored? then Done(DoneBase(s), task, PcOf(s, task).op, PcOf(s, task).attempted)
      else Fail(FailBase(s, outcome), task, PcOf(s, task).op)
  {
  }

  lemma FinishWriteKeeps(s: System, outcome: S.WriteOutcome)
    requires Inv(s)
    ensures Inv(FinishWriteStep(s, outcome))
  {
    if s.writer.Some? && !(s.a.Sending? && !s.a.first) {
      var task := s.writer.value;
      if task.Publisher? {
        PublisherFinishKeeps(s, outcome);
      } else if outcome.Stored? {
        StoredKeeps(s, task);
        FinishTaken(s, task, outcome);
      } else {
        FailedKeeps(s, task, outcome);
        FinishTaken(s, task, outcome);
      }
    }
  }

  // -------------------------------------------------------------- other steps

  lemma OpenKeeps(s: System, conversationId: nat, seed: Option<(nat, bool)>, nextRun: nat)
    requires Inv(s)
    ensures Inv(Step(s, Open(conversationId, seed, nextRun)))
  {
    if !IsOpen(s) && S.Opens(s.core.store.disk) {
      var base := s.(core := S.Step(s.core, S.Open(conversationId)));
      var t := Enqueue(base, Handler, Initialize(seed, nextRun));
      OpenedBodies(s, t);
      EnqueueChain(base, Handler, Initialize(seed, nextRun));
      assert Kinds(t);
      assert Claims(t);
      ActivityKnowsNothing(t);
      assert HandlerKnows(t);
      assert Writes(t);
    }
  }

  lemma OpenedBodies(s: System, t: System)
    requires BodiesFit(s) && !IsOpen(s) && s.core.store.writing.None?
    requires Blocked(t) == Blocked(s) && t.used == s.used && t.log == s.log
    requires IsOpen(t) && t.core.store.disk == s.core.store.disk && t.core.store.writing.None?
    requires t.core.store.current == t.core.store.disk || (Current(t).messages == [] && Current(t).controls == [])
    ensures BodiesFit(t)
  {
  }

  /** The publisher moves, or the sizes change: nothing durable changes. */
  lemma FlushKeeps(s: System, t: System, a: S.StoreAction)
    requires Inv(s) && s.initialised && (a.StartFlush? || a.Weigh? || ((a.SendPart? || a.AbortFlush?) && s.core.flush.Sending?))
    requires t == s.(core := S.Step(s.core, a),
                     queue := if a.SendPart? && S.Step(s.core, a).flush.AckQueued? then s.queue + [Publisher] else s.queue)
    ensures Inv(t)
  {
    assert t.core.store == s.core.store;
    FlushChain(s, t, a);
    PublisherOrder(s, t);
    FrameBodies(s, t);
    FrameWrites(s, t);
    FrameClaims(s, t);
    FrameHandlerKnows(s, t);
    FrameActivityKnows(s, t);
    assert Kinds(t);
  }

  lemma FlushChain(s: System, t: System, a: S.StoreAction)
    requires Chain(s) && (a.StartFlush? || a.Weigh? || ((a.SendPart? || a.AbortFlush?) && s.core.flush.Sending?))
    requires t == s.(core := S.Step(s.core, a),
                     queue := if a.SendPart? && S.Step(s.core, a).flush.AckQueued? then s.queue + [Publisher] else s.queue)
    ensures Chain(t)
  {
    forall task: Task ensures PcOf(t, task) == PcOf(s, task) {}
    if t.queue != s.queue { AppendDistinct(s.queue, Publisher); }
  }

  lemma PublisherOrder(s: System, t: System)
    requires t.queue == s.queue || t.queue == s.queue + [Publisher]
    ensures HandlerAhead(t) <==> HandlerAhead(s)
  {
    if HandlerAhead(t) {
      var i, j :| 0 <= i < j < |t.queue| && t.queue[i] == Handler && t.queue[j] == Activity;
      assert j < |s.queue| && s.queue[i] == Handler && s.queue[j] == Activity;
    }
    if HandlerAhead(s) {
      var i, j :| 0 <= i < j < |s.queue| && s.queue[i] == Handler && s.queue[j] == Activity;
      assert t.queue[i] == Handler && t.queue[j] == Activity;
    }
  }

  /** An observer or the cancel hook joins the chain. */
  lemma BystanderEnqueues(s: System, t: System, task: Task, op: Op)
    requires Inv(s) && s.initialised && (task.Observer? || task.Timer? || task.Canceller?) && PcOf(s, task).Idle?
    requires if task.Canceller? then op.MarkRun? && t == Enqueue(s, task, op)
             else op.ObserveBatch? && EchoesWritten(s, op.batch)
                  && t == Enqueue(s, task, op).(foreign := s.foreign + (Echoes(op.batch) - set n | n in s.written))
    ensures Inv(t)
  {
    var base := Enqueue(s, task, op);
    FrameBodies(s, t);
    EnqueueChain(s, task, op);
    assert Chain(t) by { forall other: Task ensures PcOf(t, other) == PcOf(base, other) {} }
    FrameWrites(s, t);
    EnqueueOrder(s, task, op);
    assert HandlerAhead(t) <==> HandlerAhead(base);
    assert Kinds(t);
    assert Claims(t);
    FrameHandlerKnows(s, t);
    FrameActivityKnows(s, t);
  }

  // ---------------------------------------------------------------- every run

  lemma HandlerBeginsKeeps(s: System, action: Action)
    requires Inv(s)
    requires action.HandlerStart? || action.HandlerAdmit? || action.HandlerRetry?
    ensures Inv(Step(s, action))
  {
    match action
    case HandlerStart => HandlerStartKeeps(s);
    case HandlerAdmit(id, text, run, settings, fingerprint) => HandlerAdmitKeeps(s, id, text, run, settings, fingerprint);
    case HandlerRetry(id, fingerprint) => HandlerRetryKeeps(s, id, fingerprint);
  }

  lemma HandlerControlKeeps(s: System, action: Action)
    requires Inv(s) && (action.HandlerCancel? || action.HandlerReset?)
    ensures Inv(Step(s, action))
  {
    match action
    case HandlerCancel(message, selected) => HandlerCancelKeeps(s, message, selected);
    case HandlerReset(message, conversationId) => HandlerResetKeeps(s, message, conversationId);
  }

  lemma HandlerGoesOnKeeps(s: System, action: Action)
    requires Inv(s) && (action.HandlerResume? || action.HandlerReady? || action.HandlerSend?)
    ensures Inv(Step(s, action))
  {
    match action
    case HandlerResume(ok) => HandlerResumeKeeps(s, ok);
    case HandlerReady(ok) => HandlerReadyKeeps(s, ok);
    case HandlerSend(send, nextRun) => HandlerSendKeeps(s, send, nextRun);
  }

  lemma ActivityDeliversKeeps(s: System, action: Action)
    requires Inv(s) && (action.ActivitySend? || action.ActivityNext?)
    ensures Inv(Step(s, action))
  {
    match action
    case ActivitySend(send, nextRun) => ActivitySendKeeps(s, send, nextRun);
    case ActivityNext => ActivityNextKeeps(s);
  }

  lemma ActivityGoesOnKeeps(s: System, action: Action)
    requires Inv(s) && (action.ActivityLaunch? || action.ActivityResume?)
    ensures Inv(Step(s, action))
  {
    match action
    case ActivityLaunch => ActivityLaunchKeeps(s);
    case ActivityResume(ok) => ActivityResumeKeeps(s, ok);
  }

  lemma ActivityEndsKeeps(s: System, action: Action)
    requires Inv(s) && (action.ActivityDrained? || action.ActivitySettle?)
    ensures Inv(Step(s, action))
  {
    match action
    case ActivityDrained(ok) => ActivityDrainedKeeps(s, ok);
    case ActivitySettle(outcome, code) => ActivitySettleKeeps(s, outcome, code);
  }

  lemma ActivityClosesKeeps(s: System, action: Action)
    requires Inv(s) && (action.ActivitySkipped? || action.ActivityClosed?)
    ensures Inv(Step(s, action))
  {
    match action
    case ActivitySkipped => ActivitySkippedKeeps(s);
    case ActivityClosed => ActivityClosedKeeps(s);
  }

  lemma ChainStepKeeps(s: System, action: Action)
    requires Inv(s) && (action.Crash? || action.Open? || action.BeginHead? || action.FinishWrite?)
    ensures Inv(Step(s, action))
  {
    match action
    case Crash(landed) => CrashKeeps(s, landed);
    case Open(conversationId, seed, nextRun) => OpenKeeps(s, conversationId, seed, nextRun);
    case BeginHead(nativeId, accepting) => BeginHeadKeeps(s, nativeId, accepting);
    case FinishWrite(write) => FinishWriteKeeps(s, write);
  }

  lemma PublisherStepKeeps(s: System, action: Action)
    requires Inv(s) && (action.StartFlush? || action.SendPart? || action.AbortFlush? || action.Weigh?)
    ensures Inv(Step(s, action))
  {
    var t := Step(s, action);
    match action
    case StartFlush => if s.initialised { FlushKeeps(s, t, S.StartFlush); }
    case SendPart => if s.core.flush.Sending? { FlushKeeps(s, t, S.SendPart); }
    case AbortFlush => if s.core.flush.Sending? { FlushKeeps(s, t, S.AbortFlush); }
    case Weigh(sizes) => if s.initialised { FlushKeeps(s, t, S.Weigh(sizes)); }
  }

  lemma ObserveKeeps(s: System, timer: bool, run: nat, batch: seq<NativeEvent>)
    requires Inv(s)
    ensures Inv(ObserveStep(s, timer, run, batch))
  {
    var t := ObserveStep(s, timer, run, batch);
    if t != s { BystanderEnqueues(s, t, if timer then Timer else Observer, ObserveBatch(run, batch)); }
  }

  lemma CancelHookKeeps(s: System)
    requires Inv(s) && s.c.Idle? && s.active.Some?
    ensures Inv(Enqueue(s, Canceller, MarkRun(s.active.value.id)))
  {
    BystanderEnqueues(s, Enqueue(s, Canceller, MarkRun(s.active.value.id)), Canceller, MarkRun(s.active.value.id));
  }

  lemma StepKeeps(s: System, action: Action)
    requires Inv(s)
    ensures Inv(Step(s, action))
  {
    if action.HandlerStart? || action.HandlerAdmit? || action.HandlerRetry? {
      HandlerBeginsKeeps(s, action);
    } else if action.HandlerCancel? || action.HandlerReset? {
      HandlerControlKeeps(s, action);
    } else if action.HandlerResume? || action.HandlerReady? || action.HandlerSend? {
      HandlerGoesOnKeeps(s, action);
    } else if action.ActivitySend? || action.ActivityNext? {
      ActivityDeliversKeeps(s, action);
    } else if action.ActivityLaunch? || action.ActivityResume? {
      ActivityGoesOnKeeps(s, action);
    } else if action.ActivityDrained? || action.ActivitySettle? {
      ActivityEndsKeeps(s, action);
    } else if action.ActivitySkipped? || action.ActivityClosed? {
      ActivityClosesKeeps(s, action);
    } else if action.StartFlush? || action.SendPart? || action.AbortFlush? || action.Weigh? {
      PublisherStepKeeps(s, action);
    } else if action.ObserveEvents? {
      ObserveKeeps(s, action.timer, action.run, action.batch);
    } else if action.CancelHook? {
      if s.c.Idle? && s.active.Some? { CancelHookKeeps(s); }
    } else if action.StreamCloses? {
      StreamClosesKeeps(s);
    } else {
      ChainStepKeeps(s, action);
    }
  }

  lemma InitHolds()
    ensures Inv(Init())
  {
    forall task: Task ensures PcOf(Init(), task).Idle? {}
  }

  /** The invariant holds after every run of handlers, activities, observations, writes, crashes and reopenings. */
  lemma {:induction false} RunInv(actions: seq<Action>)
    ensures Inv(After(actions))
  {
    if actions == [] {
      InitHolds();
    } else {
      RunInv(actions[..|actions| - 1]);
      StepKeeps(After(actions[..|actions| - 1]), actions[|actions| - 1]);
    }
  }
}
