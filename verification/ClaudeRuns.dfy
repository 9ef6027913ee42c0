/** How a run of the runtime goes on when nothing else happens: commits, flushes, and a new session. */
module ClaudeRuns {
  import opened Wrappers
  import opened ClaudeState
  import opened ClaudeCallbacks
  import opened ClaudeRuntime
  import opened ClaudeRuntimeTheorems
  import S = ClaudeStore

  // ------------------------------------------------------------------- one commit

  /** Nothing is being written, sent or observed; memory holds `b` at a revision. */
  ghost predicate Rests(s: System, b: Body, revision: nat) {
    && s.initialised && IsOpen(s) && Current(s) == b && !s.core.store.fenced && s.core.store.writing.None? && s.core.flush.FlushIdle?
    && s.writer.None? && s.core.store.current.value.revision == revision && s.core.sizes.usage == 0 == s.core.store.current.value.sizes.usage
    && s.foreign == {} && s.o.Idle? && s.t.Idle? && s.c.Idle?
  }

  function OutboxOf(s: System): seq<Publication>
    requires IsOpen(s)
  {
    s.core.store.current.value.outbox
  }

  ghost predicate Tasks(s: System, queue: seq<Task>, h: Pc, a: Pc, rest: seq<string>) {
    s.queue == queue && s.h == h && s.a == a && s.rest == rest
  }

  const FRESH: nat := 9

  function Twice(s: System, nativeId: nat): System {
    Step(Step(s, BeginHead(nativeId, false)), FinishWrite(S.Stored))
  }

  /** The next state is being written. */
  ghost predicate WritesTo(s: System, task: Task, next: Body, revision: nat, outbox: seq<Publication>) {
    && s.initialised && IsOpen(s) && !s.core.store.fenced && s.core.flush.FlushIdle? && s.writer == Some(task)
    && s.core.store.writing.Some? && s.core.store.writing.value.body == next && s.core.sizes.usage == 0 == s.core.store.writing.value.sizes.usage
    && s.core.store.writing.value.revision == revision && s.core.store.writing.value.outbox == outbox
    && s.foreign == {} && s.o.Idle? && s.t.Idle? && s.c.Idle?
  }

  /** A run that lists a few inputs with short IDs. */
  predicate SmallRun(run: Option<Run>) {
    run.Some? ==> IdsBytes(run.value.inputIds) <= 20 && |run.value.error| <= 32
  }

  lemma ThreeIds(a: string, b: string, c: string)
    requires |a| <= 1 && |b| <= 1 && |c| <= 1
    ensures IdsBytes([a]) <= 20 && IdsBytes([a, b]) <= 20 && IdsBytes([a, b, c]) <= 20
  {
    assert [a, b][1..] == [b] && [b, c][1..] == [c] && [a, b, c][1..] == [b, c];
    assert IdsBytes([b]) <= 3 && IdsBytes([c]) <= 3;
    assert IdsBytes([b, c]) <= 7;
  }

  lemma SmallFits(revision: nat, b: Body)
    requires SmallRun(b.run) && revision < 40000
    ensures ViewFits(revision, b, 0)
  {
    FewDigits(revision);
  }

  lemma StoreBegins(s: System, b: Body, next: Body, events: seq<Event>, revision: nat)
    requires Rests(s, b, revision) && revision < 30000 && |OutboxOf(s)| < MAX_PUBLICATIONS && SmallRun(next.run)
    ensures CanWrite(s, Some(next), events)
    ensures var core := S.Step(s.core, S.Begin(next, events));
      && core.store.current == s.core.store.current && !core.store.fenced && core.flush.FlushIdle? && core.sizes == s.core.sizes
      && core.store.writing == Some(State(revision + 1, next, OutboxOf(s) + [Publish(revision + 1, next, events)], s.core.sizes))
  {
    SmallFits(revision + 1, next);
  }

  lemma Begun(s: System, task: Task, op: Op, nativeId: nat, b: Body, next: Body, revision: nat)
    requires Rests(s, b, revision) && revision < 30000 && |OutboxOf(s)| < MAX_PUBLICATIONS && SmallRun(next.run)
    requires s.queue != [] && s.queue[0] == task && (task.Handler? || task.Activity?)
    requires PcOf(s, task) == Queued(op) && nativeId !in s.used && !op.ObserveBatch?
    requires Mutate(op, s.core.store.current.value, nativeId, false) == Some(next)
    ensures var t := Step(s, BeginHead(nativeId, false));
      && WritesTo(t, task, next, revision + 1, OutboxOf(s) + [Publish(revision + 1, next, EventsOf(op))])
      && t.core.store.current == s.core.store.current
      && t == SetPc(s, task, Writing(op, Attempts(b, op), nativeId, false)).(
                core := t.core, queue := s.queue[1..], writer := Some(task), used := if op.AdmitInput? then s.used + {nativeId} else s.used)
  {
    var base := s.(queue := s.queue[1..]);
    StoreBegins(base, b, next, EventsOf(op), revision);
    HeadBegins(s, task, op, nativeId);
    BeginsWriting(base, task, op, nativeId, next);
  }

  lemma EndsStored(s: System, task: Task, op: Op, attempted: bool, nativeId: nat)
    requires s.writer == Some(task) && (task.Handler? || task.Activity?) && !(s.a.Sending? && !s.a.first)
    requires PcOf(s, task) == Pc.Writing(op, attempted, nativeId, false)
    ensures Step(s, FinishWrite(S.Stored)) == Done(s.(core := S.Step(s.core, S.Finish(S.Stored)), writer := None), task, op, attempted)
  {
  }

  lemma Ended(s: System, task: Task, op: Op, attempted: bool, nativeId: nat, next: Body, revision: nat, outbox: seq<Publication>)
    requires WritesTo(s, task, next, revision, outbox) && (task.Handler? || task.Activity?)
    requires !(s.a.Sending? && !s.a.first) && !op.Initialize?
    requires PcOf(s, task) == Pc.Writing(op, attempted, nativeId, false)
    ensures var t := Step(s, FinishWrite(S.Stored));
      && Rests(t, next, revision) && OutboxOf(t) == outbox
      && t == Done(s.(core := t.core, writer := None), task, op, attempted)
  {
    EndsStored(s, task, op, attempted, nativeId);
    var base := s.(core := S.Step(s.core, S.Finish(S.Stored)), writer := None);
    assert Rests(base, next, revision) && OutboxOf(base) == outbox;
    DoneRests(base, task, op, attempted, next, revision);
  }

  lemma DoneRests(s: System, task: Task, op: Op, attempted: bool, b: Body, revision: nat)
    requires Rests(s, b, revision) && (task.Handler? || task.Activity?) && !op.Initialize?
    ensures var t := Done(s, task, op, attempted); Rests(t, b, revision) && t.core == s.core
  {
  }

  /** One commit, from the head of the chain to the file. */
  lemma Committed(s: System, task: Task, op: Op, nativeId: nat, b: Body, next: Body, revision: nat)
    requires Rests(s, b, revision) && revision < 30000 && |OutboxOf(s)| < MAX_PUBLICATIONS && SmallRun(next.run)
    requires s.queue != [] && s.queue[0] == task && (task.Handler? || task.Activity?)
    requires PcOf(s, task) == Queued(op) && nativeId !in s.used && !op.ObserveBatch? && !op.Initialize?
    requires Mutate(op, s.core.store.current.value, nativeId, false) == Some(next)
    requires !(s.a.Sending? && !s.a.first)
    ensures var t := Twice(s, nativeId);
      && Rests(t, next, revision + 1) && OutboxOf(t) == OutboxOf(s) + [Publish(revision + 1, next, EventsOf(op))]
      && t == Done(s.(core := t.core, queue := s.queue[1..], used := if op.AdmitInput? then s.used + {nativeId} else s.used),
                   task, op, Attempts(b, op))
  {
    Begun(s, task, op, nativeId, b, next, revision);
    var u, outbox := Step(s, BeginHead(nativeId, false)), OutboxOf(s) + [Publish(revision + 1, next, EventsOf(op))];
    Ended(u, task, op, Attempts(b, op), nativeId, next, revision + 1, outbox);
    DoneOverwrites(s, u, task, op, Attempts(b, op), Step(u, FinishWrite(S.Stored)).core);
  }

  /** What a completed commit makes of its own task does not depend on where the task was. */
  lemma DoneOverwrites(s: System, u: System, task: Task, op: Op, attempted: bool, core: S.StoreSystem)
    requires (task.Handler? || task.Activity?) && s.writer.None?
    requires u == SetPc(s, task, PcOf(u, task)).(core := u.core, queue := u.queue, writer := u.writer, used := u.used)
    ensures Done(u.(core := core, writer := None), task, op, attempted) ==
      Done(s.(core := core, queue := u.queue, used := u.used), task, op, attempted)
  {
  }

  lemma AfterTwice(before: seq<Action>, nativeId: nat)
    ensures After(before + [BeginHead(nativeId, false)] + [FinishWrite(S.Stored)]) == Twice(After(before), nativeId)
  {
    AfterAppend(before, BeginHead(nativeId, false));
    AfterAppend(before + [BeginHead(nativeId, false)], FinishWrite(S.Stored));
  }

  const NOTHING := Body(0, false, [], None, [])

  // --------------------------------------------------------------- a new session

  /** The file is new and its recovery commit waits. */
  ghost predicate Opened(s: System) {
    && !s.initialised && s.a.Idle? && s.o.Idle? && s.t.Idle? && s.c.Idle? && s.rest == [] && s.active.None?
    && s.core.store == S.Store(None, Some(FreshState(0)), false, None) && s.core.flush.FlushIdle? && s.core.sizes == NO_SIZES
    && s.queue == [Handler] && s.h == Queued(Initialize(None, 0)) && s.writer.None? && s.used == {} && s.foreign == {}
  }

  lemma Opens()
    ensures Opened(Step(Init(), Open(0, None, 0)))
  {
  }

  lemma NothingRecovers()
    ensures Recover(NOTHING, true, None, 0) == NOTHING && FreshState(0).body == NOTHING
  {
    assert Recover(NOTHING, true, None, 0).messages == [];
  }

  lemma NothingFits(s: System)
    requires s.core.store == S.Store(None, Some(FreshState(0)), false, None) && s.core.sizes == NO_SIZES
    ensures S.CommitDraft(FreshState(0), NOTHING, [], s.core.sizes).Some?
    ensures CanWrite(s, Some(NOTHING), [])
  {
    FewDigits(1);
  }

  lemma NothingIsWritten(s: System)
    requires s.core.store == S.Store(None, Some(FreshState(0)), false, None) && s.core.flush.FlushIdle? && s.core.sizes == NO_SIZES
    ensures var core := S.Step(s.core, S.Begin(NOTHING, []));
      && core.store.writing.Some? && core.store.writing.value.body == NOTHING && core.flush.FlushIdle?
      && core.store.writing.value.revision == 1 && core.store.writing.value.outbox == [Publish(1, NOTHING, [])] && !core.store.fenced
      && core.sizes == NO_SIZES == core.store.writing.value.sizes
  {
    NothingFits(s);
  }

  lemma RecoveryWrites(s: System)
    requires s.core.store == S.Store(None, Some(FreshState(0)), false, None) && s.core.flush.FlushIdle? && s.core.sizes == NO_SIZES
    ensures BeginOp(s, Handler, Initialize(None, 0), FRESH, false) ==
      s.(core := S.Step(s.core, S.Begin(NOTHING, [])), writer := Some(Handler), h := Writing(Initialize(None, 0), false, FRESH, false))
  {
    NothingRecovers();
    NothingFits(s);
    assert Mutate(Initialize(None, 0), FreshState(0), FRESH, false) == Some(NOTHING);
    BeginsWriting(s, Handler, Initialize(None, 0), FRESH, NOTHING);
  }

  lemma RecoveryBegins(s: System)
    requires Opened(s)
    ensures var t := Step(s, BeginHead(FRESH, false));
      && t.core.store.writing.Some? && t.core.store.writing.value.body == NOTHING && t.core.flush.FlushIdle?
      && t.core.store.writing.value.revision == 1 && t.core.store.writing.value.outbox == [Publish(1, NOTHING, [])] && !t.core.store.fenced
      && t.core.sizes == NO_SIZES == t.core.store.writing.value.sizes
      && t == s.(core := t.core, queue := [], writer := Some(Handler), h := Writing(Initialize(None, 0), false, FRESH, false))
  {
    HeadBegins(s, Handler, Initialize(None, 0), FRESH);
    RecoveryWrites(s.(queue := s.queue[1..]));
    NothingIsWritten(s);
  }

  lemma RecoveryEnds(s: System)
    requires s.writer == Some(Handler) && s.a.Idle? && s.h == Writing(Initialize(None, 0), false, FRESH, false)
    ensures Step(s, FinishWrite(S.Stored)) ==
      s.(core := S.Step(s.core, S.Finish(S.Stored)), writer := None, initialised := true, h := Idle)
  {
  }

  lemma OpensFirst()
    ensures Opened(After([Open(0, None, 0)]))
  {
    Opens();
    AfterAppend([], Open(0, None, 0));
    assert [] + [Open(0, None, 0)] == [Open(0, None, 0)];
  }

  /** Initialised and empty, with the publication of the recovery commit. */
  ghost predicate New(s: System, p: Publication) {
    && Rests(s, NOTHING, 1) && OutboxOf(s) == [p] && Tasks(s, [], Idle, Idle, []) && s.active.None? && s.used == {}
  }

  lemma NewWhenStored(s: System, p: Publication)
    requires s.core.store.writing.Some? && s.core.store.writing.value.body == NOTHING && s.core.flush.FlushIdle?
    requires s.core.store.writing.value.revision == 1 && s.core.store.writing.value.outbox == [p] && !s.core.store.fenced
    requires s.core.sizes == NO_SIZES == s.core.store.writing.value.sizes
    requires s.o.Idle? && s.t.Idle? && s.c.Idle? && s.rest == [] && s.active.None? && s.used == {} && s.foreign == {} && s.queue == []
    requires s.writer == Some(Handler) && s.a.Idle? && s.h == Writing(Initialize(None, 0), false, FRESH, false)
    ensures New(Step(s, FinishWrite(S.Stored)), p)
  {
    RecoveryEnds(s);
  }

  lemma NewAfterRecovery(s: System)
    requires Opened(s)
    ensures New(Twice(s, FRESH), Publish(1, NOTHING, []))
  {
    RecoveryBegins(s);
    NewWhenStored(Step(s, BeginHead(FRESH, false)), Publish(1, NOTHING, []));
  }

  lemma Recovered() returns (actions: seq<Action>)
    ensures New(After(actions), Publish(1, NOTHING, []))
  {
    actions := [Open(0, None, 0)];
    OpensFirst();
    NewAfterRecovery(After(actions));
    AfterTwice(actions, FRESH);
    actions := actions + [BeginHead(FRESH, false)] + [FinishWrite(S.Stored)];
  }
}
