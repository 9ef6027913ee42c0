/** What the parts of the runtime invariant depend on. */
module ClaudeRuntimeFrames {
  import opened Wrappers
  import opened ClaudeState
  import opened ClaudeCallbacks
  import opened ClaudeCallbackFacts
  import opened ClaudeRuntime
  import opened ClaudeRuntimeInvariant

  /** Fewer blocked IDs, and more history, keep every body fit. */
  lemma FrameBodies(s: System, t: System)
    requires BodiesFit(s) && t.core.store == s.core.store
    requires Blocked(t) <= Blocked(s) && s.used <= t.used && s.log <= t.log
    ensures BodiesFit(t)
  {
    var store := s.core.store;
    if store.disk.Some? { FitWeakens(store.disk.value.body, Blocked(s), s.used, s.log, Blocked(t), t.used, t.log); }
    if store.current.Some? { FitWeakens(store.current.value.body, Blocked(s), s.used, s.log, Blocked(t), t.used, t.log); }
    if store.writing.Some? { FitWeakens(store.writing.value.body, Blocked(s), s.used, s.log, Blocked(t), t.used, t.log); }
  }

  lemma FrameChain(s: System, t: System)
    requires Chain(s) && t.core == s.core && t.queue == s.queue && t.writer == s.writer
    requires forall task: Task :: PcOf(t, task).Queued? == PcOf(s, task).Queued? && PcOf(t, task).Writing? == PcOf(s, task).Writing?
    ensures Chain(t)
  {
  }

  lemma AppendDistinct(queue: seq<Task>, task: Task)
    requires forall i, j :: 0 <= i < j < |queue| ==> queue[i] != queue[j]
    requires task !in queue
    ensures var more := queue + [task];
            && (forall i, j :: 0 <= i < j < |more| ==> more[i] != more[j])
            && (forall other: Task :: other in more <==> other in queue || other == task)
  {
  }

  lemma EnqueueChain(s: System, task: Task, op: Op)
    requires Chain(s) && !task.Publisher? && !Commits(PcOf(s, task))
    ensures Chain(Enqueue(s, task, op))
  {
    AppendDistinct(s.queue, task);
    OtherPcs(s, task, Queued(op));
  }

  lemma OtherPcs(s: System, task: Task, pc: Pc)
    requires !task.Publisher?
    ensures PcOf(SetPc(s, task, pc), task) == pc
    ensures forall other: Task :: other != task ==> PcOf(SetPc(s, task, pc), other) == PcOf(s, other)
    ensures var t := SetPc(s, task, pc); t.core == s.core && t.queue == s.queue && t.writer == s.writer
  {
  }

  lemma FrameWrites(s: System, t: System)
    requires Writes(s) && t.core.store == s.core.store && t.writer == s.writer
    requires s.writer.Some? ==> PcOf(t, s.writer.value) == PcOf(s, s.writer.value)
    ensures Writes(t)
  {
  }

  lemma FrameClaims(s: System, t: System)
    requires Claims(s) && t.written == s.written && s.used <= t.used && t.foreign == s.foreign && t.foreign !! t.used
    requires ClaimOf(t.h) <= ClaimOf(s.h) && ClaimOf(t.a) <= ClaimOf(s.a)
    requires t.o == s.o && t.t == s.t
    ensures Claims(t)
  {
  }

  /** The handler's knowledge when it, the body and the activity stay where they are. */
  lemma FrameHandlerKnows(s: System, t: System)
    requires IsOpen(s) && HandlerKnows(s) && t.core.store == s.core.store && t.h == s.h
    requires Prestart(t.a) ==> Prestart(s.a) && FirstOf(t.a) == FirstOf(s.a)
    requires s.a.Idle? && s.active.None? ==> t.a.Idle? && t.active.None?
    requires Exposed(t.a) ==> Exposed(s.a)
    requires t.a.Queued? && t.a.op.ClaimInput? ==> HandlerAhead(t) || (s.a.Queued? && s.a.op.ClaimInput? && (HandlerAhead(s) ==> HandlerAhead(t)))
    ensures HandlerKnows(t)
  {
  }

  /** The handler knows nothing it could lose while it holds no commit and no hand-off. */
  lemma HandlerKnowsNothing(t: System)
    requires IsOpen(t) && !Commits(t.h) && !t.h.Sending?
    ensures HandlerKnows(t)
  {
  }

  lemma FrameActivityKnows(s: System, t: System)
    requires IsOpen(s) && ActivityKnows(s) && t.core.store == s.core.store && t.a == s.a && t.writer == s.writer
    requires HandlerAhead(t) ==> HandlerAhead(s)
    requires HandlerAhead(t) && t.h.Queued? && t.h.op.AdmitInput? ==> t.h == s.h
    ensures ActivityKnows(t)
  {
  }

  /** A task that joins the chain is behind everyone in it. */
  lemma EnqueueOrder(s: System, task: Task, op: Op)
    requires Chain(s) && task != Activity
    requires !Commits(PcOf(s, task))
    ensures HandlerAhead(Enqueue(s, task, op)) ==> HandlerAhead(s)
    ensures HandlerAhead(s) ==> HandlerAhead(Enqueue(s, task, op))
    ensures task == Handler ==> !HandlerAhead(Enqueue(s, task, op))
  {
    var t := Enqueue(s, task, op);
    assert t.queue[..|s.queue|] == s.queue;
    if HandlerAhead(t) {
      var i, j :| 0 <= i < j < |t.queue| && t.queue[i] == Handler && t.queue[j] == Activity;
      assert j < |s.queue|;
      assert s.queue[i] == Handler && s.queue[j] == Activity;
      assert Handler in s.queue;
    }
    if HandlerAhead(s) {
      var i, j :| 0 <= i < j < |s.queue| && s.queue[i] == Handler && s.queue[j] == Activity;
      assert t.queue[i] == Handler && t.queue[j] == Activity;
      assert Handler in s.queue;
    }
  }
}
