/** The invariant of the runtime, kept by every step. */
module ClaudeRuntimeInvariant {
  import opened Wrappers
  import opened ClaudeState
  import opened ClaudeCallbacks
  import opened ClaudeCallbackFacts
  import opened ClaudeRuntime

  /** The native ID a task may still write, or is about to give back. */
  function ClaimOf(pc: Pc): set<nat> {
    if pc.Sending? then {pc.delivery.nativeId}
    else if pc.Queued? && pc.op.ReleaseInput? then {pc.op.delivery.nativeId}
    else {}
  }

  function Blocked(s: System): set<nat> {
    (set n | n in s.written) + ClaimOf(s.h) + ClaimOf(s.a)
  }

  ghost predicate BodiesFit(s: System) {
    var store := s.core.store;
    && (store.disk.Some? ==> Fit(store.disk.value.body, Blocked(s), s.used, s.log))
    && (store.current.Some? ==> Fit(store.current.value.body, Blocked(s), s.used, s.log))
    && (store.writing.Some? ==> Fit(store.writing.value.body, Blocked(s), s.used, s.log))
  }

  /** The operation chain: who waits, and who is writing. */
  ghost predicate Chain(s: System) {
    && (forall i, j :: 0 <= i < j < |s.queue| ==> s.queue[i] != s.queue[j])
    && (forall task: Task :: !task.Publisher? ==> (task in s.queue <==> PcOf(s, task).Queued?))
    && (Publisher in s.queue <==> s.core.flush.AckQueued?)
    && (s.writer.Some? <==> s.core.store.writing.Some?)
    && (s.writer == Some(Publisher) <==> s.core.flush.AckWriting?)
    && (forall task: Task :: !task.Publisher? ==> (PcOf(s, task).Writing? <==> s.writer == Some(task)))
  }

  /** Waiting for its turn in the chain, or being written. */
  predicate Commits(pc: Pc) {
    pc.Queued? || pc.Writing?
  }

  predicate HandlerOp(op: Op) {
    op.Initialize? || op.AdmitInput? || op.ClaimInput? || op.ReleaseInput? || op.CancelControl? || op.ResetControl?
  }

  predicate ActivityOp(op: Op) {
    op.StartFirst? || op.ClaimInput? || op.ReleaseInput? || op.FinaliseRun?
  }

  /** The activity has not yet made its first delivery durable. */
  predicate Prestart(pc: Pc) {
    pc.Launched? || (Commits(pc) && pc.op.StartFirst?)
  }

  predicate Delivers(pc: Pc) {
    pc.Sending? || (Commits(pc) && (pc.op.ClaimInput? || pc.op.ReleaseInput?))
  }

  function FirstOf(pc: Pc): Delivery
    requires Prestart(pc)
  {
    if pc.Launched? then pc.delivery else pc.op.delivery
  }

  ghost predicate HandlerKinds(s: System) {
    && (s.h.Idle? || s.h.Publishing? || s.h.AwaitReady? || (s.h.Sending? && !s.h.first) || (Commits(s.h) && HandlerOp(s.h.op)))
    && (s.h.Publishing? ==> !s.h.next.ThenLoop? && !s.h.next.ThenClose?)
  }

  ghost predicate ActivityKinds(s: System) {
    && !s.a.AwaitReady? && (Commits(s.a) ==> ActivityOp(s.a.op))
    && (s.a.Publishing? ==> s.a.next.ThenLoop? || s.a.next.ThenClose?)
  }

  ghost predicate BystanderKinds(s: System) {
    && (s.o.Idle? || (Commits(s.o) && s.o.op.ObserveBatch?))
    && (s.t.Idle? || (Commits(s.t) && s.t.op.ObserveBatch?))
    && (s.c.Idle? || (Commits(s.c) && s.c.op.MarkRun?))
  }

  /** The live run exists while its activity works, and nobody delivers into it before it has started. */
  ghost predicate SlotKinds(s: System) {
    && (!s.a.Idle? && !s.a.Closing? ==> s.active.Some?)
    && (Prestart(s.a) ==> s.active.Some? && !s.active.value.ready && !Delivers(s.h))
    && (s.a.Launched? ==> s.active.value.id == s.a.delivery.run)
    && (Prestart(s.a) ==> s.active.value.id == FirstOf(s.a).run)
  }

  ghost predicate StartupKinds(s: System) {
    && (!s.initialised ==> s.a.Idle? && s.o.Idle? && s.t.Idle? && s.c.Idle? && s.active.None? && s.core.flush.FlushIdle?
                           && (s.h.Idle? || (Commits(s.h) && s.h.op.Initialize?)))
    && (s.initialised ==> IsOpen(s) && !(Commits(s.h) && s.h.op.Initialize?))
    && (!IsOpen(s) ==> s.h.Idle?)
    && (IsOpen(s) && !s.initialised ==> !s.h.Idle?)
  }

  /** Which suspension points and commits each task can be at. */
  ghost predicate Kinds(s: System) {
    HandlerKinds(s) && ActivityKinds(s) && BystanderKinds(s) && SlotKinds(s) && StartupKinds(s)
  }

  /** The body being written is what the writer's callback made of memory. */
  ghost predicate Writes(s: System) {
    s.writer.Some? && s.core.store.writing.Some? ==>
      && IsOpen(s)
      && var pc := PcOf(s, s.writer.value);
         var next := s.core.store.writing.value.body;
         if s.writer.value.Publisher? then next == Current(s)
         else
           && pc.Writing?
           && Mutate(pc.op, s.core.store.current.value, pc.nativeId, pc.accepting) == Some(next)
           && pc.attempted == (pc.op.ClaimInput? && ClaimAttempts(Current(s), pc.op.delivery.id))
  }

  ghost predicate NoRepeats(written: seq<nat>) {
    forall i, j :: 0 <= i < j < |written| ==> written[i] != written[j]
  }

  ghost predicate Claims(s: System) {
    && NoRepeats(s.written)
    && Blocked(s) <= s.used
    && ClaimOf(s.h) !! ClaimOf(s.a)
    && (forall n :: n in ClaimOf(s.h) + ClaimOf(s.a) ==> n !in s.written)
    && s.foreign !! s.used
    && (forall n :: s.o.Queued? && s.o.op.ObserveBatch? && n in Echoes(s.o.op.batch) ==> n in s.written || n in s.foreign)
    && (forall n :: s.t.Queued? && s.t.op.ObserveBatch? && n in Echoes(s.t.op.batch) ==> n in s.written || n in s.foreign)
  }

  ghost predicate HandlerAhead(s: System) {
    exists i, j :: 0 <= i < j < |s.queue| && s.queue[i] == Handler && s.queue[j] == Activity
  }

  /** The activity relies on an input that an eviction must not remove. */
  predicate Exposed(pc: Pc) {
    || Prestart(pc)
    || (pc.Sending? && !pc.first)
    || (pc.Writing? && pc.op.ClaimInput?)
    || (Commits(pc) && pc.op.ReleaseInput?)
  }

  /** A full list either has a finished input to evict, or nothing the activity relies on can be evicted. */
  ghost predicate Room(s: System)
    requires IsOpen(s)
  {
    || |Current(s).messages| < MAX_MESSAGES
    || !NoTerminal(Current(s))
    || (!Exposed(s.a) && (s.a.Queued? && s.a.op.ClaimInput? ==> HandlerAhead(s)))
  }

  /** What the handler knows of the body in memory. */
  ghost predicate HandlerKnows(s: System)
    requires IsOpen(s)
  {
    var b := Current(s);
    && ((Commits(s.h) && s.h.op.AdmitInput?) ==> NoInput(b, s.h.op.id))
    && (s.h.Queued? && s.h.op.AdmitInput? ==> Room(s))
    && ((Commits(s.h) && s.h.op.ClaimInput?) ==> Matches(b, s.h.op.delivery.id, s.h.op.delivery.nativeId))
    && ((Commits(s.h) && s.h.op.ReleaseInput?) ==> Has(b, s.h.op.delivery.id, s.h.op.delivery.nativeId))
    && (s.h.Sending? ==> Has(b, s.h.delivery.id, s.h.delivery.nativeId))
    && ((Commits(s.h) && s.h.op.ResetControl?) ==> s.a.Idle? && s.active.None?)
    && ((Commits(s.h) && s.h.op.CancelControl? && s.h.op.dormant.Some?) && Prestart(s.a) ==>
          s.h.op.dormant.value != FirstOf(s.a).id)
  }

  ghost predicate HasFirst(b: Body, d: Delivery) {
    exists i :: 0 <= i < |b.messages| && b.messages[i].id == d.id && b.messages[i].nativeId == d.nativeId
                && b.messages[i].runId == d.run && b.messages[i].status == Accepted
  }

  /** What the activity knows of one body. */
  ghost predicate ActivityKnowsBody(s: System, b: Body) {
    && (Prestart(s.a) ==> HasFirst(b, FirstOf(s.a)))
    && ((Commits(s.a) && s.a.op.ClaimInput?) ==> Matches(b, s.a.op.delivery.id, s.a.op.delivery.nativeId))
    && (s.a.Sending? && !s.a.first ==> Has(b, s.a.delivery.id, s.a.delivery.nativeId))
    && ((Commits(s.a) && s.a.op.ReleaseInput?) ==> Has(b, s.a.op.delivery.id, s.a.op.delivery.nativeId))
  }

  function ReleasedBy(pc: Pc): Option<Delivery> {
    if pc.Sending? && !pc.first then Some(pc.delivery)
    else if pc.Queued? && pc.op.ReleaseInput? then Some(pc.op.delivery)
    else None
  }

  /** The body in memory, and the one being written by another task. */
  ghost predicate ActivityKnows(s: System)
    requires IsOpen(s)
  {
    var b := Current(s);
    && ActivityKnowsBody(s, b)
    && (s.a.Queued? && s.a.op.ClaimInput? && HandlerAhead(s) && s.h.Queued? && s.h.op.AdmitInput? ==> s.h.op.id != s.a.op.delivery.id)
    && (ReleasedBy(s.a).Some? ==>
          var d := ReleasedBy(s.a).value;
          (s.a.Queued? && !HandlerAhead(s)) || HasAs(b, d.id, d.nativeId, Delivering))
    && (s.writer.Some? && s.core.store.writing.Some? && !s.writer.value.Activity? ==>
          && ActivityKnowsBody(s, s.core.store.writing.value.body)
          && (ReleasedBy(s.a).Some? && !s.writer.value.Handler? ==>
                var d := ReleasedBy(s.a).value;
                HasAs(b, d.id, d.nativeId, Delivering) ==> HasAs(s.core.store.writing.value.body, d.id, d.nativeId, Delivering)))
  }

  /** What the operation chain relies on in the store; module `ClaudeStore` proves much more of it. */
  ghost predicate Shape(s: System) {
    && (!IsOpen(s) ==> s.core.store.writing.None? && s.core.flush.FlushIdle?)
    && (s.core.flush.AckWriting? ==> s.core.store.writing.Some?)
  }

  ghost predicate Inv(s: System) {
    && Shape(s)
    && BodiesFit(s)
    && Chain(s)
    && Kinds(s)
    && Writes(s)
    && Claims(s)
    && (IsOpen(s) ==> HandlerKnows(s) && ActivityKnows(s))
  }
}
