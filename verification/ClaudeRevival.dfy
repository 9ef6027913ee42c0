/**
 Exactly when an input that could not be written comes back from a finished status. The commit that
 gives it back waits in the operation chain; what finishes the input is a commit ahead of it: the
 one that finalises its run, or one that cancels it as dormant.
 */
module ClaudeRevival {
  import opened Wrappers
  import opened ClaudeState
  import opened ClaudeCallbacks
  import opened ClaudeCallbackFacts
  import opened ClaudeRuntime
  import opened ClaudeRuntimeInvariant
  import opened ClaudeRuntimeWrites
  import opened ClaudeRuntimeTheorems
  import opened ClaudeRuntimeSteps
  import opened ClaudeFinality
  import S = ClaudeStore

  /** The two tasks that hand inputs over. */
  datatype Side = HandlerSide | ActivitySide

  function TaskOf(side: Side): Task {
    if side.HandlerSide? then Handler else Activity
  }

  function OtherTask(side: Side): Task {
    if side.HandlerSide? then Activity else Handler
  }

  predicate GivesBack(pc: Pc, d: Delivery) {
    Commits(pc) && pc.op.ReleaseInput? && pc.op.delivery == d
  }

  /** The commit finishes this input, if the input is still delivering. */
  predicate Ends(op: Op, m: Input) {
    match op
    case FinaliseRun(run, _, _, _) => m.runId == run
    case CancelControl(_, dormant, _) => dormant == Some(m.id)
    case _ => false
  }

  predicate InChain(s: System, side: Side, m: Input) {
    var pc := PcOf(s, OtherTask(side)); Commits(pc) && Ends(pc.op, m)
  }

  ghost predicate Earlier(queue: seq<Task>, first: Task, second: Task) {
    exists i, j :: 0 <= i < j < |queue| && queue[i] == first && queue[j] == second
  }

  /** A commit that finishes the input runs before the one that gives it back. */
  ghost predicate EndsAhead(s: System, side: Side, m: Input) {
    && InChain(s, side, m)
    && (PcOf(s, OtherTask(side)).Writing? || Earlier(s.queue, OtherTask(side), TaskOf(side)))
  }

  /** The other task's commit is rejected, or its write fails. */
  predicate Fails(s: System, side: Side, action: Action) {
    && Commits(PcOf(s, OtherTask(side))) && !Commits(PcOf(Step(s, action), OtherTask(side)))
    && (action.BeginHead? || (action.FinishWrite? && !action.write.Stored?))
  }

  predicate Settled(m: Input) {
    m.status == Delivering || Terminal(m)
  }

  ghost predicate Tracked(s: System, side: Side, d: Delivery, m: Input) {
    && IsOpen(s) && GivesBack(PcOf(s, TaskOf(side)), d)
    && m in Current(s).messages && m.id == d.id && m.nativeId == d.nativeId && Settled(m)
  }

  // ------------------------------------------------------ what a commit does to it

  function Effect(op: Op, m: Input): Input {
    match op
    case FinaliseRun(run, _, outcome, code) => FinaliseInput(m, run, outcome, code)
    case CancelControl(_, dormant, _) =>
      if dormant == Some(m.id) then m.(status := Cancelled, reason := "cancelled_before_start", settings := None) else m
    case _ => m
  }

  lemma EffectSettles(op: Op, m: Input)
    requires Settled(m)
    ensures var e := Effect(op, m);
            && e.id == m.id && e.nativeId == m.nativeId && (Terminal(m) ==> Terminal(e))
            && (m.status == Delivering ==> if Ends(op, m) then Terminal(e) else e == m)
  {
  }

  lemma {:induction false} ObserveKeepsSettled(b: Body, run: nat, batch: seq<NativeEvent>, accepting: bool, i: nat)
    requires Observe(b, run, batch, accepting).Some?
    requires i < |b.messages| && Settled(b.messages[i]) && UserEcho(b.messages[i].nativeId) !in batch
    ensures var b' := Observe(b, run, batch, accepting).value; i < |b'.messages| && b'.messages[i] == b.messages[i]
  {
    if batch != [] {
      ObserveKeepsSettled(b, run, batch[..|batch| - 1], accepting, i);
      assert batch[|batch| - 1] in batch;
    }
  }

  lemma AtId(b: Body, i: nat)
    requires Distinct(b) && i < |b.messages|
    ensures FindId(b.messages, b.messages[i].id) == Some(i)
  {
  }

  lemma ControlEffect(b: Body, op: Op, state: State, i: nat)
    requires state.body == b && Distinct(b) && i < |b.messages| && Settled(b.messages[i]) && Mutate(op, state, 0, false).Some?
    requires op.FinaliseRun? || op.CancelControl? || op.MarkRun? || op.ClaimInput?
    ensures var next := Mutate(op, state, 0, false).value; i < |next.messages| && next.messages[i] == Effect(op, b.messages[i])
  {
    AtId(b, i);
  }

  lemma ReleaseEffect(b: Body, d: Delivery, nextRun: nat, i: nat)
    requires Distinct(b) && i < |b.messages| && b.messages[i].id != d.id && Release(b, d.run, d.id, nextRun, d.settings).Some?
    ensures var next := Release(b, d.run, d.id, nextRun, d.settings).value; i < |next.messages| && next.messages[i] == b.messages[i]
  {
  }

  lemma ReleasedIsAccepted(b: Body, d: Delivery, nextRun: nat, i: nat)
    requires Distinct(b) && i < |b.messages| && b.messages[i].id == d.id && Release(b, d.run, d.id, nextRun, d.settings).Some?
    ensures AcceptedIn(Release(b, d.run, d.id, nextRun, d.settings).value, b.messages[i].nativeId)
  {
    AtId(b, i);
    var next := Release(b, d.run, d.id, nextRun, d.settings).value;
    assert next.messages[i].nativeId == b.messages[i].nativeId && next.messages[i].status == Accepted;
  }

  lemma AdmitEffect(b: Body, input: Input, m: Input)
    requires Distinct(b) && m in b.messages && m.id != input.id && Has(Admit(b, input), m.id, m.nativeId)
    ensures m in Admit(b, input).messages
  {
    var next, kept := Admit(b, input), Evict(b.messages);
    var j :| 0 <= j < |next.messages| && next.messages[j].id == m.id && next.messages[j].nativeId == m.nativeId;
    assert next.messages[j] in kept && forall x :: x in kept ==> x in b.messages;
    var i :| 0 <= i < |b.messages| && b.messages[i] == m;
    var k :| 0 <= k < |b.messages| && b.messages[k] == next.messages[j];
  }

  // ------------------------------------------------------------ one stored write

  /** A write by `writer` while the commit that gives the input back waits. */
  ghost predicate WaitsFor(s: System, side: Side, d: Delivery, m: Input, writer: Task) {
    && Inv(s) && Known(s) && Tracked(s, side, d, m)
    && s.writer == Some(writer) && writer != TaskOf(side) && s.core.store.writing.Some?
  }

  lemma Waiting(s: System, side: Side, d: Delivery, m: Input, writer: Task)
    requires WaitsFor(s, side, d, m, writer)
    ensures PcOf(s, TaskOf(side)).Queued? && d.nativeId in Blocked(s) && d.nativeId !in s.written && d.nativeId !in s.foreign
    ensures !writer.Publisher? ==> PcOf(s, writer).Writing?
    ensures !writer.Publisher? ==> var pc := PcOf(s, writer);
      Mutate(pc.op, s.core.store.current.value, pc.nativeId, pc.accepting) == Some(s.core.store.writing.value.body)
  {
    assert PcOf(s, Handler) == s.h && PcOf(s, Activity) == s.a;
  }

  lemma EchoIsIn(batch: seq<NativeEvent>, n: nat)
    ensures UserEcho(n) in batch <==> n in Echoes(batch)
  {
    if UserEcho(n) in batch { assert UserEcho(n).uuid in Echoes(batch); }
  }

  lemma BystanderEffect(s: System, side: Side, d: Delivery, m: Input, writer: Task)
    requires WaitsFor(s, side, d, m, writer) && (writer.Observer? || writer.Timer? || writer.Canceller?)
    ensures m in s.core.store.writing.value.body.messages
    ensures Effect(PcOf(s, writer).op, m) == m
  {
    Waiting(s, side, d, m, writer);
    var b, pc := Current(s), PcOf(s, writer);
    var i :| 0 <= i < |b.messages| && b.messages[i] == m;
    if writer.Canceller? {
      assert pc == s.c;
    } else {
      assert pc == if writer.Observer? then s.o else s.t;
      EchoIsIn(pc.op.batch, m.nativeId);
      ObserveKeepsSettled(b, pc.op.run, pc.op.batch, pc.accepting, i);
    }
  }

  lemma ActivityEffect(s: System, d: Delivery, m: Input)
    requires WaitsFor(s, HandlerSide, d, m, Activity)
    ensures Effect(s.a.op, m) in s.core.store.writing.value.body.messages
  {
    Waiting(s, HandlerSide, d, m, Activity);
    var b, next, op := Current(s), s.core.store.writing.value.body, s.a.op;
    var i :| 0 <= i < |b.messages| && b.messages[i] == m;
    assert PcOf(s, Activity) == s.a && PcOf(s, Handler) == s.h;
    if op.ReleaseInput? {
      OtherRelease(s, d, m, op.delivery, op.nextRun);
      ReleaseEffect(b, op.delivery, op.nextRun, i);
    } else {
      assert !op.StartFirst?;
      ControlEffect(b, op, s.core.store.current.value, i);
    }
  }

  /** Nobody gives back an input that another task still holds. */
  lemma OtherRelease(s: System, d: Delivery, m: Input, other: Delivery, nextRun: nat)
    requires Inv(s) && IsOpen(s) && m in Current(s).messages && m.id == d.id && m.nativeId == d.nativeId && d.nativeId in Blocked(s)
    requires s.core.store.writing.Some?
    requires Release(Current(s), other.run, other.id, nextRun, other.settings) == Some(s.core.store.writing.value.body)
    ensures other.id != m.id
  {
    var b := Current(s);
    if other.id == m.id {
      var i :| 0 <= i < |b.messages| && b.messages[i] == m;
      ReleasedIsAccepted(b, other, nextRun, i);
    }
  }

  lemma HandlerEffect(s: System, d: Delivery, m: Input)
    requires WaitsFor(s, ActivitySide, d, m, Handler)
    ensures Effect(s.h.op, m) in s.core.store.writing.value.body.messages
  {
    Waiting(s, ActivitySide, d, m, Handler);
    var b, next, op := Current(s), s.core.store.writing.value.body, s.h.op;
    var i :| 0 <= i < |b.messages| && b.messages[i] == m;
    assert PcOf(s, Activity) == s.a && PcOf(s, Handler) == s.h;
    if op.ReleaseInput? {
      OtherRelease(s, d, m, op.delivery, op.nextRun);
      ReleaseEffect(b, op.delivery, op.nextRun, i);
    } else if op.AdmitInput? {
      assert ActivityKnowsBody(s, next);
      assert Has(b, m.id, m.nativeId);
      AdmitEffect(b, Admitted(op, s.h.nativeId), m);
    } else {
      ControlEffect(b, op, s.core.store.current.value, i);
    }
  }

  /** A stored write of any other task does to the input what its commit says, and nothing else. */
  lemma WriteEffect(s: System, side: Side, d: Delivery, m: Input, writer: Task)
    requires WaitsFor(s, side, d, m, writer)
    ensures (if writer.Publisher? then m else Effect(PcOf(s, writer).op, m)) in s.core.store.writing.value.body.messages
    ensures writer != OtherTask(side) && !writer.Publisher? ==> Effect(PcOf(s, writer).op, m) == m
  {
    if writer.Publisher? {
    } else if writer.Observer? || writer.Timer? || writer.Canceller? {
      BystanderEffect(s, side, d, m, writer);
    } else if side.HandlerSide? {
      ActivityEffect(s, d, m);
    } else {
      HandlerEffect(s, d, m);
    }
  }

  // --------------------------------------------------------------------- one step

  /** The two tasks and the chain, when neither takes a turn: only later commits join. */
  ghost predicate Undisturbed(s: System, t: System, side: Side) {
    && PcOf(t, TaskOf(side)) == PcOf(s, TaskOf(side))
    && (Commits(PcOf(s, OtherTask(side))) ==> PcOf(t, OtherTask(side)) == PcOf(s, OtherTask(side)))
    && (!Commits(PcOf(s, OtherTask(side))) ==> !PcOf(t, OtherTask(side)).Writing?)
    && s.queue <= t.queue && |t.queue| <= |s.queue| + 1
  }

  lemma EarlierGrows(queue: seq<Task>, more: seq<Task>, first: Task, second: Task)
    requires queue <= more && |more| <= |queue| + 1 && second in queue && first != second
    requires forall i, j :: 0 <= i < j < |more| ==> more[i] != more[j]
    ensures Earlier(more, first, second) <==> Earlier(queue, first, second)
  {
    var k :| 0 <= k < |queue| && queue[k] == second;
    if Earlier(queue, first, second) {
      var i, j :| 0 <= i < j < |queue| && queue[i] == first && queue[j] == second;
      assert more[i] == first && more[j] == second;
    }
    if Earlier(more, first, second) {
      var i, j :| 0 <= i < j < |more| && more[i] == first && more[j] == second;
      assert more[k] == second;
      assert queue[i] == first && queue[j] == second;
    }
  }

  lemma UndisturbedKeeps(s: System, t: System, side: Side, d: Delivery, m: Input)
    requires Chain(s) && Chain(t) && Undisturbed(s, t, side) && GivesBack(PcOf(s, TaskOf(side)), d)
    ensures EndsAhead(t, side, m) <==> EndsAhead(s, side, m)
  {
    var task, other := TaskOf(side), OtherTask(side);
    if PcOf(s, task).Queued? {
      EarlierGrows(s.queue, t.queue, other, task);
      if Earlier(s.queue, other, task) { assert other in s.queue; }
    } else {
      assert s.writer == Some(task) && t.writer == Some(task);
      assert task !in t.queue && task !in s.queue;
    }
  }

  /** Steps that neither begin nor complete a commit. */
  predicate Between(action: Action) {
    !action.BeginHead? && !action.FinishWrite? && !action.Crash?
  }

  lemma HandlerUndisturbed(s: System, action: Action, side: Side, d: Delivery)
    requires HandlerAction(action) && GivesBack(PcOf(s, TaskOf(side)), d)
    requires GivesBack(PcOf(Step(s, action), TaskOf(side)), d)
    ensures Undisturbed(s, Step(s, action), side)
  {
    if action.HandlerCancel? || action.HandlerReset? { HandlerControlsUndisturbed(s, action, side, d); }
  }

  lemma HandlerControlsUndisturbed(s: System, action: Action, side: Side, d: Delivery)
    requires action.HandlerCancel? || action.HandlerReset?
    requires GivesBack(PcOf(s, TaskOf(side)), d) && GivesBack(PcOf(Step(s, action), TaskOf(side)), d)
    ensures Undisturbed(s, Step(s, action), side)
  {
  }

  lemma ActivityUndisturbed(s: System, action: Action, side: Side, d: Delivery)
    requires ActivityAction(action) && GivesBack(PcOf(s, TaskOf(side)), d)
    requires GivesBack(PcOf(Step(s, action), TaskOf(side)), d)
    ensures Undisturbed(s, Step(s, action), side)
  {
    if action.ActivitySend? {
      ActivitySendUndisturbed(s, action.send, action.nextRun, side, d);
    } else if action.ActivityNext? || action.ActivitySettle? || action.ActivityLaunch? {
      ActivityJoinsUndisturbed(s, action, side, d);
    }
  }

  lemma ActivityJoinsUndisturbed(s: System, action: Action, side: Side, d: Delivery)
    requires action.ActivityNext? || action.ActivitySettle? || action.ActivityLaunch?
    requires GivesBack(PcOf(s, TaskOf(side)), d) && GivesBack(PcOf(Step(s, action), TaskOf(side)), d)
    ensures Undisturbed(s, Step(s, action), side)
  {
  }

  lemma ActivitySendUndisturbed(s: System, send: SendOutcome, nextRun: nat, side: Side, d: Delivery)
    requires GivesBack(PcOf(s, TaskOf(side)), d) && GivesBack(PcOf(ActivitySendStep(s, send, nextRun), TaskOf(side)), d)
    ensures Undisturbed(s, ActivitySendStep(s, send, nextRun), side)
  {
  }

  lemma OthersUndisturbed(s: System, action: Action, side: Side, d: Delivery)
    requires Between(action) && !HandlerAction(action) && !ActivityAction(action)
    requires IsOpen(s) && GivesBack(PcOf(s, TaskOf(side)), d)
    ensures Undisturbed(s, Step(s, action), side)
  {
  }

  lemma BetweenKeeps(s: System, action: Action, side: Side, d: Delivery, m: Input)
    requires Inv(s) && Inv(Step(s, action)) && Between(action) && IsOpen(s) && GivesBack(PcOf(s, TaskOf(side)), d)
    requires GivesBack(PcOf(Step(s, action), TaskOf(side)), d)
    ensures EndsAhead(Step(s, action), side, m) <==> EndsAhead(s, side, m)
  {
    if HandlerAction(action) { HandlerUndisturbed(s, action, side, d); }
    else if ActivityAction(action) { ActivityUndisturbed(s, action, side, d); }
    else { OthersUndisturbed(s, action, side, d); }
    UndisturbedKeeps(s, Step(s, action), side, d, m);
  }

  lemma EarlierAfterHead(queue: seq<Task>, first: Task, second: Task)
    requires queue != [] && queue[0] != first
    ensures Earlier(queue[1..], first, second) <==> Earlier(queue, first, second)
  {
    var rest := queue[1..];
    if Earlier(rest, first, second) {
      var i, j :| 0 <= i < j < |rest| && rest[i] == first && rest[j] == second;
      assert queue[i + 1] == first && queue[j + 1] == second;
    }
    if Earlier(queue, first, second) {
      var i, j :| 0 <= i < j < |queue| && queue[i] == first && queue[j] == second;
      assert rest[i - 1] == first && rest[j - 1] == second;
    }
  }

  lemma HeadIsEarlier(queue: seq<Task>, first: Task, second: Task)
    requires queue != [] && first != second && forall i, j :: 0 <= i < j < |queue| ==> queue[i] != queue[j]
    ensures queue[0] == first && second in queue ==> Earlier(queue, first, second)
    ensures queue[0] == second ==> !Earlier(queue, first, second)
  {
    if queue[0] == first && second in queue {
      var k :| 0 <= k < |queue| && queue[k] == second;
      assert queue[0] == first && queue[k] == second;
    }
  }

  /** The head of the chain took its turn. */
  ghost predicate Began(s: System, t: System) {
    && s.queue != [] && s.writer.None? && t.queue == s.queue[1..]
    && (forall task: Task :: task != s.queue[0] ==> PcOf(t, task) == PcOf(s, task))
    && (Commits(PcOf(t, s.queue[0])) ==> PcOf(t, s.queue[0]).Writing? && PcOf(s, s.queue[0]).Queued? && PcOf(t, s.queue[0]).op == PcOf(s, s.queue[0]).op)
  }

  lemma PublisherBegins(s: System, nativeId: nat, accepting: bool)
    requires s.queue != [] && s.queue[0].Publisher?
    ensures BeginHeadStep(s, nativeId, accepting) == s || Began(s, BeginHeadStep(s, nativeId, accepting))
  {
    var t := BeginHeadStep(s, nativeId, accepting);
    forall task: Task ensures PcOf(t, task) == PcOf(s, task) {}
  }

  lemma BeginPcs(s: System, nativeId: nat, accepting: bool)
    requires Chain(s)
    ensures BeginHeadStep(s, nativeId, accepting) == s || Began(s, BeginHeadStep(s, nativeId, accepting))
  {
    var t := BeginHeadStep(s, nativeId, accepting);
    if t != s {
      var task, base := s.queue[0], s.(queue := s.queue[1..]);
      if task.Publisher? {
        PublisherBegins(s, nativeId, accepting);
      } else {
        var op := PcOf(s, task).op;
        assert t == BeginOp(base, task, op, nativeId, accepting);
        if t == Fail(base, task, op) {
          FailPcs(base, task, op);
        } else {
          BeginOpBegins(s, task, op, nativeId, accepting);
          OthersKeepPcs(s, t, task);
        }
      }
    }
  }

  lemma OthersKeepPcs(s: System, t: System, task: Task)
    requires OthersKeep(s, t, task)
    ensures forall other: Task :: other != task ==> PcOf(t, other) == PcOf(s, other)
  {
  }

  lemma BeganTracks(s: System, t: System, side: Side, d: Delivery, m: Input)
    requires Chain(s) && Chain(t) && Began(s, t) && GivesBack(PcOf(s, TaskOf(side)), d) && GivesBack(PcOf(t, TaskOf(side)), d)
    ensures EndsAhead(t, side, m) <==>
      EndsAhead(s, side, m) && (Commits(PcOf(s, OtherTask(side))) ==> Commits(PcOf(t, OtherTask(side))))
  {
    var task, other := TaskOf(side), OtherTask(side);
    HeadIsEarlier(s.queue, other, task);
    assert PcOf(s, task).Queued? && task in s.queue;
    if s.queue[0] != other { EarlierAfterHead(s.queue, other, task); }
    if s.queue[0] == task { assert t.writer == Some(task) && task !in t.queue; }
  }

  /** The write of the chain completed. */
  ghost predicate Finished(s: System, t: System) {
    && s.writer.Some? && t.queue == s.queue
    && (forall task: Task :: task != s.writer.value ==> PcOf(t, task) == PcOf(s, task))
    && !Commits(PcOf(t, s.writer.value))
  }

  lemma FinishPcs(s: System, outcome: S.WriteOutcome)
    requires Inv(s)
    ensures FinishWriteStep(s, outcome) == s || Finished(s, FinishWriteStep(s, outcome))
  {
    if FinishWriteStep(s, outcome) != s {
      var task := s.writer.value;
      var base := s.(core := S.Step(s.core, S.Finish(outcome)), writer := None);
      BasePcs(s, base);
      if !task.Publisher? {
        assert PcOf(s, task).Writing?;
        if outcome.Stored? { DonePcs(base, task, PcOf(s, task).op, PcOf(s, task).attempted); }
        else { FailPcs(base, task, PcOf(s, task).op); }
      }
    }
  }

  lemma BasePcs(s: System, base: System)
    requires base == s.(core := base.core, writer := None)
    ensures forall task: Task :: PcOf(base, task) == PcOf(s, task)
  {
  }

  lemma FinishedTracks(s: System, t: System, side: Side, d: Delivery, m: Input)
    requires Chain(s) && Chain(t) && Finished(s, t) && GivesBack(PcOf(s, TaskOf(side)), d) && GivesBack(PcOf(t, TaskOf(side)), d)
    ensures s.writer != Some(TaskOf(side))
    ensures EndsAhead(t, side, m) <==> EndsAhead(s, side, m) && s.writer != Some(OtherTask(side))
  {
  }

  lemma DonePcs(base: System, task: Task, op: Op, attempted: bool)
    requires !task.Publisher?
    ensures var t := Done(base, task, op, attempted);
      && t.queue == base.queue && !Commits(PcOf(t, task))
      && (forall other: Task :: other != task ==> PcOf(t, other) == PcOf(base, other))
  {
    var t := Done(base, task, op, attempted);
    forall other: Task | other != task ensures PcOf(t, other) == PcOf(base, other) {}
  }

  lemma FailPcs(base: System, task: Task, op: Op)
    requires !task.Publisher?
    ensures var t := Fail(base, task, op);
      && t.queue == base.queue && !Commits(PcOf(t, task))
      && (forall other: Task :: other != task ==> PcOf(t, other) == PcOf(base, other))
  {
    var t := Fail(base, task, op);
    forall other: Task | other != task ensures PcOf(t, other) == PcOf(base, other) {}
  }

  // ------------------------------------------------------------------- every step

  /**
   What a step does to an input that is about to be given back. `o` is the input as it was claimed:
   it tells which commits finish it.
   */
  ghost predicate Moves(s: System, t: System, side: Side, action: Action, o: Input, m: Input, next: Input) {
    && (EndsAhead(t, side, o) ==> EndsAhead(s, side, o))
    && if Terminal(m) then Terminal(next)
       else if EndsAhead(s, side, o) && !Fails(s, side, action) then (if EndsAhead(t, side, o) then next == m else Terminal(next))
       else next == m && !EndsAhead(t, side, o)
  }

  ghost predicate Follows(s: System, side: Side, d: Delivery, o: Input, m: Input) {
    && Inv(s) && Known(s) && Tracked(s, side, d, m)
    && (m.status == Delivering ==> m == o)
  }

  lemma SameMemory(s: System, t: System, side: Side, d: Delivery, m: Input)
    requires Tracked(s, side, d, m) && IsOpen(t) && Current(t) == Current(s) && GivesBack(PcOf(t, TaskOf(side)), d)
    ensures Tracked(t, side, d, m)
  {
  }

  lemma BeginMoves(s: System, nativeId: nat, accepting: bool, side: Side, d: Delivery, o: Input, m: Input)
    requires Follows(s, side, d, o, m) && GivesBack(PcOf(BeginHeadStep(s, nativeId, accepting), TaskOf(side)), d)
    ensures var t := BeginHeadStep(s, nativeId, accepting);
      Tracked(t, side, d, m) && Moves(s, t, side, BeginHead(nativeId, accepting), o, m, m)
  {
    var action := BeginHead(nativeId, accepting);
    var t := Step(s, action);
    StepKeeps(s, action);
    StepMemory(s, action);
    SameMemory(s, t, side, d, m);
    BeginPcs(s, nativeId, accepting);
    if t != s { BeganTracks(s, t, side, d, o); }
  }

  lemma FailedMoves(s: System, outcome: S.WriteOutcome, side: Side, d: Delivery, o: Input, m: Input)
    requires Follows(s, side, d, o, m) && !Completes(s, FinishWrite(outcome))
    requires GivesBack(PcOf(FinishWriteStep(s, outcome), TaskOf(side)), d)
    ensures var t := FinishWriteStep(s, outcome);
      Tracked(t, side, d, m) && Moves(s, t, side, FinishWrite(outcome), o, m, m)
  {
    var action := FinishWrite(outcome);
    var t := Step(s, action);
    StepKeeps(s, action);
    StepMemory(s, action);
    SameMemory(s, t, side, d, m);
    FinishPcs(s, outcome);
    if t != s { FinishedTracks(s, t, side, d, o); }
  }

  lemma StoredFinishes(s: System)
    requires Inv(s) && IsOpen(s) && Completes(s, FinishWrite(S.Stored)) && IsOpen(FinishWriteStep(s, S.Stored))
    ensures var t := FinishWriteStep(s, S.Stored); Finished(s, t) && Current(t) == s.core.store.writing.value.body
  {
    FinishPcs(s, S.Stored);
    StepMemory(s, FinishWrite(S.Stored));
    FinishMoves(s);
  }

  lemma FinishMoves(s: System)
    requires Inv(s) && Completes(s, FinishWrite(S.Stored))
    ensures FinishWriteStep(s, S.Stored) != s
  {
    var task, base := s.writer.value, s.(core := S.Step(s.core, S.Finish(S.Stored)), writer := None);
    if !task.Publisher? {
      assert PcOf(s, task).Writing?;
      DonePcs(base, task, PcOf(s, task).op, PcOf(s, task).attempted);
      assert PcOf(FinishWriteStep(s, S.Stored), task) != PcOf(s, task);
    }
  }

  lemma StoredOpens(s: System, side: Side, d: Delivery)
    requires Inv(s) && GivesBack(PcOf(FinishWriteStep(s, S.Stored), TaskOf(side)), d)
    ensures var t := FinishWriteStep(s, S.Stored); IsOpen(t) && Chain(t)
  {
    FinishWriteKeeps(s, S.Stored);
    OpenWhenPending(FinishWriteStep(s, S.Stored), side, d);
  }

  lemma StoredTracks(s: System, side: Side, d: Delivery, o: Input, m: Input)
    requires Follows(s, side, d, o, m) && Completes(s, FinishWrite(S.Stored))
    requires GivesBack(PcOf(FinishWriteStep(s, S.Stored), TaskOf(side)), d)
    ensures var t := FinishWriteStep(s, S.Stored);
      && IsOpen(t) && Current(t) == s.core.store.writing.value.body && s.writer.value != TaskOf(side)
      && (EndsAhead(t, side, o) <==> EndsAhead(s, side, o) && s.writer != Some(OtherTask(side)))
  {
    StoredOpens(s, side, d);
    StoredFinishes(s);
    FinishedTracks(s, FinishWriteStep(s, S.Stored), side, d, o);
  }

  lemma OpenWhenPending(t: System, side: Side, d: Delivery)
    requires Inv(t) && GivesBack(PcOf(t, TaskOf(side)), d)
    ensures IsOpen(t)
  {
    assert PcOf(t, Handler) == t.h && PcOf(t, Activity) == t.a;
  }

  lemma WriterEnds(s: System, side: Side, o: Input)
    requires Chain(s) && s.writer == Some(OtherTask(side))
    ensures PcOf(s, OtherTask(side)).Writing? && (EndsAhead(s, side, o) <==> Ends(PcOf(s, OtherTask(side)).op, o))
  {
  }

  lemma StoredMoves(s: System, side: Side, d: Delivery, o: Input, m: Input) returns (next: Input)
    requires Follows(s, side, d, o, m) && Completes(s, FinishWrite(S.Stored))
    requires GivesBack(PcOf(FinishWriteStep(s, S.Stored), TaskOf(side)), d)
    ensures var t := FinishWriteStep(s, S.Stored);
      Tracked(t, side, d, next) && Moves(s, t, side, FinishWrite(S.Stored), o, m, next)
  {
    var writer := s.writer.value;
    StoredTracks(s, side, d, o, m);
    WriteEffect(s, side, d, m, writer);
    if writer.Publisher? {
      next := m;
    } else {
      assert PcOf(s, writer).Writing?;
      next := Effect(PcOf(s, writer).op, m);
      EffectSettles(PcOf(s, writer).op, m);
      if writer == OtherTask(side) { WriterEnds(s, side, o); }
    }
  }

  lemma BetweenMoves(s: System, action: Action, side: Side, d: Delivery, o: Input, m: Input)
    requires Follows(s, side, d, o, m) && GivesBack(PcOf(Step(s, action), TaskOf(side)), d) && Between(action)
    ensures Tracked(Step(s, action), side, d, m) && Moves(s, Step(s, action), side, action, o, m, m)
  {
    var t := Step(s, action);
    StepKeeps(s, action);
    OpenWhenPending(t, side, d);
    StepMemory(s, action);
    SameMemory(s, t, side, d, m);
    BetweenKeeps(s, action, side, d, o);
  }

  lemma StepMoves(s: System, action: Action, side: Side, d: Delivery, o: Input, m: Input) returns (next: Input)
    requires Follows(s, side, d, o, m) && GivesBack(PcOf(Step(s, action), TaskOf(side)), d)
    ensures Tracked(Step(s, action), side, d, next) && Moves(s, Step(s, action), side, action, o, m, next)
  {
    next := m;
    if action.BeginHead? {
      BeginMoves(s, action.nativeId, action.accepting, side, d, o, m);
    } else if Completes(s, action) {
      next := StoredMoves(s, side, d, o, m);
    } else if action.FinishWrite? {
      FailedMoves(s, action.write, side, d, o, m);
    } else {
      BetweenMoves(s, action, side, d, o, m);
    }
  }

  // ------------------------------------------------------------------- whole runs

  function StateAt(before: seq<Action>, after: seq<Action>, n: nat): System
    requires n <= |after|
  {
    After(before + after[..n])
  }

  /** Until now the commit that gives the input back has not completed. */
  ghost predicate Pends(before: seq<Action>, after: seq<Action>, side: Side, d: Delivery) {
    forall k :: 0 <= k <= |after| ==> GivesBack(PcOf(StateAt(before, after, k), TaskOf(side)), d)
  }

  /** The commit that would finish the input is rejected, or its write fails. */
  ghost predicate SpoiledAt(before: seq<Action>, after: seq<Action>, k: nat, side: Side, o: Input)
    requires k < |after|
  {
    EndsAhead(StateAt(before, after, k), side, o) && Fails(StateAt(before, after, k), side, after[k])
  }

  ghost predicate Spoiled(before: seq<Action>, after: seq<Action>, n: nat, side: Side, o: Input)
    requires n <= |after|
  {
    exists k :: 0 <= k < n && SpoiledAt(before, after, k, side, o)
  }

  /** Finished exactly when a commit that finishes it was ahead, is no more, and did not fail. */
  predicate Settles(started: bool, spoiled: bool, ahead: bool, o: Input, m: Input) {
    (ahead ==> started && !spoiled) && if started && !spoiled && !ahead then Terminal(m) else m == o
  }

  lemma SettlesNext(s: System, t: System, side: Side, action: Action, o: Input, m: Input, next: Input, started: bool, spoiled: bool)
    requires Settles(started, spoiled, EndsAhead(s, side, o), o, m) && Moves(s, t, side, action, o, m, next) && o.status == Delivering
    ensures Settles(started, spoiled || (EndsAhead(s, side, o) && Fails(s, side, action)), EndsAhead(t, side, o), o, next)
  {
  }

  lemma StateFirst(before: seq<Action>, after: seq<Action>)
    ensures StateAt(before, after, 0) == After(before)
  {
    assert before + after[..0] == before;
  }

  lemma StateNext(before: seq<Action>, after: seq<Action>, n: nat)
    requires n < |after|
    ensures StateAt(before, after, n + 1) == Step(StateAt(before, after, n), after[n])
  {
    assert before + after[..n + 1] == (before + after[..n]) + [after[n]];
    AfterAppend(before + after[..n], after[n]);
  }

  lemma SpoiledNext(before: seq<Action>, after: seq<Action>, n: nat, side: Side, o: Input)
    requires n < |after|
    ensures Spoiled(before, after, n + 1, side, o) <==> Spoiled(before, after, n, side, o) || SpoiledAt(before, after, n, side, o)
  {
  }

  lemma NotSpoiledFirst(before: seq<Action>, after: seq<Action>, side: Side, d: Delivery, o: Input)
    requires Tracked(After(before), side, d, o)
    ensures var s := StateAt(before, after, 0);
      Tracked(s, side, d, o) && Settles(EndsAhead(After(before), side, o), Spoiled(before, after, 0, side, o), EndsAhead(s, side, o), o, o)
  {
    StateFirst(before, after);
  }

  lemma {:induction false} RunMoves(before: seq<Action>, after: seq<Action>, n: nat, side: Side, d: Delivery, o: Input) returns (m: Input)
    requires n <= |after| && Pends(before, after, side, d)
    requires Tracked(After(before), side, d, o) && o.status == Delivering
    ensures Tracked(StateAt(before, after, n), side, d, m) && (m.status == Delivering ==> m == o)
    ensures Settles(EndsAhead(After(before), side, o), Spoiled(before, after, n, side, o), EndsAhead(StateAt(before, after, n), side, o), o, m)
    decreases n, 0
  {
    if n == 0 {
      NotSpoiledFirst(before, after, side, d, o);
      m := o;
    } else {
      m := NextMoves(before, after, n - 1, side, d, o);
    }
  }

  lemma {:induction false} NextMoves(before: seq<Action>, after: seq<Action>, n: nat, side: Side, d: Delivery, o: Input) returns (m: Input)
    requires n < |after| && Pends(before, after, side, d)
    requires Tracked(After(before), side, d, o) && o.status == Delivering
    ensures Tracked(StateAt(before, after, n + 1), side, d, m) && (m.status == Delivering ==> m == o)
    ensures Settles(EndsAhead(After(before), side, o), Spoiled(before, after, n + 1, side, o), EndsAhead(StateAt(before, after, n + 1), side, o), o, m)
    decreases n, 1
  {
    var s, t := StateAt(before, after, n), StateAt(before, after, n + 1);
    var earlier := RunMoves(before, after, n, side, d, o);
    RunKnown(before + after[..n]);
    StateNext(before, after, n);
    SpoiledNext(before, after, n, side, o);
    m := StepMoves(s, after[n], side, d, o, earlier);
    SettlesNext(s, t, side, after[n], o, earlier, m, EndsAhead(After(before), side, o), Spoiled(before, after, n, side, o));
  }

  lemma {:induction false} RunStaysTerminal(before: seq<Action>, after: seq<Action>, n: nat, side: Side, d: Delivery, o: Input) returns (m: Input)
    requires n <= |after| && Pends(before, after, side, d) && Tracked(After(before), side, d, o) && Terminal(o)
    ensures Tracked(StateAt(before, after, n), side, d, m) && Terminal(m)
  {
    if n == 0 {
      StateFirst(before, after);
      m := o;
    } else {
      var earlier := RunStaysTerminal(before, after, n - 1, side, d, o);
      RunKnown(before + after[..n - 1]);
      StateNext(before, after, n - 1);
      m := StepMoves(StateAt(before, after, n - 1), after[n - 1], side, d, o, earlier);
    }
  }

  // ------------------------------------------------------------ the refused hand-off

  function Refusal(side: Side, nextRun: nat): Action {
    if side.HandlerSide? then HandlerSend(Refused, nextRun) else ActivitySend(Refused, nextRun)
  }

  /** The stream has closed before anything of a claimed input was written, and its run was not aborted. */
  predicate Refuses(s: System, side: Side, d: Delivery) {
    PcOf(s, TaskOf(side)) == Sending(d, false) && !StreamOpen(s) && !Aborted(s) && IsOpen(s)
  }

  lemma RefusalEnqueues(s: System, side: Side, d: Delivery, nextRun: nat)
    requires Refuses(s, side, d)
    ensures Step(s, Refusal(side, nextRun)) == Enqueue(s, TaskOf(side), ReleaseInput(d, nextRun))
  {
  }

  lemma RunningIsKnown(s: System, i: nat)
    requires Inv(s) && Known(s) && IsOpen(s) && i < |Current(s).messages| && Current(s).messages[i].status == Running
    ensures EchoKnown(s, Current(s).messages[i].nativeId)
  {
    var m := Current(s).messages[i];
    assert Echoed(s.log, m.runId, m.nativeId);
  }

  /** A claimed input is delivering or finished: nothing of it was written, so it was not echoed. */
  lemma ClaimedIsSettled(s: System, side: Side, d: Delivery, o: Input)
    requires Inv(s) && Known(s) && Refuses(s, side, d)
    requires o in Current(s).messages && o.id == d.id && o.nativeId == d.nativeId
    ensures Settled(o)
  {
    assert PcOf(s, Handler) == s.h && PcOf(s, Activity) == s.a;
    assert d.nativeId in Blocked(s) && d.nativeId !in s.written && d.nativeId !in s.foreign;
    var i :| 0 <= i < |Current(s).messages| && Current(s).messages[i] == o;
    if o.status == Running { RunningIsKnown(s, i); }
    assert o.status != Accepted by { assert !AcceptedIn(Current(s), d.nativeId); }
  }

  lemma RefusalTracks(s: System, side: Side, d: Delivery, nextRun: nat, o: Input)
    requires Inv(s) && Known(s) && Refuses(s, side, d)
    requires o in Current(s).messages && o.id == d.id && o.nativeId == d.nativeId
    ensures var t := Step(s, Refusal(side, nextRun));
      Tracked(t, side, d, o) && (EndsAhead(t, side, o) <==> InChain(s, side, o))
  {
    var task, other := TaskOf(side), OtherTask(side);
    var t := Step(s, Refusal(side, nextRun));
    RefusalEnqueues(s, side, d, nextRun);
    ClaimedIsSettled(s, side, d, o);
    assert PcOf(t, other) == PcOf(s, other);
    if InChain(s, side, o) && PcOf(s, other).Queued? {
      assert other in s.queue;
      var i :| 0 <= i < |s.queue| && s.queue[i] == other;
      assert t.queue[i] == other && t.queue[|s.queue|] == task;
    }
  }

  lemma WritingIsLast(s: System, side: Side, o: Input)
    requires Chain(s) && PcOf(s, TaskOf(side)).Writing?
    ensures !EndsAhead(s, side, o)
  {
    assert s.writer == Some(TaskOf(side)) && TaskOf(side) !in s.queue;
  }

  lemma OneEntry(b: Body, m: Input)
    requires Distinct(b) && m in b.messages
    ensures TerminalIn(b, m.nativeId) <==> Terminal(m)
  {
    var i :| 0 <= i < |b.messages| && b.messages[i] == m;
  }

  /**
   An input that could not be handed over is finished, when the commit that gives it back is written,
   exactly when it was finished before the refusal, or a commit that finishes it was in the operation
   chain at the refusal and did not fail. For the handler that is the finalisation of the input's
   run, for the activity a cancellation of the input as dormant. By `RevivedOnlyByRelease` these are
   all the cases in which a finished input is accepted again.
   */
  lemma FinishedWhenGivenBackExactly(
      before: seq<Action>, side: Side, d: Delivery, nextRun: nat, o: Input, after: seq<Action>)
    requires Refuses(After(before), side, d)
    requires o in Current(After(before)).messages && o.id == d.id && o.nativeId == d.nativeId
    requires Pends(before + [Refusal(side, nextRun)], after, side, d)
    requires PcOf(StateAt(before + [Refusal(side, nextRun)], after, |after|), TaskOf(side)).Writing?
    ensures var s := StateAt(before + [Refusal(side, nextRun)], after, |after|);
      IsOpen(s) && (TerminalIn(Current(s), d.nativeId) <==>
        || Terminal(o)
        || (InChain(After(before), side, o) && !Spoiled(before + [Refusal(side, nextRun)], after, |after|, side, o)))
  {
    var started := before + [Refusal(side, nextRun)];
    var s, m := StateAt(started, after, |after|), o;
    RunKnown(before);
    RunKnown(started + after[..|after|]);
    AfterAppend(before, Refusal(side, nextRun));
    RefusalTracks(After(before), side, d, nextRun, o);
    WritingIsLast(s, side, o);
    if Terminal(o) {
      m := RunStaysTerminal(started, after, |after|, side, d, o);
    } else {
      m := RunMoves(started, after, |after|, side, d, o);
    }
    OneEntry(Current(s), m);
  }
}
