/** Two runs in which a finished input is accepted again. */
module ClaudeRevivalRuns {
  import opened Wrappers
  import opened ClaudeState
  import opened ClaudeCallbacks
  import opened ClaudeCallbackFacts
  import opened ClaudeRuntime
  import opened ClaudeRuntimeTheorems
  import opened ClaudeFinality
  import opened ClaudeRuns
  import Lines
  import S = ClaudeStore

  /** Nothing else is going on; the file holds `b` and `n` publications. */
  ghost predicate Calm(s: System, b: Body, n: nat) {
    Rests(s, b, n) && |OutboxOf(s)| == n
  }

  ghost predicate Writes(s: System, task: Task, next: Body, n: nat) {
    s.core.store.writing.Some? && WritesTo(s, task, next, n, s.core.store.writing.value.outbox) && |s.core.store.writing.value.outbox| == n
  }

  lemma Begun(s: System, task: Task, op: Op, nativeId: nat, b: Body, next: Body, n: nat)
    requires Calm(s, b, n) && n < 100 && s.queue != [] && s.queue[0] == task && (task.Handler? || task.Activity?) && SmallRun(next.run)
    requires PcOf(s, task) == Queued(op) && nativeId !in s.used && !op.ObserveBatch?
    requires Mutate(op, s.core.store.current.value, nativeId, false) == Some(next)
    ensures var t := Step(s, BeginHead(nativeId, false));
      && Writes(t, task, next, n + 1) && t.core.store.current == s.core.store.current
      && t == SetPc(s, task, Writing(op, Attempts(b, op), nativeId, false)).(
                core := t.core, queue := s.queue[1..], writer := Some(task), used := if op.AdmitInput? then s.used + {nativeId} else s.used)
  {
    ClaudeRuns.Begun(s, task, op, nativeId, b, next, n);
  }

  lemma Ended(s: System, task: Task, op: Op, attempted: bool, nativeId: nat, next: Body, n: nat)
    requires Writes(s, task, next, n) && (task.Handler? || task.Activity?) && !(s.a.Sending? && !s.a.first) && !op.Initialize?
    requires PcOf(s, task) == Pc.Writing(op, attempted, nativeId, false)
    ensures var t := Step(s, FinishWrite(S.Stored));
      && Calm(t, next, n)
      && t == Done(s.(core := t.core, writer := None), task, op, attempted)
  {
    ClaudeRuns.Ended(s, task, op, attempted, nativeId, next, n, s.core.store.writing.value.outbox);
  }

  lemma Committed(s: System, task: Task, op: Op, nativeId: nat, b: Body, next: Body, n: nat)
    requires Calm(s, b, n) && n < 100 && s.queue != [] && s.queue[0] == task && (task.Handler? || task.Activity?) && SmallRun(next.run)
    requires PcOf(s, task) == Queued(op) && nativeId !in s.used && !op.ObserveBatch? && !op.Initialize?
    requires Mutate(op, s.core.store.current.value, nativeId, false) == Some(next)
    requires !(s.a.Sending? && !s.a.first)
    ensures var t := Twice(s, nativeId);
      && Calm(t, next, n + 1)
      && t == Done(s.(core := t.core, queue := s.queue[1..], used := if op.AdmitInput? then s.used + {nativeId} else s.used),
                   task, op, Attempts(b, op))
  {
    ClaudeRuns.Committed(s, task, op, nativeId, b, next, n);
  }

  // ------------------------------------------------------------------ the messages

  const TEXT: string := "go"

  lemma TextIsValid()
    ensures ValidText(TEXT)
  {
    assert TEXT[0] == 'g' && 'g' in TEXT && !IsSpace('g');
    assert TEXT[..1] == "g" && TEXT[..1][..0] == "";
    assert Lines.Size(TEXT[..1]) == 1;
  }

  const SETTINGS: nat := 7

  function A(status: InputStatus): Input {
    Input("a", TEXT, 1, 1, status, if status == Accepted then Some(SETTINGS) else None, 0, "")
  }

  function B(status: InputStatus, run: nat): Input {
    Input("b", TEXT, 2, run, status, if status == Accepted then Some(SETTINGS) else None, 0, "")
  }

  const FIRST := NOTHING.(messages := [A(Accepted)])

  const DELIVERING := Body(0, false, [A(Delivering)], Some(Run(1, ["a"], RunRunning, "")), [])

  function Live(b: Input, ids: seq<string>): Body {
    Body(0, false, [A(Delivering), b], Some(Run(1, ids, RunRunning, "")), [])
  }

  lemma SmallRuns()
    ensures IdsBytes(["a"]) <= 20 && IdsBytes(["a", "b"]) <= 20 && IdsBytes(["a", "c"]) <= 20 && IdsBytes(["a", "c", "b"]) <= 20
  {
    ThreeIds("a", "b", "b");
    ThreeIds("a", "c", "b");
  }

  const FIRST_DELIVERY := Delivery(1, "a", 1, SETTINGS)
  const DELIVERY := Delivery(1, "b", 2, SETTINGS)

  function Slot(ready: bool, open: bool): Option<ActiveRun> {
    Some(ActiveRun(1, "a", SETTINGS, ready, open, false))
  }

  lemma AdmitsFirst(s: System)
    requires Calm(s, NOTHING, 1) && s.h.Idle? && s.a.Idle? && s.active.None?
    ensures Step(s, HandlerAdmit("a", TEXT, 1, SETTINGS, 0)) == Enqueue(s, Handler, AdmitInput("a", TEXT, 1, SETTINGS, 0, false))
  {
    TextIsValid();
  }

  ghost predicate FirstAdmitted(s: System) {
    Calm(s, FIRST, 2) && Tasks(s, [], Publishing(ThenStart), Idle, []) && s.active.None? && s.used == {1}
  }

  lemma AdmitsToNothing(state: State)
    requires state.body == NOTHING
    ensures Mutate(AdmitInput("a", TEXT, 1, SETTINGS, 0, false), state, 1, false) == Some(FIRST)
  {
    var input := Input("a", TEXT, 1, 1, Accepted, Some(SETTINGS), 0, "");
    assert Admit(NOTHING, input) == FIRST by { assert [] + [input] == [A(Accepted)]; }
  }

  lemma AdmissionCommits(s: System, op: Op, b: Body, next: Body, revision: nat)
    requires Calm(s, b, revision) && revision < 100 && Tasks(s, [], Idle, Idle, []) && s.active.None? && s.used == {}
    requires op.AdmitInput? && !op.toRun && next.run.None? && Mutate(op, s.core.store.current.value, 1, false) == Some(next)
    ensures var t := Twice(Enqueue(s, Handler, op), 1);
      Calm(t, next, revision + 1) && Tasks(t, [], Publishing(ThenStart), Idle, []) && t.active.None? && t.used == {1}
  {
    Committed(Enqueue(s, Handler, op), Handler, op, 1, b, next, revision);
  }

  lemma FirstCommits(s: System)
    requires New(s, Publish(1, NOTHING, []))
    ensures FirstAdmitted(Twice(Enqueue(s, Handler, AdmitInput("a", TEXT, 1, SETTINGS, 0, false)), 1))
  {
    AdmitsToNothing(s.core.store.current.value);
    AdmissionCommits(s, AdmitInput("a", TEXT, 1, SETTINGS, 0, false), NOTHING, FIRST, 1);
  }

  lemma AdmittedFirst() returns (actions: seq<Action>)
    ensures FirstAdmitted(After(actions))
  {
    var start := Recovered();
    var admit := HandlerAdmit("a", TEXT, 1, SETTINGS, 0);
    AdmitsFirst(After(start));
    FirstCommits(After(start));
    AfterAppend(start, admit);
    AfterTwice(start + [admit], 1);
    actions := start + [admit] + [BeginHead(1, false)] + [FinishWrite(S.Stored)];
  }

  lemma Launches(s: System)
    requires Calm(s, FIRST, 2) && Tasks(s, [], Publishing(ThenStart), Idle, []) && s.active.None?
    ensures Step(s, HandlerResume(true)) == s.(h := Idle, active := Slot(false, false), a := Launched(FIRST_DELIVERY))
  {
  }

  /** The run of the first input exists, and its first commit has not been made. */
  lemma LaunchedFirst() returns (actions: seq<Action>)
    ensures var s := After(actions);
      Calm(s, FIRST, 2) && Tasks(s, [], Idle, Launched(FIRST_DELIVERY), []) && s.active == Slot(false, false) && s.used == {1}
  {
    actions := AdmittedFirst();
    Launches(After(actions));
    AfterAppend(actions, HandlerResume(true));
    actions := actions + [HandlerResume(true)];
  }

  // ----------------------------------------------------- finalised, then given back

  lemma FirstInRun()
    ensures StartRun(FIRST, 1, "a") == Some(DELIVERING) && AcceptedOfRun(DELIVERING.messages, 1) == []
  {
    assert [A(Delivering)][..0] == [] && RunInputs([A(Delivering)], 1) == ["a"];
    assert FIRST.messages[0 := A(Delivering)] == [A(Delivering)];
  }

  lemma LaunchQueues(s: System)
    requires s.a == Launched(FIRST_DELIVERY) && s.active == Slot(false, false)
    ensures Step(s, ActivityLaunch) == Enqueue(s, Activity, StartFirst(FIRST_DELIVERY))
  {
  }

  lemma StartedFirst() returns (actions: seq<Action>)
    ensures var s := After(actions);
      Calm(s, DELIVERING, 3) && Tasks(s, [], Idle, Sending(FIRST_DELIVERY, true), []) && s.active == Slot(true, true) && s.used == {1}
  {
    actions := LaunchedFirst();
    LaunchQueues(After(actions));
    AfterAppend(actions, ActivityLaunch);
    actions := actions + [ActivityLaunch];
    FirstInRun();
    SmallRuns();
    Committed(After(actions), Activity, StartFirst(FIRST_DELIVERY), FRESH, FIRST, DELIVERING, 2);
    AfterTwice(actions, FRESH);
    actions := actions + [BeginHead(FRESH, false)] + [FinishWrite(S.Stored)];
  }

  lemma WritesFirst(s: System)
    requires Calm(s, DELIVERING, 3) && Tasks(s, [], Idle, Sending(FIRST_DELIVERY, true), []) && s.active == Slot(true, true)
    ensures var t := Step(s, ActivitySend(Wrote, 0));
      Calm(t, DELIVERING, 3) && Tasks(t, [], Idle, Looping, []) && t.active == Slot(true, true) && t.used == s.used
  {
    FirstInRun();
  }

  lemma LoopingFirst() returns (actions: seq<Action>)
    ensures var s := After(actions);
      Calm(s, DELIVERING, 3) && Tasks(s, [], Idle, Looping, []) && s.active == Slot(true, true) && s.used == {1}
  {
    actions := StartedFirst();
    WritesFirst(After(actions));
    AfterAppend(actions, ActivitySend(Wrote, 0));
    actions := actions + [ActivitySend(Wrote, 0)];
  }

  lemma NothingLeft(s: System)
    requires s.a.Looping? && s.rest == [] && IsOpen(s) && s.active.Some?
    ensures Step(s, ActivityNext) == s.(a := Draining)
  {
  }

  /** The first input is written, and the activity waits for the stream. */
  lemma DrainingFirst() returns (actions: seq<Action>)
    ensures var s := After(actions);
      Calm(s, DELIVERING, 3) && Tasks(s, [], Idle, Draining, []) && s.active == Slot(true, true) && s.used == {1}
  {
    actions := LoopingFirst();
    NothingLeft(After(actions));
    AfterAppend(actions, ActivityNext);
    actions := actions + [ActivityNext];
  }

  const ADMIT_B := AdmitInput("b", TEXT, 1, SETTINGS, 0, true)

  lemma SecondAdmitted()
    ensures CountRun(DELIVERING.messages, 1) == 1 && FindId(DELIVERING.messages, "b").None?
    ensures Admit(DELIVERING, B(Accepted, 1)) == Live(B(Accepted, 1), ["a", "b"])
  {
    assert DELIVERING.messages[..0] == [];
    assert [A(Delivering)] + [B(Accepted, 1)] == [A(Delivering), B(Accepted, 1)] && ["a"] + ["b"] == ["a", "b"];
  }

  lemma AdmitsSecond(s: System)
    requires Calm(s, DELIVERING, 3) && s.h.Idle? && s.active == Slot(true, true)
    ensures Step(s, HandlerAdmit("b", TEXT, 0, SETTINGS, 0)) == Enqueue(s, Handler, ADMIT_B)
  {
    SecondAdmitted();
    TextIsValid();
  }

  /** The second input joins the live run, and the handler will deliver it. */
  lemma AdmittedSecond() returns (actions: seq<Action>)
    ensures var s := After(actions);
      && Calm(s, Live(B(Accepted, 1), ["a", "b"]), 4) && Tasks(s, [], Publishing(ThenDeliver(1, "b", SETTINGS)), Draining, [])
      && s.active == Slot(true, true) && s.used == {1, 2}
  {
    actions := DrainingFirst();
    AdmitsSecond(After(actions));
    SecondAdmitted();
    AfterAppend(actions, HandlerAdmit("b", TEXT, 0, SETTINGS, 0));
    actions := actions + [HandlerAdmit("b", TEXT, 0, SETTINGS, 0)];
    SmallRuns();
    Committed(After(actions), Handler, ADMIT_B, 2, DELIVERING, Live(B(Accepted, 1), ["a", "b"]), 3);
    AfterTwice(actions, 2);
    actions := actions + [BeginHead(2, false)] + [FinishWrite(S.Stored)];
  }

  lemma SecondClaimed()
    ensures var before := Live(B(Accepted, 1), ["a", "b"]);
      && FindId(before.messages, "b") == Some(1) && ClaimAttempts(before, "b")
      && Claim(before, "b") == Some(Live(B(Delivering, 1), ["a", "b"]))
  {
    var before := Live(B(Accepted, 1), ["a", "b"]);
    assert before.messages[1 := B(Delivering, 1)] == [A(Delivering), B(Delivering, 1)];
  }

  lemma ClaimsSecond() returns (actions: seq<Action>)
    ensures var s := After(actions);
      && Calm(s, Live(B(Accepted, 1), ["a", "b"]), 4) && Tasks(s, [Handler], Queued(ClaimInput(DELIVERY)), Draining, [])
      && s.active == Slot(true, true) && s.used == {1, 2}
  {
    actions := AdmittedSecond();
    SecondClaimed();
    AfterAppend(actions, HandlerResume(true));
    actions := actions + [HandlerResume(true)];
    AfterAppend(actions, HandlerReady(true));
    actions := actions + [HandlerReady(true)];
  }

  const CLAIMING := Pc.Writing(ClaimInput(DELIVERY), true, FRESH, false)

  lemma Claiming() returns (actions: seq<Action>)
    ensures var s := After(actions);
      && Writes(s, Handler, Live(B(Delivering, 1), ["a", "b"]), 5) && Tasks(s, [], CLAIMING, Draining, [])
      && s.active == Slot(true, true) && s.used == {1, 2}
  {
    actions := ClaimsSecond();
    SecondClaimed();
    var before := Live(B(Accepted, 1), ["a", "b"]);
    SmallRuns();
    Begun(After(actions), Handler, ClaimInput(DELIVERY), FRESH, before, Live(B(Delivering, 1), ["a", "b"]), 4);
    AfterAppend(actions, BeginHead(FRESH, false));
    actions := actions + [BeginHead(FRESH, false)];
  }

  lemma Drains(s: System)
    requires s.a.Draining? && s.active == Slot(true, true)
    ensures Step(s, ActivityDrained(false)) == s.(a := Settling(true), active := Slot(true, false))
  {
  }

  /** While the claim is being written, the stream ends and the activity goes on to finalise. */
  lemma Ending() returns (actions: seq<Action>)
    ensures var s := After(actions);
      && Writes(s, Handler, Live(B(Delivering, 1), ["a", "b"]), 5) && Tasks(s, [], CLAIMING, Settling(true), [])
      && s.active == Slot(true, false) && s.used == {1, 2}
  {
    actions := Claiming();
    Drains(After(actions));
    AfterAppend(actions, ActivityDrained(false));
    actions := actions + [ActivityDrained(false)];
  }

  lemma Finalising(outcome: Outcome, code: string) returns (actions: seq<Action>)
    requires !outcome.OutcomeCompleted? && code in ERROR_CODES
    ensures var s := After(actions);
      && Writes(s, Handler, Live(B(Delivering, 1), ["a", "b"]), 5)
      && Tasks(s, [Activity], CLAIMING, Queued(FinaliseRun(1, "a", outcome, code)), [])
      && s.active == Slot(true, false) && s.used == {1, 2}
  {
    actions := Ending();
    AfterAppend(actions, ActivitySettle(outcome, code));
    actions := actions + [ActivitySettle(outcome, code)];
  }

  /** The claim is stored; its hand-off is refused, so it is given back behind the finalisation. */
  lemma RefusedBehind(outcome: Outcome, code: string) returns (actions: seq<Action>)
    requires !outcome.OutcomeCompleted? && code in ERROR_CODES
    ensures var s := After(actions);
      && Calm(s, Live(B(Delivering, 1), ["a", "b"]), 5)
      && Tasks(s, [Activity, Handler], Queued(ReleaseInput(DELIVERY, 2)), Queued(FinaliseRun(1, "a", outcome, code)), []) && s.used == {1, 2}
  {
    actions := Finalising(outcome, code);
    Ended(After(actions), Handler, ClaimInput(DELIVERY), true, FRESH, Live(B(Delivering, 1), ["a", "b"]), 5);
    AfterAppend(actions, FinishWrite(S.Stored));
    actions := actions + [FinishWrite(S.Stored)];
    AfterAppend(actions, HandlerSend(SendOutcome.Refused, 2));
    actions := actions + [HandlerSend(SendOutcome.Refused, 2)];
  }

  function FinalB(outcome: Outcome, code: string): Input {
    FinaliseInput(B(Delivering, 1), 1, outcome, code)
  }

  lemma FinalBody(outcome: Outcome, code: string)
    requires !outcome.OutcomeCompleted?
    ensures var next := Finalise(Live(B(Delivering, 1), ["a", "b"]), 1, outcome, code);
      && next.messages == [FinaliseInput(A(Delivering), 1, outcome, code), FinalB(outcome, code)] && Terminal(next.messages[1])
      && FindId(next.messages, "b") == Some(1)
  {
  }

  lemma ShortCodes(code: string)
    requires code in ERROR_CODES
    ensures |code| <= 32
  {
  }

  lemma FinalRunIsSmall(outcome: Outcome, code: string)
    requires code in ERROR_CODES
    ensures var next := Finalise(Live(B(Delivering, 1), ["a", "b"]), 1, outcome, code);
      SmallRun(next.run) && next.run.Some? && next.run.value.inputIds == ["a", "b"]
  {
    ShortCodes(code);
    SmallRuns();
  }

  lemma FinalisedFirst(outcome: Outcome, code: string) returns (actions: seq<Action>)
    requires !outcome.OutcomeCompleted? && code in ERROR_CODES
    ensures var s := After(actions);
      && Calm(s, Finalise(Live(B(Delivering, 1), ["a", "b"]), 1, outcome, code), 6)
      && Tasks(s, [Handler], Queued(ReleaseInput(DELIVERY, 2)), Publishing(ThenClose), []) && s.used == {1, 2}
  {
    actions := RefusedBehind(outcome, code);
    var s, before := After(actions), Live(B(Delivering, 1), ["a", "b"]);
    assert s.queue[1..] == [Handler];
    FinalRunIsSmall(outcome, code);
    Committed(s, Activity, FinaliseRun(1, "a", outcome, code), FRESH, before, Finalise(before, 1, outcome, code), 5);
    AfterTwice(actions, FRESH);
    actions := actions + [BeginHead(FRESH, false)] + [FinishWrite(S.Stored)];
  }

  lemma OneLeft()
    ensures Without(["a", "b"], "b") == ["a"]
  {
    assert ["a", "b"][1..] == ["b"] && ["b"][1..] == [];
    assert Without(["b"], "b") == [];
  }

  lemma GivenBack(s: System, b: Body, n: nat, i: nat)
    requires Calm(s, b, n) && n < 100 && s.queue == [Handler] && s.h == Queued(ReleaseInput(DELIVERY, 2)) && FRESH !in s.used
    requires s.a.Publishing? && i < |b.messages| && FindId(b.messages, "b") == Some(i) && b.messages[i].nativeId == 2
    requires SmallRun(b.run) && b.run.Some? && b.run.value.inputIds == ["a", "b"]
    ensures var t := Twice(s, FRESH); IsOpen(t) && AcceptedIn(Current(t), 2)
  {
    var next := Release(b, 1, "b", 2, SETTINGS).value;
    SmallRuns();
    OneLeft();
    Committed(s, Handler, ReleaseInput(DELIVERY, 2), FRESH, b, next, n);
    assert next.messages[i].nativeId == 2 && next.messages[i].status == Accepted;
  }

  /**
   However its run ends without completing, an unwritten input that the finalisation has marked
   interrupted, failed or cancelled is accepted again when the refused hand-off gives it back.
   */
  lemma FinalStatusIsNotFinal(outcome: Outcome, code: string) returns (before: seq<Action>)
    requires !outcome.OutcomeCompleted? && code in ERROR_CODES
    ensures var s := After(before);
      && IsOpen(s) && FinalB(outcome, code) in Current(s).messages && Terminal(FinalB(outcome, code)) && FinalB(outcome, code).nativeId == 2
      && var t := After(before + [BeginHead(FRESH, false)] + [FinishWrite(S.Stored)]);
      IsOpen(t) && AcceptedIn(Current(t), 2)
  {
    before := FinalisedFirst(outcome, code);
    FinalBody(outcome, code);
    var s := After(before);
    assert Current(s).messages[1] == FinalB(outcome, code);
    FinalRunIsSmall(outcome, code);
    GivenBack(s, Current(s), 6, 1);
    AfterTwice(before, FRESH);
  }

  // ------------------------------------------------------ cancelled, then given back

  function C(status: InputStatus): Input {
    Input("c", TEXT, 3, 1, status, if status == Accepted then Some(SETTINGS) else None, 0, "")
  }

  const PAIR := NOTHING.(messages := [A(Accepted), C(Accepted)])
  const TRIO := NOTHING.(messages := [A(Accepted), C(Accepted), B(Accepted, 1)])

  function Lively(c: InputStatus, b: Input, ids: seq<string>): Body {
    Body(0, false, [A(Delivering), C(c), b], Some(Run(1, ids, RunRunning, "")), [])
  }

  const ALL := ["a", "c", "b"]
  const THIRD := Delivery(1, "c", 3, SETTINGS)

  ghost predicate At(s: System, b: Body, n: nat, queue: seq<Task>, h: Pc, a: Pc, rest: seq<string>, open: bool) {
    Calm(s, b, n) && Tasks(s, queue, h, a, rest) && s.active == Slot(true, open) && s.used == {1, 2, 3}
  }

  lemma Admits(s: System, b: Body, n: nat, id: string)
    requires Calm(s, b, n) && s.h.Idle? && s.active == Slot(false, false) && |b.messages| < 3 && FindId(b.messages, id).None?
    ensures Step(s, HandlerAdmit(id, TEXT, 0, SETTINGS, 0)) == Enqueue(s, Handler, AdmitInput(id, TEXT, 1, SETTINGS, 0, true))
  {
    FewInRun(b.messages);
    TextIsValid();
  }

  lemma FewInRun(messages: seq<Input>)
    ensures CountRun(messages, 1) <= |messages|
  {
    if messages != [] { FewInRun(messages[..|messages| - 1]); }
  }

  function Written(id: string, nativeId: nat): Input {
    Input(id, TEXT, nativeId, 1, Accepted, Some(SETTINGS), 0, "")
  }

  lemma Appends(b: Body, input: Input)
    requires |b.messages| < 3 && b.run.None?
    ensures Admit(b, input) == b.(messages := b.messages + [input])
  {
  }

  lemma JoinCommits(s: System, b: Body, n: nat, id: string, nativeId: nat)
    requires Calm(s, b, n) && s.queue == [Handler] && s.h == Queued(AdmitInput(id, TEXT, 1, SETTINGS, 0, true)) && nativeId !in s.used
    requires !s.a.Sending? && n < 100 && |b.messages| < 3 && b.run.None?
    ensures var t := Twice(s, nativeId);
      && Calm(t, b.(messages := b.messages + [Written(id, nativeId)]), n + 1)
      && t == s.(core := t.core, queue := [], used := s.used + {nativeId}, h := Publishing(ThenDeliver(1, id, SETTINGS)))
  {
    var op := AdmitInput(id, TEXT, 1, SETTINGS, 0, true);
    Appends(b, Written(id, nativeId));
    Committed(s, Handler, op, nativeId, b, b.(messages := b.messages + [Written(id, nativeId)]), n);
  }

  lemma GivesUp(s: System)
    requires IsOpen(s) && s.h.Publishing?
    ensures Step(s, HandlerResume(false)) == s.(h := Idle)
  {
  }

  /** Another input is admitted before the run starts; its flush fails, so the handler does not deliver it. */
  lemma Joins(before: seq<Action>, b: Body, n: nat, id: string, nativeId: nat) returns (actions: seq<Action>)
    requires var s := After(before);
      && Calm(s, b, n) && Tasks(s, [], Idle, Launched(FIRST_DELIVERY), []) && s.active == Slot(false, false) && nativeId !in s.used
      && n < 100 && |b.messages| < 3 && FindId(b.messages, id).None? && b.run.None?
    ensures var s := After(actions);
      && Calm(s, b.(messages := b.messages + [Written(id, nativeId)]), n + 1) && Tasks(s, [], Idle, Launched(FIRST_DELIVERY), [])
      && s.active == Slot(false, false) && s.used == After(before).used + {nativeId}
  {
    Admits(After(before), b, n, id);
    AfterAppend(before, HandlerAdmit(id, TEXT, 0, SETTINGS, 0));
    actions := before + [HandlerAdmit(id, TEXT, 0, SETTINGS, 0)];
    JoinCommits(After(actions), b, n, id, nativeId);
    AfterTwice(actions, nativeId);
    actions := actions + [BeginHead(nativeId, false)] + [FinishWrite(S.Stored)];
    GivesUp(After(actions));
    AfterAppend(actions, HandlerResume(false));
    actions := actions + [HandlerResume(false)];
  }

  lemma AdmittedAll() returns (actions: seq<Action>)
    ensures var s := After(actions);
      Calm(s, TRIO, 4) && Tasks(s, [], Idle, Launched(FIRST_DELIVERY), []) && s.active == Slot(false, false) && s.used == {1, 2, 3}
  {
    actions := LaunchedFirst();
    actions := Joins(actions, FIRST, 2, "c", 3);
    assert FIRST.(messages := FIRST.messages + [C(Accepted)]) == PAIR;
    actions := Joins(actions, PAIR, 3, "b", 2);
    assert PAIR.(messages := PAIR.messages + [B(Accepted, 1)]) == TRIO;
  }

  lemma AllInRun()
    ensures StartRun(TRIO, 1, "a") == Some(Lively(Accepted, B(Accepted, 1), ALL))
    ensures AcceptedOfRun(Lively(Accepted, B(Accepted, 1), ALL).messages, 1) == ["c", "b"]
  {
    var messages := [A(Delivering), C(Accepted), B(Accepted, 1)];
    assert messages[..2] == [A(Delivering), C(Accepted)] && messages[..2][..1] == [A(Delivering)] && [A(Delivering)][..0] == [];
    assert RunInputs(messages[..2], 1) == ["a", "c"];
    assert AcceptedOfRun(messages[..2], 1) == ["c"];
    assert FindId(TRIO.messages, "a") == Some(0) by { assert TRIO.messages[0].id == "a"; }
    assert RunInputs(messages, 1) == ["a", "c"] + ["b"] == ALL;
    assert TRIO.messages[0 := A(Delivering)] == messages;
  }

  lemma AllIsSmall()
    ensures SmallRun(Lively(Accepted, B(Accepted, 1), ALL).run)
  {
    SmallRuns();
  }

  lemma StartsAll(s: System)
    requires Calm(s, TRIO, 4) && Tasks(s, [Activity], Idle, Queued(StartFirst(FIRST_DELIVERY)), [])
    requires s.active == Slot(false, false) && s.used == {1, 2, 3}
    ensures At(Twice(s, FRESH), Lively(Accepted, B(Accepted, 1), ALL), 5, [], Idle, Sending(FIRST_DELIVERY, true), [], true)
  {
    AllInRun();
    AllIsSmall();
    Committed(s, Activity, StartFirst(FIRST_DELIVERY), FRESH, TRIO, Lively(Accepted, B(Accepted, 1), ALL), 4);
  }

  lemma StartedAll() returns (actions: seq<Action>)
    ensures At(After(actions), Lively(Accepted, B(Accepted, 1), ALL), 5, [], Idle, Sending(FIRST_DELIVERY, true), [], true)
  {
    actions := AdmittedAll();
    LaunchQueues(After(actions));
    AfterAppend(actions, ActivityLaunch);
    actions := actions + [ActivityLaunch];
    StartsAll(After(actions));
    AfterTwice(actions, FRESH);
    actions := actions + [BeginHead(FRESH, false)] + [FinishWrite(S.Stored)];
  }

  /** The first input is written, and the activity lists the two others. */
  lemma ListedBoth() returns (actions: seq<Action>)
    ensures At(After(actions), Lively(Accepted, B(Accepted, 1), ALL), 5, [], Idle, Looping, ["c", "b"], true)
  {
    actions := StartedAll();
    AllInRun();
    AfterAppend(actions, ActivitySend(Wrote, 0));
    actions := actions + [ActivitySend(Wrote, 0)];
  }

  lemma TakesNext(s: System, id: string, later: seq<string>, i: nat)
    requires IsOpen(s) && s.a.Looping? && s.rest == [id] + later && s.active.Some? && FindId(Current(s).messages, id) == Some(i)
    requires Current(s).messages[i].status == Accepted
    ensures Step(s, ActivityNext) == Enqueue(s.(rest := later), Activity,
              ClaimInput(Delivery(s.active.value.id, id, Current(s).messages[i].nativeId, s.active.value.settings)))
  {
    assert s.rest[1..] == later;
  }

  lemma ThirdClaimed()
    ensures var before := Lively(Accepted, B(Accepted, 1), ALL);
      && FindId(before.messages, "c") == Some(1) && ClaimAttempts(before, "c")
      && Claim(before, "c") == Some(Lively(Delivering, B(Accepted, 1), ALL))
  {
    var before := Lively(Accepted, B(Accepted, 1), ALL);
    assert before.messages[1 := C(Delivering)] == [A(Delivering), C(Delivering), B(Accepted, 1)];
  }

  lemma ClaimedThird() returns (actions: seq<Action>)
    ensures At(After(actions), Lively(Delivering, B(Accepted, 1), ALL), 6, [], Idle, Sending(THIRD, false), ["b"], true)
  {
    actions := ListedBoth();
    ThirdClaimed();
    TakesNext(After(actions), "c", ["b"], 1);
    AfterAppend(actions, ActivityNext);
    actions := actions + [ActivityNext];
    SmallRuns();
    Committed(After(actions), Activity, ClaimInput(THIRD), FRESH, Lively(Accepted, B(Accepted, 1), ALL), Lively(Delivering, B(Accepted, 1), ALL), 5);
    AfterTwice(actions, FRESH);
    actions := actions + [BeginHead(FRESH, false)] + [FinishWrite(S.Stored)];
  }

  /** The third input is written too; its flush takes a while. */
  lemma FlushingThird() returns (actions: seq<Action>)
    ensures At(After(actions), Lively(Delivering, B(Accepted, 1), ALL), 6, [], Idle, Publishing(ThenLoop), ["b"], true)
  {
    actions := ClaimedThird();
    AfterAppend(actions, ActivitySend(Wrote, 0));
    actions := actions + [ActivitySend(Wrote, 0)];
  }

  lemma SecondClaimedHere(run: nat, ids: seq<string>)
    ensures var before := Lively(Delivering, B(Accepted, run), ids);
      && FindId(before.messages, "b") == Some(2) && before.messages[2] == B(Accepted, run) && ClaimAttempts(before, "b")
      && Claim(before, "b") == Some(Lively(Delivering, B(Delivering, run), ids))
  {
    var before := Lively(Delivering, B(Accepted, run), ids);
    assert FindId(before.messages, "b") == Some(2) by { assert before.messages[2].id == "b"; }
    assert before.messages[2 := B(Delivering, run)] == [A(Delivering), C(Delivering), B(Delivering, run)];
  }

  /** Meanwhile a client sends the second input once more, and the handler delivers it. */
  lemma Retried() returns (actions: seq<Action>)
    ensures At(After(actions), Lively(Delivering, B(Accepted, 1), ALL), 6, [], Publishing(ThenRetry("b", 1)), Publishing(ThenLoop), ["b"], true)
  {
    actions := FlushingThird();
    SecondClaimedHere(1, ALL);
    AfterAppend(actions, HandlerRetry("b", 0));
    actions := actions + [HandlerRetry("b", 0)];
  }

  lemma RetryWaits() returns (actions: seq<Action>)
    ensures At(After(actions), Lively(Delivering, B(Accepted, 1), ALL), 6, [], AwaitReady(1, "b", SETTINGS), Publishing(ThenLoop), ["b"], true)
  {
    actions := Retried();
    AfterAppend(actions, HandlerResume(true));
    actions := actions + [HandlerResume(true)];
  }

  lemma RetryReady() returns (actions: seq<Action>)
    ensures At(After(actions), Lively(Delivering, B(Accepted, 1), ALL), 6, [Handler], Queued(ClaimInput(DELIVERY)), Publishing(ThenLoop), ["b"], true)
  {
    actions := RetryWaits();
    SecondClaimedHere(1, ALL);
    AfterAppend(actions, HandlerReady(true));
    actions := actions + [HandlerReady(true)];
  }

  lemma RetryClaims() returns (actions: seq<Action>)
    ensures At(After(actions), Lively(Delivering, B(Delivering, 1), ALL), 7, [], Sending(DELIVERY, false), Publishing(ThenLoop), ["b"], true)
  {
    actions := RetryReady();
    SecondClaimedHere(1, ALL);
    SmallRuns();
    Committed(After(actions), Handler, ClaimInput(DELIVERY), FRESH, Lively(Delivering, B(Accepted, 1), ALL), Lively(Delivering, B(Delivering, 1), ALL), 6);
    AfterTwice(actions, FRESH);
    actions := actions + [BeginHead(FRESH, false)] + [FinishWrite(S.Stored)];
  }

  lemma RetryStopped() returns (actions: seq<Action>)
    ensures At(After(actions), Lively(Delivering, B(Delivering, 1), ALL), 7, [], Sending(DELIVERY, false), Publishing(ThenLoop), ["b"], false)
  {
    actions := RetryClaims();
    AfterAppend(actions, StreamCloses);
    actions := actions + [StreamCloses];
  }

  lemma RetryRefused() returns (actions: seq<Action>)
    ensures At(After(actions), Lively(Delivering, B(Delivering, 1), ALL), 7, [Handler], Queued(ReleaseInput(DELIVERY, 2)), Publishing(ThenLoop), ["b"], false)
  {
    actions := RetryStopped();
    AfterAppend(actions, HandlerSend(SendOutcome.Refused, 2));
    actions := actions + [HandlerSend(SendOutcome.Refused, 2)];
  }

  lemma Detached()
    ensures var before := Lively(Delivering, B(Delivering, 1), ALL);
      && Release(before, 1, "b", 2, SETTINGS) == Some(Lively(Delivering, B(Accepted, 2), ["a", "c"]))
  {
    var before := Lively(Delivering, B(Delivering, 1), ALL);
    assert FindId(before.messages, "b") == Some(2);
    assert ALL[1..] == ["c", "b"] && ["c", "b"][1..] == ["b"] && ["b"][1..] == [];
    assert Without(["b"], "b") == [] && Without(["c", "b"], "b") == ["c"] && Without(ALL, "b") == ["a", "c"];
    assert before.messages[2 := B(Accepted, 2)] == [A(Delivering), C(Delivering), B(Accepted, 2)];
  }

  /** The stream had closed, so the second input went back under run 2. */
  lemma RetryGaveBack() returns (actions: seq<Action>)
    ensures At(After(actions), Lively(Delivering, B(Accepted, 2), ["a", "c"]), 8, [], Publishing(ThenNothing), Publishing(ThenLoop), ["b"], false)
  {
    actions := RetryRefused();
    Detached();
    SmallRuns();
    Committed(After(actions), Handler, ReleaseInput(DELIVERY, 2), FRESH,
              Lively(Delivering, B(Delivering, 1), ALL), Lively(Delivering, B(Accepted, 2), ["a", "c"]), 7);
    AfterTwice(actions, FRESH);
    actions := actions + [BeginHead(FRESH, false)] + [FinishWrite(S.Stored)];
  }

  lemma BothResume() returns (actions: seq<Action>)
    ensures At(After(actions), Lively(Delivering, B(Accepted, 2), ["a", "c"]), 8, [], Idle, Looping, ["b"], false)
  {
    actions := RetryGaveBack();
    AfterAppend(actions, HandlerResume(true));
    actions := actions + [HandlerResume(true)];
    AfterAppend(actions, ActivityResume(true));
    actions := actions + [ActivityResume(true)];
  }

  lemma ActivityClaims() returns (actions: seq<Action>)
    ensures At(After(actions), Lively(Delivering, B(Accepted, 2), ["a", "c"]), 8, [Activity], Idle, Queued(ClaimInput(DELIVERY)), [], false)
  {
    actions := BothResume();
    SecondClaimedHere(2, ["a", "c"]);
    TakesNext(After(actions), "b", [], 2);
    AfterAppend(actions, ActivityNext);
    actions := actions + [ActivityNext];
  }

  const CANCEL := Control(5, "cancel:b", CancelAccepted(true), None)
  const CANCEL_OP := CancelControl(None, Some("b"), CANCEL)

  lemma CancelIsDormant(s: System)
    requires Calm(s, Lively(Delivering, B(Accepted, 2), ["a", "c"]), 8) && s.h.Idle? && s.active == Slot(true, false)
    ensures Step(s, HandlerCancel(5, Some("b"))) == Enqueue(s, Handler, CANCEL_OP)
  {
    SecondClaimedHere(2, ["a", "c"]);
    assert "cancel" + (":" + "b") == "cancel:b";
    assert !InRun(B(Accepted, 2), 1);
  }

  /** The activity claims the input that it had listed; a client cancels it, and it is not in the live run. */
  lemma ClaimedAndCancelled() returns (actions: seq<Action>)
    ensures At(After(actions), Lively(Delivering, B(Accepted, 2), ["a", "c"]), 8,
               [Activity, Handler], Queued(CANCEL_OP), Queued(ClaimInput(DELIVERY)), [], false)
  {
    actions := ActivityClaims();
    CancelIsDormant(After(actions));
    AfterAppend(actions, HandlerCancel(5, Some("b")));
    actions := actions + [HandlerCancel(5, Some("b"))];
  }

  lemma ActivityClaimed() returns (actions: seq<Action>)
    ensures At(After(actions), Lively(Delivering, B(Delivering, 2), ["a", "c"]), 9, [Handler], Queued(CANCEL_OP), Sending(DELIVERY, false), [], false)
  {
    actions := ClaimedAndCancelled();
    SecondClaimedHere(2, ["a", "c"]);
    var s := After(actions);
    assert s.queue[1..] == [Handler];
    SmallRuns();
    Committed(s, Activity, ClaimInput(DELIVERY), FRESH, Lively(Delivering, B(Accepted, 2), ["a", "c"]), Lively(Delivering, B(Delivering, 2), ["a", "c"]), 8);
    AfterTwice(actions, FRESH);
    actions := actions + [BeginHead(FRESH, false)] + [FinishWrite(S.Stored)];
  }

  lemma ActivityRefused() returns (actions: seq<Action>)
    ensures At(After(actions), Lively(Delivering, B(Delivering, 2), ["a", "c"]), 9,
               [Handler, Activity], Queued(CANCEL_OP), Queued(ReleaseInput(DELIVERY, 4)), [], false)
  {
    actions := ActivityClaimed();
    AfterAppend(actions, ActivitySend(SendOutcome.Refused, 4));
    actions := actions + [ActivitySend(SendOutcome.Refused, 4)];
  }

  function CancelledB(): Input {
    B(Delivering, 2).(status := Cancelled, reason := "cancelled_before_start")
  }

  function CancelledBody(): Body {
    Lively(Delivering, CancelledB(), ["a", "c"]).(controls := [CANCEL])
  }

  lemma CancelsDelivering()
    ensures CancelWork(Lively(Delivering, B(Delivering, 2), ["a", "c"]), None, Some("b"), CANCEL) == Some(CancelledBody())
    ensures FindId(CancelledBody().messages, "b") == Some(2)
  {
    var before := Lively(Delivering, B(Delivering, 2), ["a", "c"]);
    assert FindId(before.messages, "b") == Some(2);
    assert before.messages[2 := CancelledB()] == [A(Delivering), C(Delivering), CancelledB()];
    assert [] + [CANCEL] == [CANCEL];
  }

  lemma CancelledFirst() returns (actions: seq<Action>)
    ensures At(After(actions), CancelledBody(), 10, [Activity], Publishing(ThenNothing), Queued(ReleaseInput(DELIVERY, 4)), [], false)
  {
    actions := ActivityRefused();
    CancelsDelivering();
    var s := After(actions);
    assert s.queue[1..] == [Activity];
    SmallRuns();
    Committed(s, Handler, CANCEL_OP, FRESH, Lively(Delivering, B(Delivering, 2), ["a", "c"]), CancelledBody(), 9);
    AfterTwice(actions, FRESH);
    actions := actions + [BeginHead(FRESH, false)] + [FinishWrite(S.Stored)];
  }

  lemma CancelGivenBack(s: System)
    requires Calm(s, CancelledBody(), 10) && s.queue == [Activity] && s.a == Queued(ReleaseInput(DELIVERY, 4)) && FRESH !in s.used
    ensures var t := Twice(s, FRESH); IsOpen(t) && AcceptedIn(Current(t), 2)
  {
    CancelsDelivering();
    var next := Release(CancelledBody(), 1, "b", 4, SETTINGS).value;
    LeftIsSmall();
    Committed(s, Activity, ReleaseInput(DELIVERY, 4), FRESH, CancelledBody(), next, 10);
    assert next.messages[2].nativeId == 2 && next.messages[2].status == Accepted;
  }

  lemma LeftIsSmall()
    ensures SmallRun(Release(CancelledBody(), 1, "b", 4, SETTINGS).value.run)
    ensures FindId(CancelledBody().messages, "b") == Some(2)
  {
    CancelsDelivering();
    SmallRuns();
    assert ["a", "c"][1..] == ["c"] && ["c"][1..] == [];
    assert Without(["c"], "b") == ["c"] && Without(["a", "c"], "b") == ["a", "c"];
  }

  /** An input whose cancellation the client is promised is accepted again, and a later run will deliver it. */
  lemma CancelledIsNotFinal() returns (before: seq<Action>)
    ensures var s := After(before);
      && IsOpen(s) && CancelledB() in Current(s).messages && CANCEL in Current(s).controls && CANCEL.reply == CancelAccepted(true)
      && var t := After(before + [BeginHead(FRESH, false)] + [FinishWrite(S.Stored)]);
      IsOpen(t) && AcceptedIn(Current(t), CancelledB().nativeId)
  {
    before := CancelledFirst();
    var s := After(before);
    assert Current(s).messages[2] == CancelledB() && Current(s).controls[0] == CANCEL;
    CancelGivenBack(s);
    AfterTwice(before, FRESH);
  }
}
