/**
 A file that can be written and never read again. Inputs keep their text, a control character takes
 six bytes in JSON, and only reading knows a limit.
 */
module ClaudeLongTexts {
  import opened Wrappers
  import opened ClaudeState
  import opened ClaudeCallbacks
  import opened ClaudeRuntime
  import opened ClaudeRuntimeWrites
  import opened ClaudeRuntimeTheorems
  import opened ClaudeRuns
  import Lines
  import S = ClaudeStore

  // ------------------------------------------------------------------- the inputs

  const MARK: char := '\U{0001}'
  const SETTINGS: nat := 7

  function Marks(n: nat): string {
    if n == 0 then "" else Marks(n - 1) + [MARK]
  }

  lemma {:induction false} MarksBytes(n: nat)
    ensures |Marks(n)| == n && Lines.Size(Marks(n)) == n && JsonBytes(Marks(n)) == 6 * n
  {
    if n > 0 {
      MarksBytes(n - 1);
      assert Marks(n)[..n - 1] == Marks(n - 1);
    }
  }

  lemma MarksAreText(n: nat)
    requires 0 < n <= INPUT_MAX_BYTES
    ensures ValidText(Marks(n))
  {
    MarksBytes(n);
    assert Marks(n)[n - 1] == MARK && MARK in Marks(n) && !IsSpace(MARK);
  }

  /** As long as an input may be, and as large in JSON as that can get. */
  predicate IsLong(text: string) {
    ValidText(text) && JsonBytes(text) == 196608
  }

  lemma LongExists(n: nat) returns (text: string)
    requires n == INPUT_MAX_BYTES
    ensures IsLong(text)
  {
    text := Marks(n);
    MarksBytes(n);
    MarksAreText(n);
  }

  /** Two letters tell 676 inputs apart. */
  function Id(k: nat): string
    requires k < 676
  {
    [('a' as int + k / 26) as char, ('a' as int + k % 26) as char]
  }

  lemma IdsDiffer(i: nat, k: nat)
    requires i < k < 676
    ensures Id(i) != Id(k)
  {
    assert i == 26 * (i / 26) + i % 26 && k == 26 * (k / 26) + k % 26;
    if i / 26 == k / 26 {
      assert Id(i)[1] != Id(k)[1];
    } else {
      assert Id(i)[0] != Id(k)[0];
    }
  }

  function LongInput(k: nat, text: string): Input
    requires k < 676
  {
    Input(Id(k), text, k + 1, k + 1, Accepted, Some(SETTINGS), 0, "")
  }

  function Stock(n: nat, text: string): (messages: seq<Input>)
    requires n <= 676
    ensures |messages| == n && forall i :: 0 <= i < n ==> messages[i] == LongInput(i, text)
  {
    if n == 0 then [] else Stock(n - 1, text) + [LongInput(n - 1, text)]
  }

  lemma TextsGrow(messages: seq<Input>, m: Input)
    ensures TextsBytes(messages + [m]) == TextsBytes(messages) + JsonBytes(m.text)
  {
    assert (messages + [m])[..|messages|] == messages;
  }

  lemma {:induction false} StockBytes(n: nat, text: string)
    requires n <= 676 && IsLong(text)
    ensures TextsBytes(Stock(n, text)) == 196608 * n
  {
    if n > 0 {
      StockBytes(n - 1, text);
      TextsGrow(Stock(n - 1, text), LongInput(n - 1, text));
    }
  }

  lemma NewId(n: nat, text: string)
    requires n < 676
    ensures FindId(Stock(n, text), Id(n)).None?
  {
    forall i | 0 <= i < n ensures Stock(n, text)[i].id != Id(n) { IdsDiffer(i, n); }
  }

  function Stocked(n: nat, text: string): Body
    requires n <= 676
  {
    NOTHING.(messages := Stock(n, text))
  }

  // ------------------------------------------------------------------- one flush

  /** An outbox with one publication and no events goes out and is acknowledged. */
  function Flushed(s: System): System {
    Step(Step(Sent(s), BeginHead(0, false)), FinishWrite(S.Stored))
  }

  function Sent(s: System): System {
    Step(Step(Step(s, StartFlush), SendPart), SendPart)
  }

  lemma Sends(s: System, b: Body, revision: nat, p: Publication)
    requires Rests(s, b, revision) && OutboxOf(s) == [p] && p.events == [] && s.queue == []
    ensures Sent(s) == s.(core := s.core.(flush := S.AckQueued(p.revision), sent := Sent(s).core.sent), queue := [Publisher])
  {
    var t := Step(s, StartFlush);
    assert t == s.(core := s.core.(flush := S.Sending([p], 0, 0)));
    var u := Step(t, SendPart);
    assert u == t.(core := t.core.(flush := S.Sending([p], 0, 1), sent := u.core.sent));
  }

  lemma Acknowledges(s: System, b: Body, revision: nat, p: Publication)
    requires s.core.flush == S.AckQueued(p.revision) && s.queue == [Publisher] && 0 !in s.used
    requires Rests(s.(core := s.core.(flush := S.FlushIdle), queue := []), b, revision) && OutboxOf(s) == [p]
    ensures var t := Step(Step(s, BeginHead(0, false)), FinishWrite(S.Stored));
      !(s.a.Sending? && !s.a.first) ==> Rests(t, b, revision) && OutboxOf(t) == [] && t == s.(core := t.core, queue := [])
  {
    assert S.DropAcknowledged([p], p.revision) == [] by { assert [p][1..] == []; }
    var u := Step(s, BeginHead(0, false));
    assert u == s.(core := S.Step(s.core, S.BeginAck), writer := Some(Publisher), queue := []);
  }

  ghost predicate Flushable(s: System, b: Body, revision: nat, p: Publication) {
    Rests(s, b, revision) && OutboxOf(s) == [p] && p.events == [] && s.queue == [] && 0 !in s.used && s.a.Idle?
  }

  lemma Flushes(s: System, b: Body, revision: nat, p: Publication)
    requires Flushable(s, b, revision, p)
    ensures var t := Flushed(s); Rests(t, b, revision) && OutboxOf(t) == [] && t == s.(core := t.core)
  {
    Sends(s, b, revision, p);
    Acknowledges(Sent(s), b, revision, p);
  }

  lemma FlushRun(before: seq<Action>) returns (actions: seq<Action>)
    ensures After(actions) == Flushed(After(before))
  {
    AfterAppend(before, StartFlush);
    AfterAppend(before + [StartFlush], SendPart);
    var begun := before + [StartFlush] + [SendPart];
    AfterAppend(begun, SendPart);
    AfterAppend(begun + [SendPart], BeginHead(0, false));
    AfterAppend(begun + [SendPart] + [BeginHead(0, false)], FinishWrite(S.Stored));
    actions := begun + [SendPart] + [BeginHead(0, false)] + [FinishWrite(S.Stored)];
  }

  // ---------------------------------------------------------------------- the run

  ghost predicate Stocks(s: System, n: nat, text: string)
    requires n <= 676
  {
    && Rests(s, Stocked(n, text), n + 1) && OutboxOf(s) == [] && Tasks(s, [], Idle, Idle, []) && s.active.None?
    && forall i :: i in s.used ==> 0 < i <= n
  }

  function AdmitLong(n: nat, text: string): Action
    requires n < 676
  {
    HandlerAdmit(Id(n), text, n + 1, SETTINGS, 0)
  }

  lemma Admits(s: System, n: nat, text: string)
    requires n < 676 && Stocks(s, n, text) && IsLong(text)
    ensures Step(s, AdmitLong(n, text)) == Enqueue(s, Handler, AdmitInput(Id(n), text, n + 1, SETTINGS, 0, false))
  {
    NewId(n, text);
  }

  lemma StockGrows(n: nat, text: string)
    requires n < 676
    ensures Admit(Stocked(n, text), LongInput(n, text)) == Stocked(n + 1, text)
  {
  }

  lemma AdmitCommits(s: System, n: nat, text: string)
    requires n < 676 && Stocks(s, n, text)
    ensures var op := AdmitInput(Id(n), text, n + 1, SETTINGS, 0, false);
      var t := Twice(Enqueue(s, Handler, op), n + 1);
      && Rests(t, Stocked(n + 1, text), n + 2) && OutboxOf(t) == [Publish(n + 2, Stocked(n + 1, text), [])]
      && t == s.(core := t.core, used := s.used + {n + 1}, h := Publishing(ThenStart))
  {
    var op, next := AdmitInput(Id(n), text, n + 1, SETTINGS, 0, false), Stocked(n + 1, text);
    StockGrows(n, text);
    var u := Enqueue(s, Handler, op);
    assert Mutate(op, u.core.store.current.value, n + 1, false) == Some(next);
    Committed(u, Handler, op, n + 1, Stocked(n, text), next, n + 1);
    assert u.queue[1..] == [];
  }

  lemma GivesUp(s: System)
    requires IsOpen(s) && s.h.Publishing?
    ensures Step(s, HandlerResume(false)) == s.(h := Idle)
  {
  }

  /** One input more than before, stored and not yet published. */
  ghost predicate StoredOne(s: System, t: System, n: nat, text: string)
    requires n < 676
  {
    && Rests(t, Stocked(n + 1, text), n + 2) && OutboxOf(t) == [Publish(n + 2, Stocked(n + 1, text), [])]
    && t == s.(core := t.core, used := s.used + {n + 1}, h := Idle)
  }

  /** The input is stored; its own flush fails, so no run starts. */
  lemma StoreOne(before: seq<Action>, n: nat, text: string) returns (actions: seq<Action>)
    requires n < 676 && Stocks(After(before), n, text) && IsLong(text)
    ensures StoredOne(After(before), After(actions), n, text)
  {
    Admits(After(before), n, text);
    AdmitCommits(After(before), n, text);
    AfterAppend(before, AdmitLong(n, text));
    var accepted := before + [AdmitLong(n, text)];
    AfterTwice(accepted, n + 1);
    var stored := accepted + [BeginHead(n + 1, false)] + [FinishWrite(S.Stored)];
    GivesUp(After(stored));
    AfterAppend(stored, HandlerResume(false));
    actions := stored + [HandlerResume(false)];
  }

  lemma StoredIsFlushable(s: System, t: System, n: nat, text: string)
    requires n < 676 && Stocks(s, n, text) && StoredOne(s, t, n, text)
    ensures Flushable(t, Stocked(n + 1, text), n + 2, Publish(n + 2, Stocked(n + 1, text), []))
  {
  }

  lemma FlushedIsStock(s: System, t: System, u: System, n: nat, text: string)
    requires n < 676 && Stocks(s, n, text) && StoredOne(s, t, n, text)
    requires Rests(u, Stocked(n + 1, text), n + 2) && OutboxOf(u) == [] && u == t.(core := u.core)
    ensures Stocks(u, n + 1, text)
  {
  }

  lemma FlushStocks(s: System, t: System, n: nat, text: string)
    requires n < 676 && Stocks(s, n, text) && StoredOne(s, t, n, text)
    ensures Stocks(Flushed(t), n + 1, text)
  {
    StoredIsFlushable(s, t, n, text);
    Flushes(t, Stocked(n + 1, text), n + 2, Publish(n + 2, Stocked(n + 1, text), []));
    FlushedIsStock(s, t, Flushed(t), n, text);
  }

  /** One input more; a later `sync` brings it out. */
  lemma StockOne(before: seq<Action>, n: nat, text: string) returns (actions: seq<Action>)
    requires n < 676 && Stocks(After(before), n, text) && IsLong(text)
    ensures Stocks(After(actions), n + 1, text)
  {
    var stored := StoreOne(before, n, text);
    FlushStocks(After(before), After(stored), n, text);
    actions := FlushRun(stored);
  }

  lemma FlushNew(s: System, text: string)
    requires New(s, Publish(1, NOTHING, []))
    ensures Stocks(Flushed(s), 0, text)
  {
    Flushes(s, NOTHING, 1, Publish(1, NOTHING, []));
  }

  lemma {:induction false} StockAll(n: nat, text: string) returns (actions: seq<Action>)
    requires n <= 676 && IsLong(text)
    ensures Stocks(After(actions), n, text)
  {
    if n == 0 {
      var start := Recovered();
      FlushNew(After(start), text);
      actions := FlushRun(start);
    } else {
      actions := StockAll(n - 1, text);
      actions := StockOne(actions, n - 1, text);
    }
  }

  lemma ManyExceed(n: nat, text: string)
    requires 342 <= n <= 676 && IsLong(text)
    ensures TextsBytes(Stock(n, text)) > STATE_MAX_BYTES
  {
    StockBytes(n, text);
  }

  lemma StopsWedged(run: seq<Action>, n: nat, text: string, actions: seq<Action>)
    requires n <= 676 && Stocks(After(run), n, text) && TextsBytes(Stock(n, text)) > STATE_MAX_BYTES
    ensures !From(After(run + [Crash(false)]), actions).initialised
  {
    AfterAppend(run, Crash(false));
    CoreInv(run);
    RunInv(run + [Crash(false)]);
    CrashStep(After(run));
    WedgedForever(After(run + [Crash(false)]), After(run + [Crash(false)]).core.store.disk, actions);
  }

  lemma StopsWithRoom(run: seq<Action>, n: nat, text: string)
    requires n <= 676 && Stocks(After(run), n, text)
    ensures var disk := After(run + [Crash(false)]).core.store.disk;
      && disk.Some? && disk.value.body.messages == Stock(n, text) && disk.value.outbox == [] && HasRoom(disk) && RecoveryFits(disk)
  {
    AfterAppend(run, Crash(false));
    CoreInv(run);
    CrashStep(After(run));
    FewDigits(n + 2);
  }

  /**
   For any number of inputs from 342 on, there is a run that accepts and stores them, publishes all there
   is, and stops. Its file has room for the recovery commit and the view of that would fit, yet whatever
   happens later no restart brings the runtime back.
   */
  lemma LongTextsCanWedge(n: nat) returns (text: string, before: seq<Action>)
    requires 342 <= n <= 676
    ensures ValidText(text)
    ensures var disk := After(before).core.store.disk;
      && disk.Some? && disk.value.body.messages == Stock(n, text) && disk.value.outbox == [] && HasRoom(disk) && RecoveryFits(disk)
    ensures forall actions :: !From(After(before), actions).initialised
  {
    text := LongExists(INPUT_MAX_BYTES);
    var run := StockAll(n, text);
    before := run + [Crash(false)];
    ManyExceed(n, text);
    StopsWithRoom(run, n, text);
    forall actions ensures !From(After(before), actions).initialised { StopsWedged(run, n, text, actions); }
  }
}
