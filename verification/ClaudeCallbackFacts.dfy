/** What each callback keeps of the admitted inputs, whatever else it changes. */
module ClaudeCallbackFacts {
  import opened Wrappers
  import opened ClaudeState
  import opened ClaudeCallbacks

  type Log = seq<(nat, NativeEvent)>

  // ------------------------------------------------------------- vocabulary

  ghost predicate Distinct(b: Body) {
    forall i, j :: 0 <= i < j < |b.messages| ==>
      b.messages[i].id != b.messages[j].id && b.messages[i].nativeId != b.messages[j].nativeId
  }

  ghost predicate Has(b: Body, id: string, nativeId: nat) {
    exists i :: 0 <= i < |b.messages| && b.messages[i].id == id && b.messages[i].nativeId == nativeId
  }

  ghost predicate HasAs(b: Body, id: string, nativeId: nat, status: InputStatus) {
    exists i :: 0 <= i < |b.messages| && b.messages[i].id == id && b.messages[i].nativeId == nativeId && b.messages[i].status == status
  }

  /** Any input under this ID is the one with this native ID. */
  ghost predicate Matches(b: Body, id: string, nativeId: nat) {
    forall i :: 0 <= i < |b.messages| && b.messages[i].id == id ==> b.messages[i].nativeId == nativeId
  }

  ghost predicate NoInput(b: Body, id: string) {
    forall i :: 0 <= i < |b.messages| ==> b.messages[i].id != id
  }

  ghost predicate AcceptedIn(b: Body, nativeId: nat) {
    exists i :: 0 <= i < |b.messages| && b.messages[i].nativeId == nativeId && b.messages[i].status == Accepted
  }

  ghost predicate NoTerminal(b: Body) {
    forall i :: 0 <= i < |b.messages| ==> !Terminal(b.messages[i])
  }

  ghost predicate Echoed(log: Log, run: nat, nativeId: nat) {
    exists i :: 0 <= i < |log| && log[i] == (run, UserEcho(nativeId))
  }

  ghost predicate EchoedThenResult(log: Log, run: nat, nativeId: nat) {
    exists i, j :: 0 <= i < j < |log| && log[i] == (run, UserEcho(nativeId)) && log[j] == (run, ResultEvent(false))
  }

  /** An input runs only after its echo, and is completed only by a later successful result of the same run. */
  ghost predicate Witnessed(b: Body, log: Log) {
    forall i :: 0 <= i < |b.messages| ==>
      var m := b.messages[i];
      && (m.status == Running ==> Echoed(log, m.runId, m.nativeId))
      && (m.status == Completed ==> EchoedThenResult(log, m.runId, m.nativeId))
  }

  /** Private settings exist only while the input is accepted. */
  ghost predicate SettingsErased(b: Body) {
    forall i :: 0 <= i < |b.messages| && b.messages[i].settings.Some? ==> b.messages[i].status == Accepted
  }

  ghost predicate Bounded(b: Body) {
    |b.messages| <= MAX_MESSAGES && |b.controls| <= MAX_CONTROLS
  }

  /** What every durable or in-memory body satisfies. `blocked` holds the native IDs written or about to be written. */
  ghost predicate Fit(b: Body, blocked: set<nat>, used: set<nat>, log: Log) {
    && Distinct(b)
    && (forall i :: 0 <= i < |b.messages| ==> b.messages[i].nativeId in used)
    && (forall n :: n in blocked ==> !AcceptedIn(b, n))
    && SettingsErased(b)
    && Bounded(b)
    && Witnessed(b, log)
  }

  /** The same inputs in the same places, with statuses and runs possibly changed. */
  ghost predicate SameInputs(b: Body, b': Body) {
    && |b'.messages| == |b.messages|
    && forall i :: 0 <= i < |b.messages| ==>
         b'.messages[i].id == b.messages[i].id && b'.messages[i].nativeId == b.messages[i].nativeId
  }

  ghost predicate NoNewAccepted(b: Body, b': Body)
    requires |b'.messages| == |b.messages|
  {
    forall i :: 0 <= i < |b.messages| && b'.messages[i].status == Accepted ==> b.messages[i].status == Accepted
  }

  ghost predicate NoNewTerminalLoss(b: Body, b': Body)
    requires |b'.messages| == |b.messages|
  {
    forall i :: 0 <= i < |b.messages| && Terminal(b.messages[i]) ==> Terminal(b'.messages[i])
  }

  // ------------------------------------------------------------- same inputs

  lemma SameInputsKeep(b: Body, b': Body, id: string, nativeId: nat)
    requires SameInputs(b, b')
    ensures Has(b, id, nativeId) ==> Has(b', id, nativeId)
    ensures Matches(b, id, nativeId) ==> Matches(b', id, nativeId)
    ensures NoInput(b, id) ==> NoInput(b', id)
    ensures Distinct(b) ==> Distinct(b')
  {
    if Has(b, id, nativeId) {
      var i :| 0 <= i < |b.messages| && b.messages[i].id == id && b.messages[i].nativeId == nativeId;
      assert b'.messages[i].id == id;
    }
  }

  lemma SameInputsAccepted(b: Body, b': Body)
    requires SameInputs(b, b') && NoNewAccepted(b, b')
    ensures forall n :: AcceptedIn(b', n) ==> AcceptedIn(b, n)
  {
    forall n | AcceptedIn(b', n) ensures AcceptedIn(b, n) {
      var i :| 0 <= i < |b'.messages| && b'.messages[i].nativeId == n && b'.messages[i].status == Accepted;
      assert b.messages[i].nativeId == n;
    }
  }

  /** A change that invents no accepted input, keeps settings private and statuses witnessed keeps a body fit. */
  lemma SameInputsFit(b: Body, b': Body, blocked: set<nat>, used: set<nat>, log: Log, log': Log)
    requires Fit(b, blocked, used, log)
    requires SameInputs(b, b') && NoNewAccepted(b, b')
    requires SettingsErased(b') && Witnessed(b', log') && |b'.controls| <= MAX_CONTROLS
    ensures Fit(b', blocked, used, log')
  {
    SameInputsAccepted(b, b');
    forall i | 0 <= i < |b'.messages| ensures b'.messages[i].nativeId in used {
      assert b.messages[i].nativeId in used;
    }
  }

  lemma FitWeakens(b: Body, blocked: set<nat>, used: set<nat>, log: Log, blocked': set<nat>, used': set<nat>, log': Log)
    requires Fit(b, blocked, used, log)
    requires blocked' <= blocked && used <= used' && log <= log'
    ensures Fit(b, blocked', used', log')
  {
    WitnessedGrows(b, log, log');
  }

  lemma WitnessedGrows(b: Body, log: Log, log': Log)
    requires Witnessed(b, log) && log <= log'
    ensures Witnessed(b, log')
  {
    forall i | 0 <= i < |b.messages|
      ensures b.messages[i].status == Running ==> Echoed(log', b.messages[i].runId, b.messages[i].nativeId)
      ensures b.messages[i].status == Completed ==> EchoedThenResult(log', b.messages[i].runId, b.messages[i].nativeId)
    {
      var m := b.messages[i];
      if m.status == Running {
        var k :| 0 <= k < |log| && log[k] == (m.runId, UserEcho(m.nativeId));
        assert log'[k] == log[k];
      } else if m.status == Completed {
        var k, j :| 0 <= k < j < |log| && log[k] == (m.runId, UserEcho(m.nativeId)) && log[j] == (m.runId, ResultEvent(false));
        assert log'[k] == log[k] && log'[j] == log[j];
      }
    }
  }

  // ----------------------------------------------------------- each callback

  lemma ClaimFit(b: Body, id: string, blocked: set<nat>, used: set<nat>, log: Log)
    requires Fit(b, blocked, used, log) && Claim(b, id).Some?
    ensures var b' := Claim(b, id).value;
            && SameInputs(b, b') && NoNewAccepted(b, b') && NoNewTerminalLoss(b, b') && Fit(b', blocked, used, log)
            && (forall n :: ClaimAttempts(b, id) && Matches(b, id, n) ==>
                  AcceptedIn(b, n) && !AcceptedIn(b', n) && HasAs(b', id, n, Delivering) && n in used)
  {
    var b' := Claim(b, id).value;
    SameInputsFit(b, b', blocked, used, log, log);
    var i := FindId(b.messages, id).value;
    if ClaimAttempts(b, id) {
      forall n | Matches(b, id, n) ensures AcceptedIn(b, n) && !AcceptedIn(b', n) && HasAs(b', id, n, Delivering) && n in used {
        assert b.messages[i].nativeId == n && b'.messages[i].status == Delivering;
      }
    }
  }

  lemma StartRunFit(b: Body, run: nat, first: string, blocked: set<nat>, used: set<nat>, log: Log)
    requires Fit(b, blocked, used, log) && StartRun(b, run, first).Some?
    ensures var b' := StartRun(b, run, first).value;
            && SameInputs(b, b') && NoNewAccepted(b, b') && Fit(b', blocked, used, log)
            && (forall n :: Matches(b, first, n) ==> !AcceptedIn(b', n) && n in used)
  {
    var b' := StartRun(b, run, first).value;
    SameInputsFit(b, b', blocked, used, log, log);
    var i := FindId(b.messages, first).value;
    forall n | Matches(b, first, n) ensures !AcceptedIn(b', n) && n in used {
      assert b.messages[i].nativeId == n && b'.messages[i].status == Delivering;
    }
  }

  lemma FinaliseFit(b: Body, run: nat, outcome: Outcome, code: string, blocked: set<nat>, used: set<nat>, log: Log)
    requires Fit(b, blocked, used, log)
    ensures var b' := Finalise(b, run, outcome, code);
            SameInputs(b, b') && NoNewAccepted(b, b') && NoNewTerminalLoss(b, b') && Fit(b', blocked, used, log)
  {
    SameInputsFit(b, Finalise(b, run, outcome, code), blocked, used, log, log);
  }

  lemma MarkFit(b: Body, run: nat, blocked: set<nat>, used: set<nat>, log: Log)
    requires Fit(b, blocked, used, log)
    ensures Fit(MarkCancelling(b, run), blocked, used, log)
  {
    SameInputsFit(b, MarkCancelling(b, run), blocked, used, log, log);
  }

  lemma ResetFit(b: Body, conversationId: nat, control: Control, blocked: set<nat>, used: set<nat>, log: Log)
    requires Fit(b, blocked, used, log)
    ensures var b' := ResetSession(b, conversationId, control); SameInputs(b, b') && Fit(b', blocked, used, log)
  {
    SameInputsFit(b, ResetSession(b, conversationId, control), blocked, used, log, log);
  }

  lemma RecoverFit(b: Body, isNew: bool, seed: Option<(nat, bool)>, nextRun: nat, blocked: set<nat>, used: set<nat>, log: Log)
    requires Fit(b, blocked, used, log)
    ensures var b' := Recover(b, isNew, seed, nextRun);
            && SameInputs(b, b') && Fit(b', blocked, used, log)
            && (forall i :: 0 <= i < |b'.messages| ==> !Pending(b'.messages[i]))
            && (forall i :: 0 <= i < |b'.messages| ==> (b'.messages[i].status == Accepted <==> b.messages[i].status == Accepted))
  {
    SameInputsFit(b, Recover(b, isNew, seed, nextRun), blocked, used, log, log);
  }

  lemma CancelFit(b: Body, requested: Option<nat>, dormant: Option<string>, control: Control,
                  blocked: set<nat>, used: set<nat>, log: Log)
    requires Fit(b, blocked, used, log) && CancelWork(b, requested, dormant, control).Some?
    ensures var b' := CancelWork(b, requested, dormant, control).value;
            && SameInputs(b, b') && Fit(b', blocked, used, log) && NoNewTerminalLoss(b, b')
            && (forall i :: 0 <= i < |b.messages| && (dormant.None? || b.messages[i].id != dormant.value) ==> b'.messages[i] == b.messages[i])
  {
    SameInputsFit(b, CancelWork(b, requested, dormant, control).value, blocked, used, log, log);
  }

  lemma ReleaseFit(b: Body, run: nat, id: string, nextRun: nat, settings: nat, nativeId: nat, blocked: set<nat>, used: set<nat>, log: Log)
    requires Fit(b, blocked, used, log) && Release(b, run, id, nextRun, settings).Some?
    requires Matches(b, id, nativeId) && nativeId !in blocked
    ensures var b' := Release(b, run, id, nextRun, settings).value; SameInputs(b, b') && Fit(b', blocked, used, log)
  {
    ReleaseAccepts(b, run, id, nextRun, settings, nativeId);
  }

  lemma ReleaseAccepts(b: Body, run: nat, id: string, nextRun: nat, settings: nat, nativeId: nat)
    requires Release(b, run, id, nextRun, settings).Some? && Matches(b, id, nativeId)
    ensures forall n :: AcceptedIn(Release(b, run, id, nextRun, settings).value, n) ==> n == nativeId || AcceptedIn(b, n)
  {
    var b' := Release(b, run, id, nextRun, settings).value;
    forall n | AcceptedIn(b', n) ensures n == nativeId || AcceptedIn(b, n) {
      var j :| 0 <= j < |b'.messages| && b'.messages[j].nativeId == n && b'.messages[j].status == Accepted;
      if n != nativeId { assert b.messages[j] == b'.messages[j]; }
    }
  }

  lemma EvictTarget(messages: seq<Input>, i: nat) returns (to: nat)
    requires i < |messages| && !Terminal(messages[i])
    requires |messages| < MAX_MESSAGES || FindTerminal(messages).Some?
    ensures to < |Evict(messages)| && Evict(messages)[to] == messages[i]
  {
    to := if |messages| < MAX_MESSAGES || i < FindTerminal(messages).value then i else i - 1;
  }

  lemma EvictKeeps(messages: seq<Input>, i: nat)
    requires i < |messages| && !Terminal(messages[i])
    requires |messages| < MAX_MESSAGES || FindTerminal(messages).Some?
    ensures exists j :: 0 <= j < |Evict(messages)| && Evict(messages)[j] == messages[i]
  {
    var j := EvictTarget(messages, i);
    assert Evict(messages)[j] == messages[i];
  }

  lemma AdmitFit(b: Body, input: Input, blocked: set<nat>, used: set<nat>, log: Log)
    requires Fit(b, blocked, used, log)
    requires NoInput(b, input.id) && input.nativeId !in used && input.status == Accepted
    requires blocked <= used
    ensures Fit(Admit(b, input), blocked, used + {input.nativeId}, log)
    ensures forall id, n :: id != input.id && Matches(b, id, n) ==> Matches(Admit(b, input), id, n)
  {
    var b', kept := Admit(b, input), Evict(b.messages);
    assert forall i :: 0 <= i < |kept| ==> kept[i] in b.messages;
    assert Distinct(b') by {
      forall i, j | 0 <= i < j < |b'.messages|
        ensures b'.messages[i].id != b'.messages[j].id && b'.messages[i].nativeId != b'.messages[j].nativeId
      {
        if j < |kept| { EvictDistinct(b, i, j); } else { assert kept[i] in b.messages; }
      }
    }
    AdmitAccepts(b, input);
    assert forall i :: 0 <= i < |b'.messages| ==> b'.messages[i] in b.messages || b'.messages[i] == input;
    assert Witnessed(b', log);
  }

  lemma AdmitAccepts(b: Body, input: Input)
    ensures forall n :: AcceptedIn(Admit(b, input), n) ==> n == input.nativeId || AcceptedIn(b, n)
  {
    var b', kept := Admit(b, input), Evict(b.messages);
    forall n | AcceptedIn(b', n) && n != input.nativeId ensures AcceptedIn(b, n) {
      var i :| 0 <= i < |b'.messages| && b'.messages[i].nativeId == n && b'.messages[i].status == Accepted;
      assert kept[i] in b.messages;
    }
  }

  /** Where a kept input came from; the places keep their order. */
  lemma EvictOrigin(messages: seq<Input>, i: nat) returns (from: nat)
    requires i < |Evict(messages)|
    ensures from < |messages| && Evict(messages)[i] == messages[from]
    ensures from == (if |messages| < MAX_MESSAGES || FindTerminal(messages).None? || i < FindTerminal(messages).value then i else i + 1)
  {
    from := if |messages| < MAX_MESSAGES || FindTerminal(messages).None? || i < FindTerminal(messages).value then i else i + 1;
  }

  lemma EvictDistinct(b: Body, i: nat, j: nat)
    requires Distinct(b) && i < j < |Evict(b.messages)|
    ensures var kept := Evict(b.messages); kept[i].id != kept[j].id && kept[i].nativeId != kept[j].nativeId
  {
    var from := EvictOrigin(b.messages, i);
    var to := EvictOrigin(b.messages, j);
    assert from < to;
  }

  /** Observing a batch moves inputs only along accepted evidence, which the log then holds. */
  lemma {:induction false} ObserveFit(b: Body, run: nat, batch: seq<NativeEvent>, accepting: bool, blocked: set<nat>, used: set<nat>, log: Log)
    requires Fit(b, blocked, used, log) && Observe(b, run, batch, accepting).Some?
    ensures var b' := Observe(b, run, batch, accepting).value;
            && SameInputs(b, b') && NoNewAccepted(b, b') && NoNewTerminalLoss(b, b')
            && Fit(b', blocked, used, log + Tag(run, batch))
  {
    if batch == [] {
      assert log + Tag(run, batch) == log;
    } else {
      var shorter, e := batch[..|batch| - 1], batch[|batch| - 1];
      ObserveFit(b, run, shorter, accepting, blocked, used, log);
      ObserveOneFit(Observe(b, run, shorter, accepting).value, run, e, accepting, blocked, used, log + Tag(run, shorter));
      assert log + Tag(run, batch) == log + Tag(run, shorter) + [(run, e)];
    }
  }

  function Tag(run: nat, batch: seq<NativeEvent>): Log {
    seq(|batch|, i requires 0 <= i < |batch| => (run, batch[i]))
  }

  lemma ObserveOneFit(b: Body, run: nat, e: NativeEvent, accepting: bool, blocked: set<nat>, used: set<nat>, log: Log)
    requires Fit(b, blocked, used, log) && ObserveOne(b, run, e, accepting).Some?
    ensures var b' := ObserveOne(b, run, e, accepting).value;
            && SameInputs(b, b') && NoNewAccepted(b, b') && NoNewTerminalLoss(b, b')
            && Fit(b', blocked, used, log + [(run, e)])
  {
    var b', log' := ObserveOne(b, run, e, accepting).value, log + [(run, e)];
    WitnessedGrows(b, log, log');
    assert log'[|log|] == (run, e);
    forall i | 0 <= i < |b'.messages|
      ensures b'.messages[i].status == Running ==> Echoed(log', b'.messages[i].runId, b'.messages[i].nativeId)
      ensures b'.messages[i].status == Completed ==> EchoedThenResult(log', b'.messages[i].runId, b'.messages[i].nativeId)
    {
      var m, m' := b.messages[i], b'.messages[i];
      if m'.status == Completed && m.status == Running {
        var k :| 0 <= k < |log| && log[k] == (m.runId, UserEcho(m.nativeId));
        assert log'[k] == log[k];
      }
    }
    SameInputsFit(b, b', blocked, used, log, log');
  }

  /** Only an echo of its own native ID moves an input out of delivering. */
  lemma {:induction false} ObserveKeepsDelivering(b: Body, run: nat, batch: seq<NativeEvent>, accepting: bool, i: nat)
    requires Observe(b, run, batch, accepting).Some?
    requires i < |b.messages| && b.messages[i].status in {Accepted, Delivering}
    requires UserEcho(b.messages[i].nativeId) !in batch
    ensures var b' := Observe(b, run, batch, accepting).value; i < |b'.messages| && b'.messages[i] == b.messages[i]
  {
    if batch != [] {
      ObserveKeepsDelivering(b, run, batch[..|batch| - 1], accepting, i);
      assert batch[|batch| - 1] in batch;
    }
  }

  /** An accepted input is untouched whatever is observed. */
  lemma {:induction false} ObserveKeepsAccepted(b: Body, run: nat, batch: seq<NativeEvent>, accepting: bool, i: nat)
    requires Observe(b, run, batch, accepting).Some?
    requires i < |b.messages| && b.messages[i].status == Accepted
    ensures var b' := Observe(b, run, batch, accepting).value; i < |b'.messages| && b'.messages[i] == b.messages[i]
  {
    if batch != [] {
      ObserveKeepsAccepted(b, run, batch[..|batch| - 1], accepting, i);
    }
  }
}
