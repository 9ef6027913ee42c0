/**
 The draft that a commit callback edits in place. Each method is one callback of the runtime,
 proved to compute the function of the same name in module `ClaudeCallbacks`; `false` stands
 for a callback that throws, after which the store drops the draft.
 */
module ClaudeDraft {
  import opened Wrappers
  import opened ClaudeState
  import opened ClaudeCallbacks

  class Draft {
    var conversationId: nat
    var nativeStarted: bool
    var messages: seq<Input>
    var run: Option<Run>
    var controls: seq<Control>

    /** A structured clone of the current body. */
    constructor (body: Body)
      ensures Current() == body
    {
      conversationId, nativeStarted, messages, run, controls :=
        body.conversationId, body.nativeStarted, body.messages, body.run, body.controls;
    }

    ghost function Current(): Body
      reads this
    {
      Body(conversationId, nativeStarted, messages, run, controls)
    }

    /** `find`: the position of the first message with an ID. */
    method Find(id: string) returns (index: Option<nat>)
      ensures index == FindId(messages, id)
    {
      var i := 0;
      while i < |messages|
        invariant 0 <= i <= |messages|
        invariant forall k :: 0 <= k < i ==> messages[k].id != id
      {
        if messages[i].id == id { return Some(i); }
        i := i + 1;
      }
      index := None;
    }

    /** The callback of `initialize`. */
    method RecoverState(isNew: bool, seed: Option<(nat, bool)>, nextRun: nat)
      modifies this
      ensures Current() == Recover(old(Current()), isNew, seed, nextRun)
    {
      ghost var before := Current();
      if isNew && seed.Some? {
        conversationId, nativeStarted := seed.value.0, seed.value.1;
      }
      var wasCancelled := run.Some? && run.value.status == RunCancelling;
      var i := 0;
      while i < |messages|
        invariant 0 <= i <= |messages| == |before.messages|
        invariant forall k :: 0 <= k < i ==> messages[k] == RecoverInput(before.messages[k], before.run, wasCancelled, nextRun)
        invariant forall k :: i <= k < |messages| ==> messages[k] == before.messages[k]
        invariant run == before.run && controls == before.controls
        invariant conversationId == (if isNew && seed.Some? then seed.value.0 else before.conversationId)
        invariant nativeStarted == (if isNew && seed.Some? then seed.value.1 else before.nativeStarted)
      {
        var m := messages[i];
        if Pending(m) {
          m := m.(status := if wasCancelled && run.Some? && run.value.id == m.runId then Cancelled else Interrupted,
                  reason := "native_outcome_unknown");
        }
        if m.status != Accepted { m := m.(settings := None); } else { m := m.(runId := nextRun); }
        messages := messages[i := m];
        i := i + 1;
      }
      if run.Some? && run.value.status in {RunRunning, RunFinishing, RunCancelling} {
        run := Some(run.value.(status := if wasCancelled then RunCancelled else RunInterrupted, error := "native_outcome_unknown"));
      }
      assert messages == Recover(before, isNew, seed, nextRun).messages;
    }

    /** The callback of `admitInput`. */
    method AdmitInput(input: Input)
      modifies this`messages, this`run
      ensures Current() == Admit(old(Current()), input)
    {
      if |messages| >= MAX_MESSAGES {
        var i := 0;
        while i < |messages| && !Terminal(messages[i])
          invariant 0 <= i <= |messages|
          invariant forall k :: 0 <= k < i ==> !Terminal(messages[k])
        {
          i := i + 1;
        }
        ghost var first := FindTerminal(messages);
        assert first == if i < |messages| then Some(i) else None by { FirstTerminal(messages, i); }
        // `splice(-1, 1)` counts from the end.
        if i == |messages| { i := |messages| - 1; }
        messages := messages[..i] + messages[i + 1..];
      }
      messages := messages + [input];
      if run.Some? && run.value.id == input.runId { run := Some(run.value.(inputIds := run.value.inputIds + [input.id])); }
    }

    lemma FirstTerminal(items: seq<Input>, i: nat)
      requires i <= |items| && (forall k :: 0 <= k < i ==> !Terminal(items[k])) && (i < |items| ==> Terminal(items[i]))
      ensures FindTerminal(items) == if i < |items| then Some(i) else None
    {
      FirstMatch(items, 0, i);
    }

    lemma {:induction false} FirstMatch(items: seq<Input>, from: nat, i: nat)
      requires from <= i <= |items| && (forall k :: from <= k < i ==> !Terminal(items[k])) && (i < |items| ==> Terminal(items[i]))
      ensures FindFrom(items, from, (m: Input) => Terminal(m)) == if i < |items| then Some(i) else None
      decreases i - from
    {
      if from < i { FirstMatch(items, from + 1, i); }
    }

    /** The first callback of `deliver`. */
    method ClaimInput(id: string) returns (found: bool, attempted: bool)
      modifies this`messages
      ensures found <==> Claim(old(Current()), id).Some?
      ensures found ==> Current() == Claim(old(Current()), id).value && (attempted <==> ClaimAttempts(old(Current()), id))
    {
      var index := Find(id);
      if index.None? { return false, false; }
      var m := messages[index.value];
      attempted := m.status == Accepted;
      if attempted { messages := messages[index.value := m.(status := Delivering, settings := None)]; }
      found := true;
    }

    method DropId(ids: seq<string>, id: string) returns (kept: seq<string>)
      ensures kept == Without(ids, id)
    {
      kept := [];
      for i := 0 to |ids|
        invariant kept + Without(ids[i..], id) == Without(ids, id)
      {
        assert ids[i..] == [ids[i]] + ids[i + 1..];
        if ids[i] != id { kept := kept + [ids[i]]; }
      }
    }

    /** The second callback of `deliver`: nothing was written. */
    method ReleaseInput(runId: nat, id: string, nextRun: nat, settings: nat) returns (found: bool)
      modifies this`messages, this`run
      ensures found <==> Release(old(Current()), runId, id, nextRun, settings).Some?
      ensures found ==> Current() == Release(old(Current()), runId, id, nextRun, settings).value
    {
      var index := Find(id);
      if index.None? { return false; }
      messages := messages[index.value := messages[index.value].(status := Accepted, runId := nextRun, settings := Some(settings))];
      if run.Some? && run.value.id == runId {
        var kept := DropId(run.value.inputIds, id);
        run := Some(run.value.(inputIds := kept));
      }
      found := true;
    }

    /** The first callback of `start`. */
    method BeginRun(runId: nat, first: string) returns (found: bool)
      modifies this`messages, this`run
      ensures found <==> StartRun(old(Current()), runId, first).Some?
      ensures found ==> Current() == StartRun(old(Current()), runId, first).value
    {
      var index := Find(first);
      if index.None? { return false; }
      messages := messages[index.value := messages[index.value].(status := Delivering, settings := None)];
      var ids := [];
      var i := 0;
      while i < |messages|
        invariant 0 <= i <= |messages|
        invariant ids == RunInputs(messages[..i], runId)
      {
        assert messages[..i + 1][..i] == messages[..i];
        if InRun(messages[i], runId) { ids := ids + [messages[i].id]; }
        i := i + 1;
      }
      assert messages[..i] == messages;
      run := Some(Run(runId, ids, RunRunning, ""));
      found := true;
    }

    /** The finalising callback of a run. */
    method FinishRun(runId: nat, outcome: Outcome, code: string)
      modifies this`messages, this`run
      ensures Current() == Finalise(old(Current()), runId, outcome, code)
    {
      ghost var before := messages;
      if run.Some? && run.value.id == runId {
        run := Some(run.value.(status := OutcomeStatus(outcome), error := if code == "" then run.value.error else code));
      }
      ghost var finished := run;
      var i := 0;
      while i < |messages|
        invariant 0 <= i <= |messages| == |before| && run == finished
        invariant forall k :: 0 <= k < i ==> messages[k] == FinaliseInput(before[k], runId, outcome, code)
        invariant forall k :: i <= k < |messages| ==> messages[k] == before[k]
      {
        var m := messages[i];
        if m.runId == runId && (Pending(m) || m.status == Accepted) {
          m := m.(status := if outcome.OutcomeCancelled? then Cancelled
                            else if code == "authentication_required" || code == "native_resume_unavailable" then Failed
                            else Interrupted,
                  reason := if code == "" then "native_outcome_unknown" else code,
                  settings := None);
          messages := messages[i := m];
        }
        i := i + 1;
      }
      assert messages == Finalise(old(Current()), runId, outcome, code).messages;
    }

    /** One event of the callback of `commitObserved`. */
    method ObserveEvent(runId: nat, event: NativeEvent, accepting: bool) returns (ok: bool)
      requires run.Some?
      modifies this`messages, this`run, this`nativeStarted
      ensures ok <==> ObserveOne(old(Current()), runId, event, accepting).Some?
      ensures ok ==> Current() == ObserveOne(old(Current()), runId, event, accepting).value
      ensures run.Some?
    {
      ghost var before := messages;
      match event
      case SystemInit(sessionId) => ok := sessionId == conversationId;
      case OtherEvent(_) => ok := true;
      case UserEcho(uuid) =>
        var i, matched := 0, false;
        while i < |messages|
          invariant 0 <= i <= |messages| == |before| && run == old(run) && nativeStarted == old(nativeStarted)
          invariant forall k :: 0 <= k < i ==> messages[k] == EchoInput(before[k], runId, uuid)
          invariant forall k :: i <= k < |messages| ==> messages[k] == before[k]
          invariant matched <==> exists k :: 0 <= k < i && before[k].runId == runId && before[k].nativeId == uuid
        {
          var m := messages[i];
          if m.runId == runId && m.nativeId == uuid {
            if m.status == Delivering { messages := messages[i := m.(status := Running)]; }
            matched := true;
          }
          i := i + 1;
        }
        assert messages == Each(before, m => EchoInput(m, runId, uuid));
        if matched { nativeStarted := true; }
        ok := true;
      case ResultEvent(isError) =>
        var i := 0;
        while i < |messages|
          invariant 0 <= i <= |messages| == |before| && run == old(run) && nativeStarted == old(nativeStarted)
          invariant forall k :: 0 <= k < i ==> messages[k] == ResultInput(before[k], runId, isError)
          invariant forall k :: i <= k < |messages| ==> messages[k] == before[k]
        {
          var m := messages[i];
          if m.runId == runId && m.status == Running {
            messages := messages[i := m.(status := if isError then Failed else Completed, settings := None)];
          }
          i := i + 1;
        }
        assert messages == Each(before, m => ResultInput(m, runId, isError));
        if !accepting && run.value.status == RunRunning { run := Some(run.value.(status := RunFinishing)); }
        ok := true;
    }

    /** The callback of `commitObserved`: the whole batch, or nothing when one event throws. */
    method ObserveBatch(runId: nat, batch: seq<NativeEvent>, accepting: bool) returns (ok: bool)
      requires run.Some?
      modifies this`messages, this`run, this`nativeStarted
      ensures ok <==> Observe(old(Current()), runId, batch, accepting).Some?
      ensures ok ==> Current() == Observe(old(Current()), runId, batch, accepting).value
    {
      ghost var before := Current();
      assert batch[..0] == [];
      for k := 0 to |batch|
        invariant Observe(before, runId, batch[..k], accepting) == Some(Current()) && run.Some?
      {
        assert batch[..k + 1][..k] == batch[..k];
        ok := ObserveEvent(runId, batch[k], accepting);
        if !ok {
          ObserveStops(before, runId, batch, k + 1, accepting);
          return;
        }
      }
      assert batch[..|batch|] == batch;
      ok := true;
    }

    lemma {:induction false} ObserveStops(b: Body, runId: nat, batch: seq<NativeEvent>, k: nat, accepting: bool)
      requires k <= |batch| && Observe(b, runId, batch[..k], accepting).None?
      ensures Observe(b, runId, batch, accepting).None?
      decreases |batch|
    {
      if k < |batch| {
        assert batch[..|batch| - 1][..k] == batch[..k];
        ObserveStops(b, runId, batch[..|batch| - 1], k, accepting);
      } else {
        assert batch[..k] == batch;
      }
    }

    /** The callback of `reset`. */
    method Reset(conversation: nat, control: Control)
      modifies this
      ensures Current() == ResetSession(old(Current()), conversation, control)
    {
      ghost var before := Current();
      conversationId, nativeStarted, run := conversation, false, None;
      var i := 0;
      while i < |messages|
        invariant 0 <= i <= |messages| == |before.messages|
        invariant forall k :: 0 <= k < i ==> messages[k] == ResetInput(before.messages[k])
        invariant forall k :: i <= k < |messages| ==> messages[k] == before.messages[k]
        invariant conversationId == conversation && !nativeStarted && run == None && controls == before.controls
      {
        if messages[i].status == Accepted {
          messages := messages[i := messages[i].(status := Cancelled, reason := "session_reset", settings := None)];
        }
        i := i + 1;
      }
      if |controls| >= MAX_CONTROLS { controls := controls[1..]; }
      controls := controls + [control];
      assert messages == ResetSession(before, conversation, control).messages;
    }
  }
}
