/**
 One native run. Inputs are injected into its live stream; the stream closes after a
 result that leaves no input unaccounted for. `history` records what happened, in order.
 Whether the process came up and how it ended are steps of the environment.
 */
module ClaudeStream {
  datatype Event = Submitted(id: nat) | Handed(id: nat) | Echo(id: nat) | Result

  datatype Stream = Stream(
    open: bool, aborted: bool, ready: bool, ended: bool,
    waiting: set<nat>, pending: set<nat>, consumed: set<nat>, history: seq<Event>)

  datatype Action =
    | Start                  // the child's input channel is installed
    | Submit(id: nat)        // `send` up to its first await
    | Resume(id: nat)        // `send` after the stream is ready
    | EmitUser(id: nat)
    | EmitResult(failed: bool)
    | End                    // `done` has settled
    | Cancel

  function Init(): Stream {
    Stream(true, false, false, false, {}, {}, {}, [])
  }

  predicate Accepting(s: Stream) {
    s.open && !s.aborted
  }

  function Step(s: Stream, a: Action): Stream {
    match a
    case Start => s.(ready := true)
    case Submit(id) =>
      if !Accepting(s) then s
      else s.(pending := s.pending + {id}, waiting := s.waiting + {id}, history := s.history + [Submitted(id)])
    case Resume(id) =>
      if !s.ready || id !in s.waiting then s
      else if !Accepting(s) then s.(waiting := s.waiting - {id}, pending := s.pending - {id})
      else s.(waiting := s.waiting - {id}, history := s.history + [Handed(id)])
    case EmitUser(id) =>
      var t := s.(history := s.history + [Echo(id)]);
      if id in s.pending then t.(consumed := s.consumed + {id}) else t
    case EmitResult(failed) =>
      var pending := s.pending - s.consumed;
      var t := s.(pending := pending, consumed := {}, history := s.history + [Result]);
      if pending == {} || failed then t.(open := false, ended := true) else t
    case End => s.(open := false)
    case Cancel => s.(open := false, aborted := true)
  }

  function After(actions: seq<Action>): Stream {
    if actions == [] then Init() else Step(After(actions[..|actions| - 1]), actions[|actions| - 1])
  }

  /** `run` ends without throwing exactly in this case. */
  predicate Succeeds(s: Stream, completed: bool, failed: bool) {
    completed && !failed && s.pending == {}
  }

  /** What an owner of the stream has to keep: no input is submitted while it waits, or once it was handed over. */
  ghost predicate Fresh(s: Stream, a: Action) {
    a.Submit? && Accepting(s) ==> a.id !in s.waiting && Handed(a.id) !in s.history
  }

  ghost predicate FreshRun(actions: seq<Action>) {
    forall n :: 0 <= n < |actions| ==> Fresh(After(actions[..n]), actions[n])
  }

  ghost predicate EchoedAfterSubmission(history: seq<Event>, id: nat) {
    exists i, j :: 0 <= i < j < |history| && history[i] == Submitted(id) && history[j] == Echo(id)
  }

  /** Echoed after its submission, and covered by a later result. */
  ghost predicate Covered(history: seq<Event>, id: nat) {
    exists i, j, k :: 0 <= i < j < k < |history| && history[i] == Submitted(id) && history[j] == Echo(id) && history[k] == Result
  }

  ghost predicate Known(s: Stream) {
    forall id :: id in s.waiting || id in s.pending || Handed(id) in s.history ==> Submitted(id) in s.history
  }

  ghost predicate HandedAfterWaiting(s: Stream) {
    forall id :: Handed(id) in s.history ==> id !in s.waiting
  }

  ghost predicate ConsumedWasEchoed(s: Stream) {
    forall id :: id in s.consumed ==> EchoedAfterSubmission(s.history, id)
  }

  /** An input leaves `pending` covered, or refused before anything was handed over. */
  ghost predicate LeftCovered(s: Stream) {
    forall id :: Submitted(id) in s.history && id !in s.pending ==>
      Covered(s.history, id) || (Handed(id) !in s.history && id !in s.waiting)
  }

  /** While the stream accepts, nothing was refused, and the inputs unaccounted for are those not echoed yet. */
  ghost predicate OutstandingOk(s: Stream) {
    Accepting(s) ==>
      && (forall id :: Submitted(id) in s.history ==> id in s.waiting || Handed(id) in s.history)
      && (forall id :: id in s.pending && id !in s.consumed <==> Outstanding(s.history, id))
  }

  ghost predicate Outstanding(history: seq<Event>, id: nat) {
    Submitted(id) in history && !EchoedAfterSubmission(history, id)
  }

  ghost predicate Inv(s: Stream) {
    Known(s) && HandedAfterWaiting(s) && ConsumedWasEchoed(s) && LeftCovered(s) && OutstandingOk(s)
  }

  lemma CoveredStays(history: seq<Event>, e: Event, id: nat)
    requires Covered(history, id)
    ensures Covered(history + [e], id)
  {
    var more := history + [e];
    var i, j, k :| 0 <= i < j < k < |history| && history[i] == Submitted(id) && history[j] == Echo(id) && history[k] == Result;
    assert more[i] == Submitted(id) && more[j] == Echo(id) && more[k] == Result;
  }

  lemma EchoedStays(history: seq<Event>, e: Event, id: nat)
    requires EchoedAfterSubmission(history, id)
    ensures EchoedAfterSubmission(history + [e], id) && (e == Result ==> Covered(history + [e], id))
  {
    var more := history + [e];
    var i, j :| 0 <= i < j < |history| && history[i] == Submitted(id) && history[j] == Echo(id);
    assert more[i] == Submitted(id) && more[j] == Echo(id) && more[|history|] == e;
  }

  lemma EchoEchoes(history: seq<Event>, id: nat)
    requires Submitted(id) in history
    ensures EchoedAfterSubmission(history + [Echo(id)], id)
  {
    var more := history + [Echo(id)];
    var i :| 0 <= i < |history| && history[i] == Submitted(id);
    assert more[i] == Submitted(id) && more[|history|] == Echo(id);
  }

  lemma CoveredGrows(history: seq<Event>, e: Event, id: nat)
    ensures Covered(history, id) ==> Covered(history + [e], id)
    ensures EchoedAfterSubmission(history, id) ==> EchoedAfterSubmission(history + [e], id)
    ensures e == Echo(id) && Submitted(id) in history ==> EchoedAfterSubmission(history + [e], id)
    ensures e == Result && EchoedAfterSubmission(history, id) ==> Covered(history + [e], id)
  {
    if Covered(history, id) { CoveredStays(history, e, id); }
    if EchoedAfterSubmission(history, id) { EchoedStays(history, e, id); }
    if e == Echo(id) && Submitted(id) in history { EchoEchoes(history, id); }
  }

  lemma StepGrows(s: Stream, a: Action)
    ensures var t := Step(s, a);
            t.history == s.history || (|t.history| == |s.history| + 1 && t.history == s.history + [t.history[|s.history|]])
  {
  }

  /** Only an echo of an input, after its submission, echoes it. */
  lemma EchoedOnlyByEcho(history: seq<Event>, e: Event, id: nat)
    ensures EchoedAfterSubmission(history + [e], id) <==>
      EchoedAfterSubmission(history, id) || (e == Echo(id) && Submitted(id) in history)
  {
    CoveredGrows(history, e, id);
    var more := history + [e];
    if EchoedAfterSubmission(more, id) {
      var i, j :| 0 <= i < j < |more| && more[i] == Submitted(id) && more[j] == Echo(id);
      assert history[i] == Submitted(id);
    }
  }

  lemma EchoedWasSubmitted(history: seq<Event>, id: nat)
    ensures EchoedAfterSubmission(history, id) ==> Submitted(id) in history
  {
  }

  lemma OutstandingGrows(history: seq<Event>, e: Event, id: nat)
    ensures Outstanding(history + [e], id) <==>
      (e == Submitted(id) && Submitted(id) !in history) || (Outstanding(history, id) && e != Echo(id))
  {
    EchoedOnlyByEcho(history, e, id);
    EchoedWasSubmitted(history, id);
  }

  lemma StepKeepsOutstanding(s: Stream, a: Action)
    requires Inv(s) && Fresh(s, a)
    ensures OutstandingOk(Step(s, a))
  {
    var t := Step(s, a);
    if Accepting(t) && t.history != s.history {
      var e := t.history[|s.history|];
      StepGrows(s, a);
      forall id ensures id in t.pending && id !in t.consumed <==> Outstanding(t.history, id) {
        OutstandingGrows(s.history, e, id);
      }
    }
  }

  lemma SubmitKeepsConsumed(s: Stream, id: nat)
    requires ConsumedWasEchoed(s)
    ensures ConsumedWasEchoed(Step(s, Submit(id)))
  {
    var t := Step(s, Submit(id));
    forall other | other in t.consumed ensures EchoedAfterSubmission(t.history, other) {
      CoveredGrows(s.history, Submitted(id), other);
    }
  }

  lemma SubmitKeepsLeft(s: Stream, id: nat)
    requires LeftCovered(s)
    ensures LeftCovered(Step(s, Submit(id)))
  {
    var t := Step(s, Submit(id));
    forall other | Submitted(other) in t.history && other !in t.pending
      ensures Covered(t.history, other) || (Handed(other) !in t.history && other !in t.waiting)
    {
      if Covered(s.history, other) { CoveredStays(s.history, Submitted(id), other); }
    }
  }

  lemma ResumeKeepsConsumed(s: Stream, id: nat)
    requires ConsumedWasEchoed(s) && s.ready && id in s.waiting
    ensures ConsumedWasEchoed(Step(s, Resume(id)))
  {
    var t := Step(s, Resume(id));
    forall other | other in t.consumed ensures EchoedAfterSubmission(t.history, other) {
      CoveredGrows(s.history, Handed(id), other);
    }
  }

  /** An input is handed over only while it is pending. */
  lemma ResumeKeepsLeft(s: Stream, id: nat)
    requires LeftCovered(s) && Known(s) && HandedAfterWaiting(s) && s.ready && id in s.waiting
    ensures LeftCovered(Step(s, Resume(id)))
  {
    var t := Step(s, Resume(id));
    forall other | Submitted(other) in t.history && other !in t.pending
      ensures Covered(t.history, other) || (Handed(other) !in t.history && other !in t.waiting)
    {
      if Covered(s.history, other) { CoveredStays(s.history, Handed(id), other); }
    }
  }

  lemma EchoKeepsConsumed(s: Stream, id: nat)
    requires Known(s) && ConsumedWasEchoed(s)
    ensures ConsumedWasEchoed(Step(s, EmitUser(id)))
  {
    var t := Step(s, EmitUser(id));
    forall other | other in t.consumed ensures EchoedAfterSubmission(t.history, other) {
      CoveredGrows(s.history, Echo(id), other);
    }
  }

  lemma EchoKeepsLeft(s: Stream, id: nat)
    requires LeftCovered(s)
    ensures LeftCovered(Step(s, EmitUser(id)))
  {
    var t := Step(s, EmitUser(id));
    forall other | Submitted(other) in t.history && other !in t.pending
      ensures Covered(t.history, other) || (Handed(other) !in t.history && other !in t.waiting)
    {
      if Covered(s.history, other) { CoveredStays(s.history, Echo(id), other); }
    }
  }

  lemma ResultKeeps(s: Stream, failed: bool)
    requires ConsumedWasEchoed(s) && LeftCovered(s)
    ensures var t := Step(s, EmitResult(failed)); ConsumedWasEchoed(t) && LeftCovered(t)
  {
    var t := Step(s, EmitResult(failed));
    assert t.history == s.history + [Result] && t.pending == s.pending - s.consumed && t.waiting == s.waiting;
    forall other ensures Covered(s.history, other) ==> Covered(t.history, other)
                 ensures EchoedAfterSubmission(s.history, other) ==> Covered(t.history, other)
    {
      CoveredGrows(s.history, Result, other);
    }
  }

  lemma StepHands(s: Stream, a: Action)
    requires Known(s) && HandedAfterWaiting(s) && Fresh(s, a)
    ensures Known(Step(s, a)) && HandedAfterWaiting(Step(s, a))
  {
  }

  lemma StepInv(s: Stream, a: Action)
    requires Inv(s) && Fresh(s, a)
    ensures Inv(Step(s, a))
  {
    StepHands(s, a);
    StepKeepsOutstanding(s, a);
    match a
    case Submit(id) =>
      SubmitKeepsConsumed(s, id);
      SubmitKeepsLeft(s, id);
    case Resume(id) =>
      if s.ready && id in s.waiting {
        ResumeKeepsConsumed(s, id);
        ResumeKeepsLeft(s, id);
      }
    case EmitUser(id) =>
      EchoKeepsConsumed(s, id);
      EchoKeepsLeft(s, id);
    case EmitResult(failed) => ResultKeeps(s, failed);
    case Start =>
    case End =>
    case Cancel =>
  }

  lemma {:induction false} RunInv(actions: seq<Action>)
    requires FreshRun(actions)
    ensures Inv(After(actions))
  {
    if actions != [] {
      var shorter := actions[..|actions| - 1];
      forall n | 0 <= n < |shorter| ensures Fresh(After(shorter[..n]), shorter[n]) {
        assert shorter[..n] == actions[..n] && shorter[n] == actions[n];
      }
      RunInv(shorter);
      StepInv(After(shorter), actions[|actions| - 1]);
    }
  }

  /** When `done` succeeds, every input handed to the process was echoed after it was submitted, and a result followed. */
  lemma SuccessCoversEveryInput(actions: seq<Action>, completed: bool, failed: bool, id: nat)
    requires FreshRun(actions)
    requires Succeeds(After(actions), completed, failed)
    requires Handed(id) in After(actions).history
    ensures Covered(After(actions).history, id)
  {
    RunInv(actions);
  }

  lemma ResultCloses(s: Stream, failed: bool)
    requires Accepting(s)
    ensures Accepting(Step(s, EmitResult(failed))) <==> !failed && exists id :: id in s.pending && id !in s.consumed
  {
    var rest := s.pending - s.consumed;
    assert forall id :: id in rest <==> id in s.pending && id !in s.consumed;
    assert rest == {} <==> forall id :: id !in rest;
  }

  lemma OutstandingExists(s: Stream)
    requires OutstandingOk(s) && Accepting(s)
    ensures (exists id :: id in s.pending && id !in s.consumed) <==> exists id :: Outstanding(s.history, id)
  {
    if id :| Outstanding(s.history, id) { assert id in s.pending && id !in s.consumed; }
  }

  lemma AfterOneMore(actions: seq<Action>, a: Action)
    ensures After(actions + [a]) == Step(After(actions), a)
  {
    assert (actions + [a])[..|actions|] == actions;
  }

  /** The stream stays open across a turn's result exactly when it succeeded and some input was not echoed yet. */
  lemma ResultKeepsOpenForLaterInputs(actions: seq<Action>, failed: bool)
    requires FreshRun(actions) && Accepting(After(actions))
    ensures Accepting(After(actions + [EmitResult(failed)])) <==>
      !failed && exists id :: Outstanding(After(actions).history, id)
  {
    RunInv(actions);
    AfterOneMore(actions, EmitResult(failed));
    ResultCloses(After(actions), failed);
    OutstandingExists(After(actions));
  }

  /** A closed stream submits and hands over nothing more, whatever happens. */
  lemma {:induction false} ClosedStaysClosed(before: seq<Action>, after: seq<Action>, e: Event)
    requires !Accepting(After(before)) && (e.Submitted? || e.Handed?)
    ensures !Accepting(After(before + after))
    ensures e in After(before + after).history ==> e in After(before).history
  {
    if after == [] {
      assert before + after == before;
    } else {
      ClosedStaysClosed(before, after[..|after| - 1], e);
      var all := before + after;
      assert all[..|all| - 1] == before + after[..|after| - 1] && all[|all| - 1] == after[|after| - 1];
    }
  }

  /** After `cancel`, or once the process is done, no input is submitted or handed over, and no later result reopens the stream. */
  lemma EndedHandsNothing(before: seq<Action>, last: Action, after: seq<Action>, e: Event)
    requires (last.Cancel? || last.End?) && (e.Submitted? || e.Handed?)
    ensures !Accepting(After(before + [last] + after))
    ensures e in After(before + [last] + after).history ==> e in After(before).history
  {
    assert (before + [last])[..|before|] == before;
    ClosedStaysClosed(before + [last], after, e);
  }

  /** The stream object, with `send` split at its await. */
  class NativeClaudeStream {
    var open: bool
    var aborted: bool
    var ready: bool
    var ended: bool
    var waiting: set<nat>
    var pending: set<nat>
    var consumed: set<nat>
    var history: seq<Event>

    constructor ()
      ensures State() == Init()
    {
      open, aborted, ready, ended := true, false, false, false;
      waiting, pending, consumed, history := {}, {}, {}, [];
    }

    ghost function State(): Stream
      reads this
    {
      Stream(open, aborted, ready, ended, waiting, pending, consumed, history)
    }

    method InstallInput()
      modifies this`ready
      ensures State() == Step(old(State()), Start)
    {
      ready := true;
    }

    method SubmitInput(id: nat) returns (closed: bool)
      modifies this
      ensures State() == Step(old(State()), Submit(id))
      ensures closed <==> !Accepting(old(State()))
    {
      if !(open && !aborted) { return true; }
      pending := pending + {id};
      waiting := waiting + {id};
      history := history + [Submitted(id)];
      closed := false;
    }

    /** `ClaudeStreamClosed` is thrown only when nothing was written. */
    method ResumeInput(id: nat) returns (closed: bool)
      requires ready && id in waiting
      modifies this
      ensures State() == Step(old(State()), Resume(id))
      ensures closed ==> history == old(history)
      ensures !closed ==> history == old(history) + [Handed(id)]
    {
      waiting := waiting - {id};
      if !(open && !aborted) {
        pending := pending - {id};
        return true;
      }
      history := history + [Handed(id)];
      closed := false;
    }

    method ObserveUser(id: nat)
      modifies this
      ensures State() == Step(old(State()), EmitUser(id))
    {
      if id in pending { consumed := consumed + {id}; }
      history := history + [Echo(id)];
    }

    method ObserveResult(failed: bool)
      modifies this
      ensures State() == Step(old(State()), EmitResult(failed))
    {
      ghost var before := pending;
      var rest := consumed;
      while rest != {}
        invariant rest <= consumed
        invariant pending == before - (consumed - rest)
        invariant open == old(open) && aborted == old(aborted) && ready == old(ready) && ended == old(ended)
        invariant waiting == old(waiting) && consumed == old(consumed) && history == old(history)
        decreases rest
      {
        var id :| id in rest;
        pending := pending - {id};
        rest := rest - {id};
      }
      consumed := {};
      history := history + [Result];
      if pending == {} || failed {
        open := false;
        ended := true;
      }
    }

    method Settle()
      modifies this`open
      ensures State() == Step(old(State()), End)
    {
      open := false;
    }

    method CancelStream()
      modifies this
      ensures State() == Step(old(State()), Cancel)
    {
      open := false;
      aborted := true;
    }
  }
}
