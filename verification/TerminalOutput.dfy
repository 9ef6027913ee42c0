/**
 The output side of a terminal socket, with the bound on bytes that the peer has not taken. `closed`
 counts the calls of the `closed` handler, and `frames` lists what was written, as opcode and length.
 */
module TerminalOutput {
  const MAX_BUFFERED_BYTES: nat := 1048576

  datatype Output = Output(open: bool, destroyed: bool, unsent: nat, closed: nat, frames: seq<(nat, nat)>)

  datatype Action =
    | Send(opcode: nat, length: nat)
    | CloseCall
    | Taken(bytes: nat)     // the peer took some of the unsent bytes
    | Destroyed             // the socket is gone, and its event has not been handled yet
    | Gone                  // the error, end or close event of the socket

  const INIT := Output(true, false, 0, 0, [])
  const CLOSE_OPCODE: nat := 8
  const CODE_BYTES: nat := 2

  function FrameBytes(length: nat): nat {
    (if length < 126 then 2 else if length < 65536 then 4 else 10) + length
  }

  function Finish(s: Output): Output {
    if !s.open then s else s.(open := false, destroyed := true, closed := s.closed + 1)
  }

  function Frame(s: Output, opcode: nat, length: nat): Output {
    if !s.open || s.destroyed then s
    else
      var t := s.(unsent := s.unsent + FrameBytes(length), frames := s.frames + [(opcode, length)]);
      if t.unsent > MAX_BUFFERED_BYTES then Finish(t) else t
  }

  /** After its frame, `close` calls the handler whether or not the frame has already ended the socket. */
  function Close(s: Output): Output {
    if !s.open then s
    else
      var t := Frame(s, CLOSE_OPCODE, CODE_BYTES);
      t.(open := false, closed := t.closed + 1)
  }

  function Step(s: Output, a: Action): Output {
    match a
    case Send(opcode, length) => Frame(s, opcode, length)
    case CloseCall => Close(s)
    case Taken(bytes) => s.(unsent := if bytes <= s.unsent then s.unsent - bytes else 0)
    case Destroyed => s.(destroyed := true)
    case Gone => Finish(s)
  }

  function After(actions: seq<Action>): Output {
    if actions == [] then INIT else Step(After(actions[..|actions| - 1]), actions[|actions| - 1])
  }

  /** `close` is called on an open socket whose unsent bytes leave no room for the close frame. */
  predicate Overflows(s: Output, a: Action) {
    a.CloseCall? && s.open && !s.destroyed && s.unsent + FrameBytes(CODE_BYTES) > MAX_BUFFERED_BYTES
  }

  predicate OverflowsAt(actions: seq<Action>, k: nat)
    requires k < |actions|
  {
    Overflows(After(actions[..k]), actions[k])
  }

  ghost predicate Overflowed(actions: seq<Action>) {
    exists k :: 0 <= k < |actions| && OverflowsAt(actions, k)
  }

  lemma OverflowsAtNext(actions: seq<Action>, a: Action, k: nat)
    requires k <= |actions|
    ensures OverflowsAt(actions + [a], k) <==> if k < |actions| then OverflowsAt(actions, k) else Overflows(After(actions), a)
  {
    var more := actions + [a];
    if k < |actions| {
      assert more[..k] == actions[..k] && more[k] == actions[k];
    } else {
      assert more[..k] == actions;
    }
  }

  lemma OverflowedNext(actions: seq<Action>, a: Action)
    ensures Overflowed(actions + [a]) <==> Overflowed(actions) || Overflows(After(actions), a)
  {
    forall k | 0 <= k <= |actions|
      ensures OverflowsAt(actions + [a], k) <==> if k < |actions| then OverflowsAt(actions, k) else Overflows(After(actions), a)
    {
      OverflowsAtNext(actions, a, k);
    }
    if Overflowed(actions) {
      var k :| 0 <= k < |actions| && OverflowsAt(actions, k);
      assert OverflowsAt(actions + [a], k);
    }
    if Overflows(After(actions), a) { assert OverflowsAt(actions + [a], |actions|); }
  }

  lemma AfterOneMore(actions: seq<Action>, a: Action)
    ensures After(actions + [a]) == Step(After(actions), a)
  {
    assert (actions + [a])[..|actions|] == actions;
  }

  predicate Tallied(s: Output, overflowed: bool) {
    && s.closed == (if s.open then 0 else if overflowed then 2 else 1)
    && (s.open ==> !overflowed && s.unsent <= MAX_BUFFERED_BYTES)
  }

  lemma StepTallies(s: Output, a: Action, overflowed: bool)
    requires Tallied(s, overflowed)
    ensures Tallied(Step(s, a), overflowed || Overflows(s, a))
  {
  }

  lemma {:induction false} RunTallies(actions: seq<Action>)
    ensures Tallied(After(actions), Overflowed(actions))
  {
    if actions != [] {
      var shorter, a := actions[..|actions| - 1], actions[|actions| - 1];
      RunTallies(shorter);
      OverflowedNext(shorter, a);
      StepTallies(After(shorter), a, Overflowed(shorter));
      assert actions == shorter + [a];
    }
  }

  /**
   The handler learns of the end once, unless `close` found no room for its frame: then it is called twice.
   While the socket is open it has not been called, and the unsent bytes are within the bound.
   */
  lemma ClosedTwiceExactly(actions: seq<Action>)
    ensures var s := After(actions);
      && s.closed == (if s.open then 0 else if Overflowed(actions) then 2 else 1)
      && (s.open ==> s.unsent <= MAX_BUFFERED_BYTES)
  {
    RunTallies(actions);
  }

  /** Once the socket is closed nothing more is written and the handler is not called again. */
  lemma {:induction false} NothingAfterTheEnd(before: seq<Action>, after: seq<Action>)
    requires !After(before).open
    ensures var s, t := After(before), After(before + after); !t.open && t.frames == s.frames && t.closed == s.closed
  {
    if after == [] {
      assert before + after == before;
    } else {
      var shorter := after[..|after| - 1];
      NothingAfterTheEnd(before, shorter);
      assert before + after == (before + shorter) + [after[|after| - 1]];
      AfterOneMore(before + shorter, after[|after| - 1]);
    }
  }

  /** One message that just fits, and a close: the handler is called twice. */
  lemma CloseCanBeReportedTwice()
    ensures After([Send(2, MAX_BUFFERED_BYTES - 10), CloseCall]).closed == 2
  {
    var send := Send(2, MAX_BUFFERED_BYTES - 10);
    assert [send, CloseCall][..1] == [send] && [send][..0] == [];
    assert After([]) == INIT;
    assert After([send]) == Step(INIT, send);
  }

  /** The writer's variables; `frames` and `closed` record what it did. */
  class Writer {
    var open: bool
    var destroyed: bool
    var unsent: nat
    ghost var closed: nat
    ghost var frames: seq<(nat, nat)>

    constructor ()
      ensures State() == INIT
    {
      open, destroyed, unsent, closed, frames := true, false, 0, 0, [];
    }

    ghost function State(): Output
      reads this
    {
      Output(open, destroyed, unsent, closed, frames)
    }

    method FinishSocket()
      modifies this
      ensures State() == Finish(old(State()))
    {
      if !open { return; }
      open := false;
      destroyed := true;
      closed := closed + 1;
    }

    method WriteFrame(opcode: nat, length: nat)
      modifies this
      ensures State() == Frame(old(State()), opcode, length)
    {
      if !open || destroyed { return; }
      unsent := unsent + FrameBytes(length);
      frames := frames + [(opcode, length)];
      if unsent > MAX_BUFFERED_BYTES { FinishSocket(); }
    }

    method CloseSocket()
      modifies this
      ensures State() == Close(old(State()))
      ensures closed == old(closed) + (if !old(open) then 0 else if Overflows(old(State()), CloseCall) then 2 else 1)
    {
      if !open { return; }
      WriteFrame(CLOSE_OPCODE, CODE_BYTES);
      open := false;
      closed := closed + 1;
    }
  }
}
