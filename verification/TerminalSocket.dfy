/**
 The server end of a WebSocket as sections 5.2 to 5.5 of RFC 6455 frame it: an incremental
 parser that may be paused between any two frames, and the frame writer. Whether bytes are
 well-formed UTF-8 is a parameter.
 */
module TerminalSocket {
  import opened Wrappers

  type Byte = b: nat | b < 256

  const MAX_MESSAGE_BYTES: nat := 65536

  type Utf8 = seq<Byte> -> bool

  // -------------------------------------------------------------- bits and bytes

  function Pow2(n: nat): (p: nat)
    ensures p > 0
  {
    if n == 0 then 1 else 2 * Pow2(n - 1)
  }

  function XorBits(a: nat, b: nat, bits: nat): (x: nat)
    ensures x < Pow2(bits)
  {
    if bits == 0 then 0 else (a % 2 + b % 2) % 2 + 2 * XorBits(a / 2, b / 2, bits - 1)
  }

  function Xor(a: Byte, b: Byte): Byte {
    assert Pow2(8) == 256 by { assert Pow2(4) == 16; }
    XorBits(a, b, 8)
  }

  lemma LowBit(low: nat, high: nat)
    requires low < 2
    ensures (low + 2 * high) % 2 == low && (low + 2 * high) / 2 == high
  {
  }

  lemma FlipTwice(p: nat, q: nat)
    requires p < 2 && q < 2
    ensures ((p + q) % 2 + q) % 2 == p
  {
  }

  lemma {:induction false} XorBitsTwice(a: nat, b: nat, bits: nat)
    requires a < Pow2(bits)
    ensures XorBits(XorBits(a, b, bits), b, bits) == a
  {
    if bits > 0 {
      var low, high := (a % 2 + b % 2) % 2, XorBits(a / 2, b / 2, bits - 1);
      XorBitsTwice(a / 2, b / 2, bits - 1);
      LowBit(low, high);
      FlipTwice(a % 2, b % 2);
    }
  }

  lemma XorTwice(a: Byte, b: Byte)
    ensures Xor(Xor(a, b), b) == a
  {
    assert Pow2(8) == 256 by { assert Pow2(4) == 16; }
    XorBitsTwice(a, b, 8);
  }

  /** A big-endian number. */
  function ReadBE(bytes: seq<Byte>): nat {
    if bytes == [] then 0 else 256 * ReadBE(bytes[..|bytes| - 1]) + bytes[|bytes| - 1]
  }

  function WriteBE(value: nat, count: nat): (bytes: seq<Byte>)
    ensures |bytes| == count
  {
    if count == 0 then [] else WriteBE(value / 256, count - 1) + [value % 256]
  }

  function Pow256(n: nat): nat {
    if n == 0 then 1 else 256 * Pow256(n - 1)
  }

  lemma {:induction false} WriteThenRead(value: nat, count: nat)
    requires value < Pow256(count)
    ensures ReadBE(WriteBE(value, count)) == value
  {
    if count > 0 {
      WriteThenRead(value / 256, count - 1);
      assert WriteBE(value, count)[..count - 1] == WriteBE(value / 256, count - 1);
    }
  }

  /** Masking and unmasking are the same operation. */
  function Masked(payload: seq<Byte>, mask: seq<Byte>): (masked: seq<Byte>)
    requires |mask| == 4
    ensures |masked| == |payload|
  {
    seq(|payload|, i requires 0 <= i < |payload| => Xor(payload[i], mask[i % 4]))
  }

  lemma MaskedTwice(payload: seq<Byte>, mask: seq<Byte>)
    requires |mask| == 4
    ensures Masked(Masked(payload, mask), mask) == payload
  {
    forall i | 0 <= i < |payload| ensures Masked(Masked(payload, mask), mask)[i] == payload[i] {
      XorTwice(payload[i], mask[i % 4]);
    }
  }

  // ---------------------------------------------------------------------- frames

  datatype Frame = Frame(fin: bool, opcode: nat, payload: seq<Byte>)

  datatype Parsed = NeedMore | Bad(code: nat) | Got(frame: Frame, rest: seq<Byte>)

  /** The payload length and the offset of the mask. */
  datatype Header = Short | Refused(refusal: nat) | Sized(length: nat, offset: nat)

  function ParseHeader(pending: seq<Byte>): (h: Header)
    ensures h.Sized? ==> h.length <= MAX_MESSAGE_BYTES && 2 <= h.offset <= |pending|
  {
    if |pending| < 2 then Short
    else
      var length := pending[1] % 128;
      if pending[0] / 16 % 8 != 0 || pending[1] < 128 then Refused(1002)
      else if length < 126 then Sized(length, 2)
      else if length == 126 then
        if |pending| < 4 then Short
        else if ReadBE(pending[2..4]) > MAX_MESSAGE_BYTES then Refused(1009)
        else Sized(ReadBE(pending[2..4]), 4)
      else if |pending| < 10 then Short
      else if ReadBE(pending[2..10]) > MAX_MESSAGE_BYTES then Refused(1009)
      else Sized(ReadBE(pending[2..10]), 10)
  }

  function FrameAt(pending: seq<Byte>, length: nat, offset: nat): (p: Parsed)
    requires 2 <= offset <= |pending|
    ensures p.Got? ==> |p.rest| < |pending|
  {
    if |pending| < offset + 4 + length then NeedMore
    else
      var mask := pending[offset..offset + 4];
      Got(Frame(pending[0] >= 128, pending[0] % 16, Masked(pending[offset + 4..offset + 4 + length], mask)),
          pending[offset + 4 + length..])
  }

  function ParseFrame(pending: seq<Byte>): (p: Parsed)
    ensures p.Got? ==> |p.rest| < |pending|
  {
    match ParseHeader(pending)
    case Short => NeedMore
    case Refused(code) => Bad(code)
    case Sized(length, offset) => FrameAt(pending, length, offset)
  }

  lemma SliceOfPrefix(prefix: seq<Byte>, more: seq<Byte>, i: nat, j: nat)
    requires i <= j <= |prefix|
    ensures (prefix + more)[i..j] == prefix[i..j]
    ensures (prefix + more)[j..] == prefix[j..] + more
  {
  }

  /** More input never changes what was already parsed. */
  lemma ParseFrameExtends(pending: seq<Byte>, more: seq<Byte>)
    ensures var p := ParseFrame(pending);
            match p
            case NeedMore => true
            case Bad(code) => ParseFrame(pending + more) == p
            case Got(frame, rest) => ParseFrame(pending + more) == Got(frame, rest + more)
  {
    var all := pending + more;
    if |pending| >= 4 { SliceOfPrefix(pending, more, 2, 4); }
    if |pending| >= 10 { SliceOfPrefix(pending, more, 2, 10); }
    if ParseFrame(pending).Got? {
      var h := ParseHeader(pending);
      var length, offset := h.length, h.offset;
      assert ParseHeader(all) == h;
      SliceOfPrefix(pending, more, offset, offset + 4);
      SliceOfPrefix(pending, more, offset + 4, offset + 4 + length);
    }
  }

  // ---------------------------------------------------------------------- parser

  const MARK: seq<Byte> := [0xEF, 0xBB, 0xBF]

  predicate Marked(bytes: seq<Byte>) {
    |bytes| >= 3 && bytes[..3] == MARK
  }

  /** `decode` of valid bytes, as the bytes of its text: a leading byte-order mark is dropped. */
  function Decoded(bytes: seq<Byte>): seq<Byte> {
    if Marked(bytes) then bytes[3..] else bytes
  }

  /** What leaves the endpoint: messages to the handlers, frames to the client, and the end. */
  datatype Out = Binary(data: seq<Byte>) | Text(data: seq<Byte>) | Reply(opcode: nat, payload: seq<Byte>) | Closed

  /** A closed socket keeps no input: nothing looks at it again. */
  datatype Socket = Socket(
    open: bool, paused: bool, pending: seq<Byte>, fragmentOpcode: nat, fragment: seq<Byte>, out: seq<Out>)

  const INIT := Socket(true, false, [], 0, [], [])

  function CloseWith(s: Socket, code: nat): Socket {
    Socket(false, s.paused, [], 0, [], s.out + [Reply(8, WriteBE(code, 2)), Closed])
  }

  function Control(s: Socket, f: Frame): Socket {
    if !f.fin || |f.payload| > 125 then CloseWith(s, 1002)
    else if f.opcode == 8 then CloseWith(s, 1000)
    else if f.opcode == 9 then s.(out := s.out + [Reply(10, f.payload)])
    else if f.opcode != 10 then CloseWith(s, 1002)
    else s
  }

  function Data(s: Socket, f: Frame, valid: Utf8): Socket {
    if (if f.opcode == 0 then s.fragmentOpcode == 0 else s.fragmentOpcode != 0 || (f.opcode != 1 && f.opcode != 2)) then
      CloseWith(s, 1002)
    else
      var kind := if f.opcode != 0 then f.opcode else s.fragmentOpcode;
      var message := s.fragment + f.payload;
      if |message| > MAX_MESSAGE_BYTES then CloseWith(s, 1009)
      else if !f.fin then s.(fragmentOpcode := kind, fragment := message)
      else
        var t := s.(fragmentOpcode := 0, fragment := []);
        if kind == 2 then t.(out := s.out + [Binary(message)])
        else if !valid(message) then CloseWith(t, 1007)
        else t.(out := s.out + [Text(Decoded(message))])
  }

  function Handle(s: Socket, f: Frame, valid: Utf8): Socket {
    if f.opcode >= 8 then Control(s, f) else Data(s, f, valid)
  }

  /** One turn of the parse loop; None when the loop returns. */
  function Turn(s: Socket, valid: Utf8): (next: Option<Socket>)
    ensures next.Some? ==> s.open && !s.paused && !next.value.paused
    ensures next.Some? && next.value.open ==> |next.value.pending| < |s.pending|
  {
    if !s.open || s.paused then None
    else
      match ParseFrame(s.pending)
      case NeedMore => None
      case Bad(code) => Some(CloseWith(s, code))
      case Got(frame, rest) => Some(Handle(s.(pending := rest), frame, valid))
  }

  function Size(s: Socket): nat {
    if s.open then |s.pending| + 1 else 0
  }

  /** The parse loop, run to its end. */
  function Drain(s: Socket, valid: Utf8): Socket
    decreases Size(s)
  {
    var next := Turn(s, valid);
    if next.None? then s else Drain(next.value, valid)
  }

  /** The parse loop when a handler pauses the socket after `turns` more frames. */
  function DrainUntil(s: Socket, turns: nat, valid: Utf8): Socket
    decreases Size(s)
  {
    var next := Turn(s, valid);
    if next.None? then s
    else if turns == 0 then (if next.value.open then next.value.(paused := true) else next.value)
    else DrainUntil(next.value, turns - 1, valid)
  }

  function Append(s: Socket, chunk: seq<Byte>): Socket {
    if s.open then s.(pending := s.pending + chunk) else s
  }

  datatype Event =
    | Chunk(bytes: seq<Byte>, pauseAfter: Option<nat>)
    | Pause
    | Resume(pauseAgainAfter: Option<nat>)

  function Parse(s: Socket, pauseAfter: Option<nat>, valid: Utf8): Socket {
    if pauseAfter.None? then Drain(s, valid) else DrainUntil(s, pauseAfter.value, valid)
  }

  function Step(s: Socket, e: Event, valid: Utf8): Socket {
    match e
    case Chunk(bytes, pauseAfter) => Parse(Append(s, bytes), pauseAfter, valid)
    case Pause => if s.open then s.(paused := true) else s
    case Resume(pauseAgainAfter) =>
      if !s.open || !s.paused then s else Parse(s.(paused := false), pauseAgainAfter, valid)
  }

  function Run(events: seq<Event>, valid: Utf8): Socket {
    if events == [] then INIT else Step(Run(events[..|events| - 1], valid), events[|events| - 1], valid)
  }

  function Received(events: seq<Event>): seq<Byte> {
    if events == [] then []
    else Received(events[..|events| - 1]) + (match events[|events| - 1] case Chunk(bytes, _) => bytes case _ => [])
  }

  // ---------------------------------------------------------- chunk independence

  function Resumed(s: Socket): Socket {
    s.(paused := false)
  }

  lemma TurnExtends(s: Socket, more: seq<Byte>, valid: Utf8)
    requires Turn(s, valid).Some?
    ensures Turn(Append(s, more), valid) == Some(Append(Turn(s, valid).value, more))
  {
    ParseFrameExtends(s.pending, more);
  }

  /** Draining early makes no difference to what a later drain produces. */
  lemma {:induction false} DrainExtends(s: Socket, more: seq<Byte>, valid: Utf8)
    ensures Drain(Append(Drain(s, valid), more), valid) == Drain(Append(s, more), valid)
    decreases Size(s)
  {
    var next := Turn(s, valid);
    if next.Some? {
      TurnExtends(s, more, valid);
      DrainExtends(next.value, more, valid);
    }
  }

  lemma DrainTurns(s: Socket, more: seq<Byte>, valid: Utf8)
    requires Turn(s, valid).Some?
    ensures Drain(Append(s, more), valid) == Drain(Append(Turn(s, valid).value, more), valid)
  {
    TurnExtends(s, more, valid);
  }

  lemma {:induction false} PausedDrainExtends(s: Socket, turns: nat, more: seq<Byte>, valid: Utf8)
    requires !s.paused
    ensures Drain(Append(Resumed(DrainUntil(s, turns, valid)), more), valid) == Drain(Append(s, more), valid)
    decreases Size(s)
  {
    var next := Turn(s, valid);
    if next.None? {
      assert Resumed(DrainUntil(s, turns, valid)) == s;
    } else {
      DrainTurns(s, more, valid);
      if turns == 0 {
        assert Resumed(DrainUntil(s, turns, valid)) == next.value;
      } else {
        PausedDrainExtends(next.value, turns - 1, more, valid);
        assert DrainUntil(s, turns, valid) == DrainUntil(next.value, turns - 1, valid);
      }
    }
  }

  lemma TurnEmits(s: Socket, valid: Utf8)
    ensures Turn(s, valid).Some? ==> s.out <= Turn(s, valid).value.out
  {
  }

  lemma {:induction false} DrainEmits(s: Socket, valid: Utf8)
    ensures s.out <= Drain(s, valid).out
    decreases Size(s)
  {
    var next := Turn(s, valid);
    if next.Some? {
      TurnEmits(s, valid);
      DrainEmits(next.value, valid);
    }
  }

  lemma {:induction false} DrainSettles(s: Socket, valid: Utf8)
    ensures Turn(Drain(s, valid), valid).None?
    ensures !s.paused ==> !Drain(s, valid).paused
    decreases Size(s)
  {
    var next := Turn(s, valid);
    if next.Some? { DrainSettles(next.value, valid); }
  }

  lemma {:induction false} PausedDrainSettles(s: Socket, turns: nat, valid: Utf8)
    ensures Turn(DrainUntil(s, turns, valid), valid).None?
    decreases Size(s)
  {
    var next := Turn(s, valid);
    if next.None? {
      assert DrainUntil(s, turns, valid) == s;
    } else if turns == 0 {
      var t := DrainUntil(s, turns, valid);
      assert t == if next.value.open then next.value.(paused := true) else next.value;
      assert !t.open || t.paused;
    } else {
      PausedDrainSettles(next.value, turns - 1, valid);
    }
  }

  lemma ParseSettles(s: Socket, pauseAfter: Option<nat>, valid: Utf8)
    ensures Turn(Parse(s, pauseAfter, valid), valid).None?
  {
    if pauseAfter.None? { DrainSettles(s, valid); } else { PausedDrainSettles(s, pauseAfter.value, valid); }
  }

  lemma ParseExtends(s: Socket, pauseAfter: Option<nat>, more: seq<Byte>, valid: Utf8)
    requires !s.paused
    ensures Drain(Append(Resumed(Parse(s, pauseAfter, valid)), more), valid) == Drain(Append(s, more), valid)
  {
    if pauseAfter.None? {
      DrainSettles(s, valid);
      DrainExtends(s, more, valid);
      assert Resumed(Drain(s, valid)) == Drain(s, valid);
    } else {
      PausedDrainExtends(s, pauseAfter.value, more, valid);
    }
  }

  lemma AppendTwice(s: Socket, a: seq<Byte>, b: seq<Byte>)
    ensures Append(Append(s, a), b) == Append(s, a + b)
    ensures Append(s, []) == s
    ensures Append(Resumed(s), a) == Resumed(Append(s, a))
  {
    assert s.pending + a + b == s.pending + (a + b);
    assert s.pending + [] == s.pending;
  }

  lemma {:induction false} RunExtends(events: seq<Event>, more: seq<Byte>, valid: Utf8)
    ensures Drain(Append(Resumed(Run(events, valid)), more), valid) == Drain(Append(INIT, Received(events) + more), valid)
    ensures Turn(Run(events, valid), valid).None?
  {
    if events == [] {
      assert [] + more == more;
    } else {
      var before, e := events[..|events| - 1], events[|events| - 1];
      var s := Run(before, valid);
      RunExtends(before, more, valid);
      match e
      case Chunk(bytes, pauseAfter) =>
        RunExtends(before, bytes + more, valid);
        assert Received(before) + (bytes + more) == Received(events) + more;
        AppendTwice(s, bytes, more);
        AppendTwice(Resumed(s), bytes, more);
        ParseSettles(Append(s, bytes), pauseAfter, valid);
        if !s.paused {
          assert Resumed(s) == s;
          ParseExtends(Append(s, bytes), pauseAfter, more, valid);
        }
      case Pause =>
        assert Received(events) == Received(before);
      case Resume(pauseAgainAfter) =>
        assert Received(events) == Received(before);
        ParseSettles(Resumed(s), pauseAgainAfter, valid);
        ParseExtends(Resumed(s), pauseAgainAfter, more, valid);
    }
  }

  /**
   However the bytes are chunked, and wherever the socket was paused and resumed, an endpoint
   that is not paused is in the state that feeding everything at once reaches; a paused one has
   delivered a prefix of the same output.
   */
  lemma ChunksAndPausesDoNotMatter(events: seq<Event>, valid: Utf8)
    ensures var whole := Drain(Append(INIT, Received(events)), valid);
            && (!Run(events, valid).paused ==> Run(events, valid) == whole)
            && Run(events, valid).out <= whole.out
  {
    RunExtends(events, [], valid);
    assert Received(events) + [] == Received(events);
    var s := Run(events, valid);
    AppendTwice(Resumed(s), [], []);
    DrainEmits(Resumed(s), valid);
  }

  // ------------------------------------------------------------------ round trip

  function LengthBytes(length: nat, flag: nat): (bytes: seq<Byte>)
    requires flag == 0 || flag == 128
  {
    if length < 126 then [flag + length]
    else if length < 65536 then [flag + 126] + WriteBE(length, 2)
    else [flag + 127] + WriteBE(length, 8)
  }

  /** A client frame with its mask. */
  datatype Wire = Wire(frame: Frame, mask: seq<Byte>)

  predicate Sendable(w: Wire) {
    w.frame.opcode < 16 && |w.mask| == 4 && |w.frame.payload| <= MAX_MESSAGE_BYTES
  }

  function EncodeFrame(w: Wire): seq<Byte>
    requires Sendable(w)
  {
    var f := w.frame;
    [(if f.fin then 128 else 0) + f.opcode] + LengthBytes(|f.payload|, 128) + w.mask + Masked(f.payload, w.mask)
  }

  function Encode(wires: seq<Wire>): seq<Byte>
    requires forall w :: w in wires ==> Sendable(w)
  {
    if wires == [] then [] else EncodeFrame(wires[0]) + Encode(wires[1..])
  }

  lemma LengthRoundTrip(first: Byte, length: nat, rest: seq<Byte>)
    requires length <= MAX_MESSAGE_BYTES && first / 16 % 8 == 0
    ensures ParseHeader([first] + LengthBytes(length, 128) + rest) == Sized(length, 1 + |LengthBytes(length, 128)|)
  {
    var bytes := [first] + LengthBytes(length, 128) + rest;
    if length < 126 {
    } else if length < 65536 {
      assert Pow256(2) == 65536;
      WriteThenRead(length, 2);
      assert bytes[2..4] == WriteBE(length, 2);
    } else {
      assert Pow256(3) > 65536 && Pow256(8) > 65536;
      WriteThenRead(length, 8);
      assert bytes[2..10] == WriteBE(length, 8);
    }
  }

  lemma Middle(a: seq<Byte>, b: seq<Byte>, c: seq<Byte>)
    ensures (a + b + c)[|a|..|a| + |b|] == b && (a + b + c)[|a| + |b|..] == c
  {
  }

  lemma SizedFrame(head: seq<Byte>, mask: seq<Byte>, masked: seq<Byte>, rest: seq<Byte>)
    requires |head| >= 2 && |mask| == 4
    ensures FrameAt(head + mask + masked + rest, |masked|, |head|) == Got(Frame(head[0] >= 128, head[0] % 16, Masked(masked, mask)), rest)
  {
    assert head + mask + masked + rest == head + mask + (masked + rest);
    Middle(head, mask, masked + rest);
    Middle(head + mask, masked, rest);
  }

  lemma FrameRoundTrip(w: Wire, rest: seq<Byte>)
    requires Sendable(w)
    ensures ParseFrame(EncodeFrame(w) + rest) == Got(w.frame, rest)
  {
    var f := w.frame;
    var first := (if f.fin then 128 else 0) + f.opcode;
    var length, masked := LengthBytes(|f.payload|, 128), Masked(f.payload, w.mask);
    var head := [first] + length;
    assert EncodeFrame(w) + rest == head + w.mask + masked + rest;
    assert EncodeFrame(w) + rest == head + (w.mask + masked + rest);
    LengthRoundTrip(first, |f.payload|, w.mask + masked + rest);
    SizedFrame(head, w.mask, masked, rest);
    MaskedTwice(f.payload, w.mask);
  }

  /** The parser above the framing: frames handled one after the other until the socket closes. */
  function HandleAll(s: Socket, wires: seq<Wire>, valid: Utf8): Socket
    decreases |wires|
  {
    if wires == [] || !s.open then s else HandleAll(Handle(s, wires[0].frame, valid), wires[1..], valid)
  }

  lemma HandleIgnoresPending(s: Socket, f: Frame, rest: seq<Byte>, valid: Utf8)
    requires s.open && !s.paused && s.pending == []
    ensures var handled := Handle(s, f, valid);
            Handle(s.(pending := rest), f, valid) == Append(handled, rest) && !handled.paused && handled.pending == []
  {
  }

  /** The byte parser refines the frame handler, for all frames a client may send. */
  lemma {:induction false} DrainHandlesFrames(s: Socket, wires: seq<Wire>, valid: Utf8)
    requires forall w :: w in wires ==> Sendable(w)
    requires s.open && !s.paused && s.pending == []
    ensures Drain(Append(s, Encode(wires)), valid) == HandleAll(s, wires, valid)
    decreases |wires|
  {
    if wires == [] {
      assert Append(s, Encode(wires)) == s;
    } else {
      var t := Append(s, Encode(wires));
      var rest := Encode(wires[1..]);
      FrameRoundTrip(wires[0], rest);
      var handled := Handle(s, wires[0].frame, valid);
      assert t.pending == EncodeFrame(wires[0]) + rest;
      HandleIgnoresPending(s, wires[0].frame, rest, valid);
      assert Turn(t, valid) == Some(Append(handled, rest));
      if handled.open {
        DrainHandlesFrames(handled, wires[1..], valid);
      } else {
        assert Drain(handled, valid) == handled;
      }
    }
  }

  lemma {:induction false} HandleAllConcat(s: Socket, a: seq<Wire>, b: seq<Wire>, valid: Utf8)
    ensures HandleAll(s, a + b, valid) == HandleAll(HandleAll(s, a, valid), b, valid)
    decreases |a|
  {
    if a == [] {
      assert a + b == b;
    } else if s.open {
      assert (a + b)[1..] == a[1..] + b;
      HandleAllConcat(Handle(s, a[0].frame, valid), a[1..], b, valid);
    }
  }

  /** A ping or a pong between the fragments of a message. */
  datatype Beat = Beat(ping: bool, payload: seq<Byte>, mask: seq<Byte>)

  /** One fragment, with the control frames sent before it. */
  datatype Piece = Piece(beats: seq<Beat>, payload: seq<Byte>, mask: seq<Byte>)

  datatype Message = Message(text: bool, pieces: seq<Piece>)

  function Join(pieces: seq<Piece>): seq<Byte> {
    if pieces == [] then [] else Join(pieces[..|pieces| - 1]) + pieces[|pieces| - 1].payload
  }

  predicate WellFormed(m: Message, valid: Utf8) {
    && m.pieces != []
    && |Join(m.pieces)| <= MAX_MESSAGE_BYTES
    && (m.text ==> valid(Join(m.pieces)))
    && forall p :: p in m.pieces ==> |p.mask| == 4 && forall b :: b in p.beats ==> |b.mask| == 4 && |b.payload| <= 125
  }

  function BeatWires(beats: seq<Beat>): seq<Wire> {
    if beats == [] then []
    else [Wire(Frame(true, if beats[0].ping then 9 else 10, beats[0].payload), beats[0].mask)] + BeatWires(beats[1..])
  }

  function Kind(m: Message): nat {
    if m.text then 1 else 2
  }

  function PieceWire(m: Message, i: nat): Wire
    requires i < |m.pieces|
  {
    Wire(Frame(i + 1 == |m.pieces|, if i == 0 then Kind(m) else 0, m.pieces[i].payload), m.pieces[i].mask)
  }

  function MessageWires(m: Message, from: nat): seq<Wire>
    requires from <= |m.pieces|
    decreases |m.pieces| - from
  {
    if from == |m.pieces| then []
    else BeatWires(m.pieces[from].beats) + [PieceWire(m, from)] + MessageWires(m, from + 1)
  }

  function AllWires(messages: seq<Message>): seq<Wire> {
    if messages == [] then [] else MessageWires(messages[0], 0) + AllWires(messages[1..])
  }

  function Pongs(beats: seq<Beat>): seq<Out> {
    if beats == [] then [] else (if beats[0].ping then [Reply(10, beats[0].payload)] else []) + Pongs(beats[1..])
  }

  function Whole(m: Message): Out {
    if m.text then Text(Decoded(Join(m.pieces))) else Binary(Join(m.pieces))
  }

  /** Every ping is answered where it was sent, and the message arrives once, after its last fragment. */
  function MessageOut(m: Message, from: nat): seq<Out>
    requires from <= |m.pieces|
    decreases |m.pieces| - from
  {
    if from == |m.pieces| then [Whole(m)] else Pongs(m.pieces[from].beats) + MessageOut(m, from + 1)
  }

  function AllOut(messages: seq<Message>): seq<Out> {
    if messages == [] then [] else MessageOut(messages[0], 0) + AllOut(messages[1..])
  }

  lemma {:induction false} BeatsSendable(beats: seq<Beat>)
    requires forall b :: b in beats ==> |b.mask| == 4 && |b.payload| <= 125
    ensures forall w :: w in BeatWires(beats) ==> Sendable(w)
  {
    if beats != [] { BeatsSendable(beats[1..]); }
  }

  lemma {:induction false} MessageSendable(m: Message, from: nat, valid: Utf8)
    requires WellFormed(m, valid) && from <= |m.pieces|
    ensures forall w :: w in MessageWires(m, from) ==> Sendable(w)
    decreases |m.pieces| - from
  {
    if from < |m.pieces| {
      assert m.pieces[from] in m.pieces;
      BeatsSendable(m.pieces[from].beats);
      JoinLength(m.pieces, from + 1);
      assert m.pieces[..from + 1][..from] == m.pieces[..from];
      MessageSendable(m, from + 1, valid);
    }
  }

  lemma {:induction false} MessagesSendable(messages: seq<Message>, valid: Utf8)
    requires forall m :: m in messages ==> WellFormed(m, valid)
    ensures forall w :: w in AllWires(messages) ==> Sendable(w)
  {
    if messages != [] {
      MessageSendable(messages[0], 0, valid);
      MessagesSendable(messages[1..], valid);
    }
  }

  function EncodeMessages(messages: seq<Message>, valid: Utf8): seq<Byte>
    requires forall m :: m in messages ==> WellFormed(m, valid)
  {
    MessagesSendable(messages, valid);
    Encode(AllWires(messages))
  }

  function Emit(s: Socket, out: seq<Out>): Socket {
    s.(out := s.out + out)
  }

  lemma EmitTwice(s: Socket, a: seq<Out>, b: seq<Out>)
    ensures Emit(Emit(s, a), b) == Emit(s, a + b)
    ensures Emit(s, []) == s
  {
    assert s.out + a + b == s.out + (a + b);
    assert s.out + [] == s.out;
  }

  lemma FirstBeatHandled(s: Socket, beats: seq<Beat>, valid: Utf8)
    requires s.open && beats != [] && |beats[0].payload| <= 125
    ensures HandleAll(s, BeatWires(beats), valid) ==
            HandleAll(Emit(s, if beats[0].ping then [Reply(10, beats[0].payload)] else []), BeatWires(beats[1..]), valid)
  {
    var b, rest := beats[0], BeatWires(beats[1..]);
    assert BeatWires(beats) == [Wire(Frame(true, if b.ping then 9 else 10, b.payload), b.mask)] + rest;
    EmitTwice(s, [], []);
  }

  lemma {:induction false} BeatsHandled(s: Socket, beats: seq<Beat>, valid: Utf8)
    requires s.open && forall b :: b in beats ==> |b.payload| <= 125
    ensures HandleAll(s, BeatWires(beats), valid) == Emit(s, Pongs(beats))
    decreases |beats|
  {
    if beats == [] {
      EmitTwice(s, [], []);
    } else {
      var head := if beats[0].ping then [Reply(10, beats[0].payload)] else [];
      assert beats[0] in beats;
      FirstBeatHandled(s, beats, valid);
      BeatsHandled(Emit(s, head), beats[1..], valid);
      EmitTwice(s, head, Pongs(beats[1..]));
    }
  }

  lemma {:induction false} JoinLength(pieces: seq<Piece>, i: nat)
    requires i <= |pieces|
    ensures |Join(pieces[..i])| <= |Join(pieces)|
  {
    if i < |pieces| {
      var shorter := pieces[..|pieces| - 1];
      JoinLength(shorter, i);
      assert shorter[..i] == pieces[..i];
    } else {
      assert pieces[..i] == pieces;
    }
  }

  /** The state between two fragments of a message. */
  function Within(s: Socket, opcode: nat, fragment: seq<Byte>): Socket {
    s.(fragmentOpcode := opcode, fragment := fragment)
  }

  lemma PieceHandled(s: Socket, m: Message, i: nat, valid: Utf8)
    requires WellFormed(m, valid) && i < |m.pieces|
    requires s.open && s.fragmentOpcode == (if i == 0 then 0 else Kind(m)) && s.fragment == Join(m.pieces[..i])
    ensures Handle(s, PieceWire(m, i).frame, valid) ==
            if i + 1 == |m.pieces| then Emit(Within(s, 0, []), [Whole(m)])
            else Within(s, Kind(m), Join(m.pieces[..i + 1]))
  {
    JoinLength(m.pieces, i + 1);
    assert m.pieces[..i + 1][..i] == m.pieces[..i];
    assert Join(m.pieces[..i + 1]) == s.fragment + m.pieces[i].payload;
    if i + 1 == |m.pieces| {
      assert m.pieces[..i + 1] == m.pieces;
      assert Join(m.pieces) == s.fragment + m.pieces[i].payload;
    }
    assert m.pieces[i] in m.pieces;
  }

  /** Up to and including fragment `from`, with the control frames before it. */
  lemma PieceAndBeatsHandled(s: Socket, m: Message, from: nat, valid: Utf8)
    requires WellFormed(m, valid) && from < |m.pieces|
    requires s.open && s.fragmentOpcode == (if from == 0 then 0 else Kind(m)) && s.fragment == Join(m.pieces[..from])
    ensures HandleAll(s, MessageWires(m, from), valid) ==
            HandleAll(Handle(Emit(s, Pongs(m.pieces[from].beats)), PieceWire(m, from).frame, valid), MessageWires(m, from + 1), valid)
  {
    var beats, wire := m.pieces[from].beats, PieceWire(m, from);
    assert m.pieces[from] in m.pieces;
    BeatsHandled(s, beats, valid);
    var t := Emit(s, Pongs(beats));
    HandleAllConcat(s, BeatWires(beats) + [wire], MessageWires(m, from + 1), valid);
    HandleAllConcat(s, BeatWires(beats), [wire], valid);
    assert HandleAll(t, [wire], valid) == Handle(t, wire.frame, valid);
  }

  lemma {:induction false} MessageHandled(s: Socket, m: Message, from: nat, valid: Utf8)
    requires WellFormed(m, valid) && from < |m.pieces|
    requires s.open && s.fragmentOpcode == (if from == 0 then 0 else Kind(m)) && s.fragment == Join(m.pieces[..from])
    ensures HandleAll(s, MessageWires(m, from), valid) == Emit(Within(s, 0, []), MessageOut(m, from))
    decreases |m.pieces| - from
  {
    var pongs := Pongs(m.pieces[from].beats);
    var t := Emit(s, pongs);
    PieceAndBeatsHandled(s, m, from, valid);
    PieceHandled(t, m, from, valid);
    if from + 1 == |m.pieces| {
      EmitTwice(Within(s, 0, []), pongs, [Whole(m)]);
      assert MessageOut(m, from) == pongs + [Whole(m)];
    } else {
      MessageHandled(Within(t, Kind(m), Join(m.pieces[..from + 1])), m, from + 1, valid);
      EmitTwice(Within(s, 0, []), pongs, MessageOut(m, from + 1));
    }
  }

  lemma FirstMessageHandled(s: Socket, messages: seq<Message>, valid: Utf8)
    requires messages != [] && WellFormed(messages[0], valid)
    requires s.open && s.fragmentOpcode == 0 && s.fragment == []
    ensures HandleAll(s, AllWires(messages), valid) ==
            HandleAll(Emit(s, MessageOut(messages[0], 0)), AllWires(messages[1..]), valid)
  {
    var m := messages[0];
    assert m.pieces[..0] == [];
    MessageHandled(s, m, 0, valid);
    assert Within(s, 0, []) == s;
    HandleAllConcat(s, MessageWires(m, 0), AllWires(messages[1..]), valid);
  }

  lemma {:induction false} MessagesHandled(s: Socket, messages: seq<Message>, valid: Utf8)
    requires forall m :: m in messages ==> WellFormed(m, valid)
    requires s.open && s.fragmentOpcode == 0 && s.fragment == []
    ensures HandleAll(s, AllWires(messages), valid) == Emit(s, AllOut(messages))
    decreases |messages|
  {
    if messages == [] {
      EmitTwice(s, [], []);
    } else {
      FirstMessageHandled(s, messages, valid);
      MessagesHandled(Emit(s, MessageOut(messages[0], 0)), messages[1..], valid);
      EmitTwice(s, MessageOut(messages[0], 0), AllOut(messages[1..]));
    }
  }

  /**
   Messages within the limit, fragmented at will, masked, and interleaved with pings and pongs,
   are delivered decoded and in order, in whatever chunks their bytes arrive.
   */
  lemma MessagesRoundTrip(messages: seq<Message>, events: seq<Event>, valid: Utf8)
    requires forall m :: m in messages ==> WellFormed(m, valid)
    requires Received(events) == EncodeMessages(messages, valid)
    requires !Run(events, valid).paused
    ensures Run(events, valid) == INIT.(out := AllOut(messages))
  {
    MessagesSendable(messages, valid);
    MessagesHandled(INIT, messages, valid);
    DrainHandlesFrames(INIT, AllWires(messages), valid);
    ChunksAndPausesDoNotMatter(events, valid);
    assert INIT.out + AllOut(messages) == AllOut(messages);
  }

  function Original(m: Message): Out {
    if m.text then Text(Join(m.pieces)) else Binary(Join(m.pieces))
  }

  /** As `MessageOut`, with the message as it was sent. */
  function MessageSent(m: Message, from: nat): seq<Out>
    requires from <= |m.pieces|
    decreases |m.pieces| - from
  {
    if from == |m.pieces| then [Original(m)] else Pongs(m.pieces[from].beats) + MessageSent(m, from + 1)
  }

  function AllSent(messages: seq<Message>): seq<Out> {
    if messages == [] then [] else MessageSent(messages[0], 0) + AllSent(messages[1..])
  }

  predicate Unmarked(m: Message) {
    m.text ==> !Marked(Join(m.pieces))
  }

  lemma SameParts(a: seq<Out>, b: seq<Out>, c: seq<Out>, d: seq<Out>)
    requires |a| == |c|
    ensures a + b == c + d <==> a == c && b == d
  {
    if a + b == c + d {
      assert a == (a + b)[..|a|] && b == (a + b)[|a|..];
      assert c == (c + d)[..|c|] && d == (c + d)[|c|..];
    }
  }

  lemma {:induction false} MessageComesBack(m: Message, from: nat)
    requires from <= |m.pieces|
    ensures |MessageOut(m, from)| == |MessageSent(m, from)|
    ensures MessageOut(m, from) == MessageSent(m, from) <==> Unmarked(m)
    decreases |m.pieces| - from
  {
    if from < |m.pieces| {
      var pongs := Pongs(m.pieces[from].beats);
      MessageComesBack(m, from + 1);
      SameParts(pongs, MessageOut(m, from + 1), pongs, MessageSent(m, from + 1));
    }
  }

  lemma {:induction false} AllComeBack(messages: seq<Message>)
    ensures AllOut(messages) == AllSent(messages) <==> forall i :: 0 <= i < |messages| ==> Unmarked(messages[i])
  {
    if messages != [] {
      var rest := messages[1..];
      MessageComesBack(messages[0], 0);
      AllComeBack(rest);
      SameParts(MessageOut(messages[0], 0), AllOut(rest), MessageSent(messages[0], 0), AllSent(rest));
      assert forall i :: 0 <= i < |rest| ==> rest[i] == messages[i + 1];
      assert forall i :: 0 < i < |messages| ==> messages[i] == rest[i - 1];
    }
  }

  /** Every message comes back exactly as it was sent if and only if no text starts with a byte-order mark. */
  lemma MessagesComeBackExactly(messages: seq<Message>, events: seq<Event>, valid: Utf8)
    requires forall m :: m in messages ==> WellFormed(m, valid)
    requires Received(events) == EncodeMessages(messages, valid)
    requires !Run(events, valid).paused
    ensures Run(events, valid).out == AllSent(messages) <==> forall i :: 0 <= i < |messages| ==> Unmarked(messages[i])
  {
    MessagesRoundTrip(messages, events, valid);
    AllComeBack(messages);
  }

  /** A text that does not come back: the mark in front of it is lost. */
  lemma MarkIsLost()
    ensures var m := Message(true, [Piece([], [0xEF, 0xBB, 0xBF, 0x41], [0, 0, 0, 0])]);
      WellFormed(m, bytes => true) && MessageOut(m, 0) == [Text([0x41])]
  {
    var pieces := [Piece([], [0xEF, 0xBB, 0xBF, 0x41], [0, 0, 0, 0])];
    assert pieces[..0] == [] && Join(pieces) == Join([]) + pieces[0].payload;
    assert Join(pieces) == [0xEF, 0xBB, 0xBF, 0x41];
    assert Marked(Join(pieces)) && Join(pieces)[3..] == [0x41];
  }

  /** What `frame` writes: a final, unmasked frame. */
  function ServerFrame(opcode: nat, payload: seq<Byte>): seq<Byte>
    requires opcode < 16
  {
    [128 + opcode] + LengthBytes(|payload|, 0) + payload
  }

  /** A client's reading of an unmasked frame: opcode, payload, remaining bytes. */
  function ReadServerFrame(bytes: seq<Byte>): Option<(nat, seq<Byte>, seq<Byte>)> {
    if |bytes| < 2 || bytes[0] < 128 then None
    else
      var extra := if bytes[1] < 126 then 0 else if bytes[1] == 126 then 2 else 8;
      if |bytes| < 2 + extra then None
      else
        var length := if extra == 0 then bytes[1] else ReadBE(bytes[2..2 + extra]);
        if |bytes| < 2 + extra + length then None
        else Some((bytes[0] % 128, bytes[2 + extra..2 + extra + length], bytes[2 + extra + length..]))
  }

  lemma ServerFrameRoundTrip(opcode: nat, payload: seq<Byte>, rest: seq<Byte>)
    requires opcode < 16 && |payload| < Pow256(8)
    ensures ReadServerFrame(ServerFrame(opcode, payload) + rest) == Some((opcode, payload, rest))
  {
    var bytes := ServerFrame(opcode, payload) + rest;
    var n := |LengthBytes(|payload|, 0)|;
    if 126 <= |payload| {
      if |payload| < 65536 { assert Pow256(2) == 65536; }
      WriteThenRead(|payload|, n - 1);
      assert bytes[2..1 + n] == WriteBE(|payload|, n - 1);
    }
    assert bytes[1 + n..1 + n + |payload|] == payload;
    assert bytes[1 + n + |payload|..] == rest;
  }

  // ------------------------------------------------------------------ the object

  lemma ParseTurns(s: Socket, pauseAfter: Option<nat>, valid: Utf8)
    ensures var next := Turn(s, valid);
            Parse(s, pauseAfter, valid) ==
              if next.None? then s
              else if pauseAfter == Some(0) then (if next.value.open then next.value.(paused := true) else next.value)
              else Parse(next.value, if pauseAfter.None? then None else Some(pauseAfter.value - 1), valid)
  {
  }

  /** XOR of a copied payload, in place. */
  method Unmask(payload: array<Byte>, mask: seq<Byte>)
    requires |mask| == 4
    modifies payload
    ensures payload[..] == Masked(old(payload[..]), mask)
  {
    var index := 0;
    while index < payload.Length
      invariant 0 <= index <= payload.Length
      invariant payload[..index] == Masked(old(payload[..]), mask)[..index]
      invariant payload[index..] == old(payload[index..])
    {
      payload[index] := Xor(payload[index], mask[index % 4]);
      index := index + 1;
    }
  }

  function Concat(parts: seq<seq<Byte>>): seq<Byte> {
    if parts == [] then [] else Concat(parts[..|parts| - 1]) + parts[|parts| - 1]
  }

  class Endpoint {
    const valid: Utf8
    var pending: seq<Byte>
    var fragments: seq<seq<Byte>>
    var fragmentOpcode: nat
    var fragmentBytes: nat
    var open: bool
    var paused: bool
    var out: seq<Out>

    constructor (valid: Utf8)
      ensures this.valid == valid && Valid() && State() == INIT
    {
      this.valid := valid;
      pending, fragments, fragmentOpcode, fragmentBytes := [], [], 0, 0;
      open, paused, out := true, false, [];
    }

    ghost predicate Valid()
      reads this
    {
      fragmentBytes == |Concat(fragments)|
    }

    ghost function State(): Socket
      reads this
    {
      if open then Socket(true, paused, pending, fragmentOpcode, Concat(fragments), out)
      else Socket(false, paused, [], 0, [], out)
    }

    method Close(code: nat)
      requires Valid() && code < 65536
      modifies this`open, this`out
      ensures Valid() && State() == if old(open) then CloseWith(old(State()), code) else old(State())
    {
      if !open { return; }
      out := out + [Reply(8, WriteBE(code, 2)), Closed];
      open := false;
    }

    method HandleControl(f: Frame)
      requires Valid() && open && f.opcode >= 8
      modifies this`open, this`out
      ensures Valid() && State() == Control(old(State()), f)
    {
      if !f.fin || |f.payload| > 125 { Close(1002); return; }
      if f.opcode == 8 { Close(1000); return; }
      if f.opcode == 9 { out := out + [Reply(10, f.payload)]; }
      else if f.opcode != 10 { Close(1002); }
    }

    method HandleData(f: Frame)
      requires Valid() && open && f.opcode < 8
      modifies this`fragments, this`fragmentOpcode, this`fragmentBytes, this`open, this`out
      ensures Valid() && State() == Data(old(State()), f, valid)
    {
      if (if f.opcode == 0 then fragmentOpcode == 0 else fragmentOpcode != 0 || (f.opcode != 1 && f.opcode != 2)) {
        Close(1002);
        return;
      }
      if f.opcode != 0 { fragmentOpcode := f.opcode; }
      if fragmentBytes + |f.payload| > MAX_MESSAGE_BYTES {
        Close(1009);
        return;
      }
      fragmentBytes := fragmentBytes + |f.payload|;
      assert (fragments + [f.payload])[..|fragments|] == fragments;
      fragments := fragments + [f.payload];
      if !f.fin { return; }
      var message, kind := Concat(fragments), fragmentOpcode;
      assert message == old(State()).fragment + f.payload;
      fragments, fragmentOpcode, fragmentBytes := [], 0, 0;
      if kind == 2 { out := out + [Binary(message)]; }
      else if !valid(message) { Close(1007); }
      else { out := out + [Text(Decoded(message))]; }
    }

    /** The parse loop; `pauseAfter` tells after how many frames a handler pauses it, if any does. */
    method ParseLoop(pauseAfter: Option<nat>)
      requires Valid()
      modifies this
      ensures Valid() && State() == Parse(old(State()), pauseAfter, valid)
    {
      var left := pauseAfter;
      while open && !paused
        invariant Valid()
        invariant Parse(State(), left, valid) == Parse(old(State()), pauseAfter, valid)
        decreases Size(State())
      {
        ghost var before := State();
        ParseTurns(before, left, valid);
        var parsed := ParseFrame(pending);
        if parsed.NeedMore? { return; }
        if parsed.Bad? {
          Close(parsed.code);
          return;
        }
        pending := parsed.rest;
        if parsed.frame.opcode >= 8 { HandleControl(parsed.frame); } else { HandleData(parsed.frame); }
        ghost var handled := State();
        assert Turn(before, valid) == Some(handled);
        if left == Some(0) {
          if open { paused := true; }
          assert State() == if handled.open then handled.(paused := true) else handled;
          return;
        }
        if left.Some? { left := Some(left.value - 1); }
      }
      ParseTurns(State(), left, valid);
    }

    method OnData(chunk: seq<Byte>, pauseAfter: Option<nat>)
      requires Valid()
      modifies this
      ensures Valid() && State() == Step(old(State()), Chunk(chunk, pauseAfter), valid)
    {
      pending := pending + chunk;
      ParseLoop(pauseAfter);
    }

    method PauseReading()
      requires Valid()
      modifies this`paused
      ensures Valid() && State() == Step(old(State()), Pause, valid)
    {
      if !open || paused { return; }
      paused := true;
    }

    method ResumeReading(pauseAgainAfter: Option<nat>)
      requires Valid()
      modifies this
      ensures Valid() && State() == Step(old(State()), Resume(pauseAgainAfter), valid)
    {
      if !open || !paused { return; }
      paused := false;
      ParseLoop(pauseAgainAfter);
    }
  }
}
