/** The two readers themselves, each proved to give the lines of the whole text for every chunking. */
module LineReaders {
  import opened Wrappers
  import opened Lines

  datatype Line = Line(text: string, bytes: nat)

  function Join(chunks: seq<string>): string {
    if chunks == [] then "" else Join(chunks[..|chunks| - 1]) + chunks[|chunks| - 1]
  }

  function Texts(lines: seq<Line>): (texts: seq<string>)
    ensures |texts| == |lines|
  {
    seq(|lines|, i requires 0 <= i < |lines| => lines[i].text)
  }

  ghost predicate Measured(lines: seq<Line>) {
    forall i :: 0 <= i < |lines| ==> lines[i].bytes == Size(lines[i].text)
  }

  lemma TextsAppended(lines: seq<Line>, line: Line)
    ensures Texts(lines + [line]) == Texts(lines) + [line.text]
  {
  }

  lemma {:induction false} JoinPrefix(chunks: seq<string>, k: nat)
    requires k <= |chunks|
    ensures Join(chunks[..k]) <= Join(chunks)
    ensures k < |chunks| ==> Join(chunks[..k + 1]) == Join(chunks[..k]) + chunks[k]
    decreases |chunks|
  {
    if k == |chunks| {
      assert chunks[..k] == chunks;
    } else {
      var shorter := chunks[..|chunks| - 1];
      JoinPrefix(shorter, k);
      assert shorter[..k] == chunks[..k];
      assert chunks[..k + 1][..k] == chunks[..k];
    }
  }

  /** The reader is inside a line over the limit; everything before that line is within it. */
  ghost predicate Over(read: string, out: seq<string>, crlf: bool, limit: nat) {
    var r := FeedAll(START, read, crlf);
    r.lines == out && AllWithin(out, limit) && Size(r.partial) > limit
  }

  /** A reader that is over the limit in a prefix of the input may stop at once. */
  lemma StopEarly(whole: string, read: string, out: seq<string>, crlf: bool, limit: nat)
    requires read <= whole && Over(read, out, crlf, limit)
    ensures Within(AllLines(whole, crlf), limit) == out && AnyOver(AllLines(whole, crlf), limit)
  {
    assert whole == read + whole[|read|..];
    OverStays(read, whole[|read|..], crlf, limit);
  }

  // ----------------------------------------------------------- server-sent events

  ghost predicate Reached(read: string, out: seq<Line>, pending: string, pendingBytes: nat, skipLF: bool, limit: nat) {
    && FeedAll(START, read, true) == Reader(Texts(out), pending, skipLF)
    && AllWithin(Texts(out), limit) && Measured(out)
    && pendingBytes == Size(pending) <= limit
  }

  lemma FedOneMore(text: string, chunk: string, i: nat, crlf: bool)
    requires i < |chunk|
    ensures FeedAll(START, text + chunk[..i + 1], crlf) == Feed(FeedAll(START, text + chunk[..i], crlf), chunk[i], crlf)
  {
    var more := text + chunk[..i + 1];
    assert more[..|more| - 1] == text + chunk[..i];
  }

  lemma LineYielded(out: seq<Line>, line: Line, limit: nat)
    requires AllWithin(Texts(out), limit) && Measured(out) && line.bytes == Size(line.text) <= limit
    ensures AllWithin(Texts(out + [line]), limit) && Measured(out + [line]) && Texts(out + [line]) == Texts(out) + [line.text]
  {
    TextsAppended(out, line);
    var more := out + [line];
    forall i | 0 <= i < |more| ensures Size(Texts(more)[i]) <= limit && more[i].bytes == Size(more[i].text) {
      if i < |out| { assert Texts(more)[i] == Texts(out)[i]; }
    }
  }

  /** Position `i` of a chunk: `pending` and the piece since `start` make up the line being read. */
  ghost predicate At(read: string, chunk: string, i: nat, start: nat, out: seq<Line>, pending: string, skipLF: bool) {
    && start <= i <= |chunk|
    && FeedAll(START, read + chunk[..i], true) == Reader(Texts(out), pending + chunk[start..i], skipLF)
    && (skipLF ==> pending == "" && start == i)
  }

  lemma AtSkipped(read: string, chunk: string, i: nat, start: nat, out: seq<Line>, pending: string)
    requires i < |chunk| && At(read, chunk, i, start, out, pending, true) && chunk[i] == '\n'
    ensures At(read, chunk, i + 1, i + 1, out, pending, false)
  {
    FedOneMore(read, chunk, i, true);
    assert pending + chunk[start..i] == pending + chunk[i + 1..i + 1];
  }

  lemma AtPlain(read: string, chunk: string, i: nat, start: nat, out: seq<Line>, pending: string, skipLF: bool)
    requires i < |chunk| && At(read, chunk, i, start, out, pending, skipLF) && chunk[i] != '\n' && chunk[i] != '\r'
    ensures At(read, chunk, i + 1, start, out, pending, false)
  {
    FedOneMore(read, chunk, i, true);
    assert pending + chunk[start..i] + [chunk[i]] == pending + chunk[start..i + 1];
  }

  lemma AtBreak(read: string, chunk: string, i: nat, start: nat, out: seq<Line>, pending: string, skipLF: bool, line: Line)
    requires i < |chunk| && At(read, chunk, i, start, out, pending, skipLF)
    requires chunk[i] == '\r' || (chunk[i] == '\n' && !skipLF)
    requires line.text == pending + chunk[start..i]
    ensures At(read, chunk, i + 1, i + 1, out + [line], "", chunk[i] == '\r')
  {
    FedOneMore(read, chunk, i, true);
    TextsAppended(out, line);
    assert "" + chunk[i + 1..i + 1] == "";
  }

  lemma AtEnds(read: string, chunk: string, start: nat, out: seq<Line>, pending: string, skipLF: bool)
    requires At(read, chunk, |chunk|, start, out, pending, skipLF)
    ensures FeedAll(START, read + chunk, true) == Reader(Texts(out), pending + chunk[start..], skipLF)
    ensures skipLF ==> pending + chunk[start..] == ""
  {
    assert chunk[..|chunk|] == chunk && chunk[start..] == chunk[start..|chunk|];
  }

  /** Scans one chunk in place. `over` tells that the line at `read + chunk[..at]` is over the limit. */
  method ScanChunk(chunk: string, limit: nat, pending: string, pendingBytes: nat, skipLF: bool, out: seq<Line>, ghost read: string)
    returns (pending': string, pendingBytes': nat, skipLF': bool, out': seq<Line>, over: bool, ghost at: nat)
    requires Reached(read, out, pending, pendingBytes, skipLF, limit)
    requires skipLF ==> pending == ""
    ensures !over ==> Reached(read + chunk, out', pending', pendingBytes', skipLF', limit) && (skipLF' ==> pending' == "")
    ensures over ==> at <= |chunk| && Over(read + chunk[..at], Texts(out'), true, limit) && Measured(out')
  {
    pending', pendingBytes', skipLF', out', over, at := pending, pendingBytes, skipLF, out, false, 0;
    var start, i := 0, 0;
    assert At(read, chunk, 0, 0, out, pending, skipLF) by {
      assert read + chunk[..0] == read && pending + chunk[0..0] == pending;
    }
    while i < |chunk|
      invariant start <= i <= |chunk|
      invariant At(read, chunk, i, start, out', pending', skipLF')
      invariant AllWithin(Texts(out'), limit) && Measured(out')
      invariant pendingBytes' == Size(pending') <= limit
    {
      if skipLF' && chunk[i] == '\n' {
        AtSkipped(read, chunk, i, start, out', pending');
        skipLF', start := false, i + 1;
      } else if chunk[i] != '\r' && chunk[i] != '\n' {
        AtPlain(read, chunk, i, start, out', pending', skipLF');
        skipLF' := false;
      } else {
        var piece := chunk[start..i];
        SizeConcat(pending', piece);
        var line := Line(pending' + piece, pendingBytes' + Size(piece));
        if line.bytes > limit {
          over, at := true, i;
          return;
        }
        AtBreak(read, chunk, i, start, out', pending', skipLF', line);
        LineYielded(out', line, limit);
        out', pending', pendingBytes', start, skipLF' := out' + [line], "", 0, i + 1, chunk[i] == '\r';
      }
      i := i + 1;
    }
    AtEnds(read, chunk, start, out', pending', skipLF');
    SizeConcat(pending', chunk[start..]);
    pendingBytes', pending' := pendingBytes' + Size(chunk[start..]), pending' + chunk[start..];
    if pendingBytes' > limit {
      over, at := true, |chunk|;
      assert chunk[..|chunk|] == chunk;
    }
  }

  /** `readLines`: every line with its UTF-8 size, up to the first one over the limit. */
  method ReadLines(chunks: seq<string>, limit: nat) returns (out: seq<Line>, failed: bool)
    ensures Texts(out) == Within(AllLines(Join(chunks), true), limit) && Measured(out)
    ensures failed <==> AnyOver(AllLines(Join(chunks), true), limit)
  {
    out := [];
    var pending, pendingBytes, skipLF := "", 0, false;
    ghost var read, at := "", 0;
    assert chunks[..0] == [];
    for k := 0 to |chunks|
      invariant read == Join(chunks[..k]) && Reached(read, out, pending, pendingBytes, skipLF, limit)
      invariant skipLF ==> pending == ""
    {
      var over;
      ghost var before := read;
      JoinPrefix(chunks, k);
      JoinPrefix(chunks, k + 1);
      pending, pendingBytes, skipLF, out, over, at := ScanChunk(chunks[k], limit, pending, pendingBytes, skipLF, out, read);
      if over {
        assert read + chunks[k] == read + (chunks[k][..at] + chunks[k][at..]) == read + chunks[k][..at] + chunks[k][at..];
        StopEarly(Join(chunks), read + chunks[k][..at], Texts(out), true, limit);
        return out, true;
      }
      read := read + chunks[k];
    }
    assert chunks[..|chunks|] == chunks;
    NothingOver(read, true, limit);
    if pending != "" {
      LineYielded(out, Line(pending, pendingBytes), limit);
      out := out + [Line(pending, pendingBytes)];
    }
    failed := false;
  }

  // ------------------------------------------------------------------------ JSONL

  function IndexOf(text: string, c: char, from: nat): (index: Option<nat>)
    requires from <= |text|
    ensures index.Some? ==> from <= index.value < |text| && text[index.value] == c && forall i :: from <= i < index.value ==> text[i] != c
    ensures index.None? ==> forall i :: from <= i < |text| ==> text[i] != c
    decreases |text| - from
  {
    if from == |text| then None else if text[from] == c then Some(from) else IndexOf(text, c, from + 1)
  }

  predicate NoBreak(text: string) {
    forall i :: 0 <= i < |text| ==> text[i] != '\n'
  }

  /** One line, and then its break, read after text that ended with a break. */
  lemma LineFed(text: string, line: string, out: seq<string>)
    requires FeedAll(START, text, false) == Reader(out, "", false) && NoBreak(line)
    ensures FeedAll(START, text + line, false).lines == out && FeedAll(START, text + line, false).partial == line
    ensures FeedAll(START, text + line + ['\n'], false) == Reader(out + [line], "", false)
  {
    var r := Reader(out, "", false);
    FeedAllConcat(START, text, line, false);
    FeedPlain(r, line, false);
    assert "" + line == line;
    FeedLast(START, text + line, '\n', false);
  }

  /** All but `pending` of the text has been consumed, up to a break. */
  ghost predicate Consumed(read: string, consumed: string, pending: string, out: seq<string>, limit: nat) {
    read == consumed + pending && FeedAll(START, consumed, false) == Reader(out, "", false) && AllWithin(out, limit)
  }

  lemma SizeAroundBreak(text: string, rest: string)
    ensures Size(text + ['\n'] + rest) == Size(text) + 1 + Size(rest)
  {
    SizeConcat(text + ['\n'], rest);
    assert (text + ['\n'])[..|text|] == text;
  }

  lemma SplitAtBreak(read: string, consumed: string, pending: string, at: nat)
    requires read == consumed + pending && at < |pending| && pending[at] == '\n'
    ensures var text, rest := pending[..at], pending[at + 1..];
      pending == text + ['\n'] + rest && consumed + text <= read && read == consumed + text + ['\n'] + rest
  {
  }

  lemma WithinMore(out: seq<string>, text: string, limit: nat)
    requires AllWithin(out, limit) && Size(text) <= limit
    ensures AllWithin(out + [text], limit)
  {
  }

  lemma LineConsumed(consumed: string, text: string, rest: string, out: seq<string>, limit: nat)
    requires FeedAll(START, consumed, false) == Reader(out, "", false) && AllWithin(out, limit) && NoBreak(text)
    ensures if Size(text) > limit then Over(consumed + text, out, false, limit)
            else Consumed(consumed + text + ['\n'] + rest, consumed + text + ['\n'], rest, out + [text], limit)
  {
    LineFed(consumed, text, out);
    if Size(text) <= limit { WithinMore(out, text, limit); }
  }

  lemma LineTaken(read: string, consumed: string, pending: string, at: nat, out: seq<string>, limit: nat)
    requires Consumed(read, consumed, pending, out, limit)
    requires at < |pending| && pending[at] == '\n' && NoBreak(pending[..at])
    ensures var text := pending[..at];
      && consumed + text <= read
      && (if Size(text) > limit then Over(consumed + text, out, false, limit)
          else Consumed(read, consumed + text + ['\n'], pending[at + 1..], out + [text], limit))
      && Size(pending) == Size(text) + 1 + Size(pending[at + 1..])
  {
    SplitAtBreak(read, consumed, pending, at);
    SizeAroundBreak(pending[..at], pending[at + 1..]);
    LineConsumed(consumed, pending[..at], pending[at + 1..], out, limit);
  }

  lemma NoBreakUpTo(text: string, from: nat)
    requires from <= |text| && NoBreak(text[..from])
    ensures var index := IndexOf(text, '\n', from); NoBreak(text[..if index.Some? then index.value else |text|])
  {
    forall i | 0 <= i < from ensures text[i] != '\n' {
      assert text[..from][i] == text[i];
    }
  }

  /**
   The inner loop: takes the complete lines out of `pending`, searching from where the last chunk
   began. `consumed` is the input up to the last break.
   */
  method TakeLines(pending: string, pendingBytes: nat, from: nat, limit: nat, out: seq<string>, ghost consumed: string, ghost read: string)
    returns (pending': string, pendingBytes': nat, out': seq<string>, over: bool, ghost consumed': string)
    requires Consumed(read, consumed, pending, out, limit)
    requires pendingBytes == Size(pending) && from <= |pending| && NoBreak(pending[..from])
    ensures !over ==> Consumed(read, consumed', pending', out', limit) && pendingBytes' == Size(pending') <= limit && NoBreak(pending')
    ensures over ==> consumed' <= read && Over(consumed', out', false, limit)
  {
    pending', pendingBytes', out', over, consumed' := pending, pendingBytes, out, false, consumed;
    var newline: Option<nat> := IndexOf(pending, '\n', from);
    NoBreakUpTo(pending, from);
    while newline.Some?
      invariant Consumed(read, consumed', pending', out', limit)
      invariant newline.Some? ==> newline.value < |pending'|
      invariant newline.Some? ==> pending'[newline.value] == '\n'
      invariant NoBreak(pending'[..if newline.Some? then newline.value else |pending'|])
      invariant pendingBytes' == Size(pending')
      decreases |pending'|
    {
      var at := newline.value;
      LineTaken(read, consumed', pending', at, out', limit);
      var text := pending'[..at];
      var bytes := Size(text);
      if bytes > limit {
        over, consumed' := true, consumed' + text;
        return;
      }
      pendingBytes' := pendingBytes' - (bytes + 1);
      consumed', pending', out' := consumed' + text + ['\n'], pending'[at + 1..], out' + [text];
      NoBreakUpTo(pending', 0);
      newline := IndexOf(pending', '\n', 0);
    }
    assert pending'[..|pending'|] == pending';
    LineFed(consumed', pending', out');
    if pendingBytes' > limit { over, consumed' := true, consumed' + pending'; }
  }

  /** The JSONL loop of a native process, with an incremental byte count. */
  method ReadJsonLines(chunks: seq<string>, limit: nat) returns (out: seq<string>, failed: bool)
    ensures out == Within(AllLines(Join(chunks), false), limit)
    ensures failed <==> AnyOver(AllLines(Join(chunks), false), limit)
  {
    out := [];
    var pending, pendingBytes := "", 0;
    ghost var consumed := "";
    assert chunks[..0] == [];
    for k := 0 to |chunks|
      invariant Join(chunks[..k]) == consumed + pending
      invariant FeedAll(START, consumed, false) == Reader(out, "", false) && AllWithin(out, limit)
      invariant NoBreak(pending) && pendingBytes == Size(pending) <= limit
    {
      var from, over := |pending|, false;
      SizeConcat(pending, chunks[k]);
      assert (pending + chunks[k])[..from] == pending;
      JoinPrefix(chunks, k);
      JoinPrefix(chunks, k + 1);
      assert Join(chunks[..k + 1]) == consumed + (pending + chunks[k]);
      pending, pendingBytes, out, over, consumed := TakeLines(pending + chunks[k], pendingBytes + Size(chunks[k]), from, limit, out, consumed, Join(chunks[..k + 1]));
      if over {
        StopEarly(Join(chunks), consumed, out, false, limit);
        return out, true;
      }
    }
    assert chunks[..|chunks|] == chunks;
    LineFed(consumed, pending, out);
    NothingOver(consumed + pending, false, limit);
    if pending != "" { out := out + [pending]; }
    failed := false;
  }
}
