/**
 Two incremental line readers against the lines of the whole text: server-sent events end
 lines with CR, LF or CRLF as in section 9.2.6 of the WHATWG HTML standard, and native CLIs
 end them with LF. A decoder hands over whole characters, so text is a sequence of them.
 */
module Lines {
  import opened Wrappers

  predicate IsBreak(c: char, crlf: bool) {
    c == '\n' || (crlf && c == '\r')
  }

  /** UTF-8 bytes of one character, and of a text. */
  function CharSize(c: char): (n: nat)
    ensures 1 <= n <= 4
  {
    if c as int < 0x80 then 1 else if c as int < 0x800 then 2 else if c as int < 0x10000 then 3 else 4
  }

  function Size(text: string): nat {
    if text == "" then 0 else Size(text[..|text| - 1]) + CharSize(text[|text| - 1])
  }

  lemma {:induction false} SizeConcat(a: string, b: string)
    ensures Size(a + b) == Size(a) + Size(b)
  {
    if b == "" {
      assert a + b == a;
    } else {
      assert (a + b)[..|a + b| - 1] == a + b[..|b| - 1];
      SizeConcat(a, b[..|b| - 1]);
    }
  }

  // -------------------------------------------------------------------- reference

  /** The first break at or after a position, or the length of the text. */
  function FirstBreak(text: string, from: nat, crlf: bool): (index: nat)
    requires from <= |text|
    ensures from <= index <= |text|
    ensures forall i :: from <= i < index ==> !IsBreak(text[i], crlf)
    ensures index < |text| ==> IsBreak(text[index], crlf)
    decreases |text| - from
  {
    if from == |text| || IsBreak(text[from], crlf) then from else FirstBreak(text, from + 1, crlf)
  }

  /** How many characters the break at a position takes: CRLF is one break. */
  function BreakLength(text: string, at: nat): nat
    requires at < |text|
  {
    if text[at] == '\r' && at + 1 < |text| && text[at + 1] == '\n' then 2 else 1
  }

  /** The terminated lines of a text, and what follows the last break. */
  function LinesOf(text: string, crlf: bool): (seq<string>, string)
    decreases |text|
  {
    var at := FirstBreak(text, 0, crlf);
    if at == |text| then ([], text)
    else
      var rest := LinesOf(text[at + BreakLength(text, at)..], crlf);
      ([text[..at]] + rest.0, rest.1)
  }

  /** Every line; a last one without a break counts unless it is empty. */
  function AllLines(text: string, crlf: bool): seq<string> {
    var (lines, rest) := LinesOf(text, crlf);
    lines + if rest == "" then [] else [rest]
  }

  /** The lines before the first one over the limit. */
  function Within(lines: seq<string>, limit: nat): seq<string> {
    if lines == [] || Size(lines[0]) > limit then [] else [lines[0]] + Within(lines[1..], limit)
  }

  predicate AnyOver(lines: seq<string>, limit: nat) {
    exists i :: 0 <= i < |lines| && Size(lines[i]) > limit
  }

  // ------------------------------------------------------------ one character at a time

  datatype Reader = Reader(lines: seq<string>, partial: string, skipLF: bool)

  const START := Reader([], "", false)

  function Feed(r: Reader, c: char, crlf: bool): Reader {
    if r.skipLF && c == '\n' then r.(skipLF := false)
    else if IsBreak(c, crlf) then Reader(r.lines + [r.partial], "", c == '\r')
    else Reader(r.lines, r.partial + [c], false)
  }

  function FeedAll(r: Reader, text: string, crlf: bool): Reader {
    if text == "" then r else Feed(FeedAll(r, text[..|text| - 1], crlf), text[|text| - 1], crlf)
  }

  lemma {:induction false} FeedAllConcat(r: Reader, a: string, b: string, crlf: bool)
    ensures FeedAll(r, a + b, crlf) == FeedAll(FeedAll(r, a, crlf), b, crlf)
  {
    if b == "" {
      assert a + b == a;
    } else {
      assert (a + b)[..|a + b| - 1] == a + b[..|b| - 1];
      FeedAllConcat(r, a, b[..|b| - 1], crlf);
    }
  }

  lemma {:induction false} FeedPlain(r: Reader, text: string, crlf: bool)
    requires forall i :: 0 <= i < |text| ==> !IsBreak(text[i], crlf)
    ensures FeedAll(r, text, crlf).lines == r.lines && FeedAll(r, text, crlf).partial == r.partial + text
    ensures text != "" ==> !FeedAll(r, text, crlf).skipLF
    ensures text == "" ==> FeedAll(r, text, crlf) == r
  {
    if text != "" {
      FeedPlain(r, text[..|text| - 1], crlf);
      assert !IsBreak(text[|text| - 1], crlf);
      assert text == text[..|text| - 1] + [text[|text| - 1]];
      assert r.partial + text == r.partial + text[..|text| - 1] + [text[|text| - 1]];
    }
  }

  lemma FeedOne(r: Reader, c: char, text: string, crlf: bool)
    ensures FeedAll(r, [c] + text, crlf) == FeedAll(Feed(r, c, crlf), text, crlf)
  {
    assert [c][..0] == "";
    FeedAllConcat(r, [c], text, crlf);
  }

  lemma FeedLast(r: Reader, text: string, c: char, crlf: bool)
    ensures FeedAll(r, text + [c], crlf) == Feed(FeedAll(r, text, crlf), c, crlf)
  {
    assert (text + [c])[..|text|] == text;
  }

  /** Lines already read stay in front of whatever is read next. */
  lemma {:induction false} FeedKeepsLines(lines: seq<string>, r: Reader, text: string, crlf: bool)
    ensures FeedAll(r.(lines := lines + r.lines), text, crlf) ==
      FeedAll(r, text, crlf).(lines := lines + FeedAll(r, text, crlf).lines)
  {
    if text != "" {
      var shorter := text[..|text| - 1];
      FeedKeepsLines(lines, r, shorter, crlf);
      var t := FeedAll(r, shorter, crlf);
      assert lines + t.lines + [t.partial] == lines + (t.lines + [t.partial]);
    }
  }

  /** A CR that ends the text so far leaves a skip pending. */
  predicate LeavesSkip(text: string, at: nat)
    requires at < |text|
  {
    text[at] == '\r' && BreakLength(text, at) == 1
  }

  lemma PlainThenBreak(plain: string, c: char, rest: string, crlf: bool)
    requires IsBreak(c, crlf) && forall i :: 0 <= i < |plain| ==> !IsBreak(plain[i], crlf)
    ensures FeedAll(START, plain + ([c] + rest), crlf) == FeedAll(Reader([plain], "", c == '\r'), rest, crlf)
  {
    var r := FeedAll(START, plain, crlf);
    FeedAllConcat(START, plain, [c] + rest, crlf);
    FeedPlain(START, plain, crlf);
    FeedOne(r, c, rest, crlf);
    assert START.partial + plain == plain;
    assert START.lines + [plain] == [plain];
    assert Feed(r, c, crlf) == Reader([plain], "", c == '\r');
  }

  lemma BreakReached(text: string, at: nat, crlf: bool)
    requires at == FirstBreak(text, 0, crlf) < |text|
    ensures FeedAll(START, text, crlf) == FeedAll(Reader([text[..at]], "", text[at] == '\r'), text[at + 1..], crlf)
  {
    PlainThenBreak(text[..at], text[at], text[at + 1..], crlf);
    assert text == text[..at] + ([text[at]] + text[at + 1..]);
  }

  /** After the break at `at`, the reader goes on where the reference does. */
  lemma BreakFed(text: string, at: nat, crlf: bool)
    requires at == FirstBreak(text, 0, crlf) < |text|
    ensures FeedAll(START, text, crlf) ==
      FeedAll(Reader([text[..at]], "", LeavesSkip(text, at)), text[at + BreakLength(text, at)..], crlf)
  {
    BreakReached(text, at, crlf);
    if BreakLength(text, at) == 2 {
      assert text[at + 1..] == ['\n'] + text[at + 2..];
      FeedOne(Reader([text[..at]], "", true), '\n', text[at + 2..], crlf);
    }
  }

  /** A pending skip makes no difference to text that does not start with LF, except in the flag itself. */
  lemma {:induction false} SkipIsHarmless(r: Reader, text: string, crlf: bool)
    requires text == "" || text[0] != '\n'
    ensures var a, b := FeedAll(r.(skipLF := true), text, crlf), FeedAll(r.(skipLF := false), text, crlf);
      a.lines == b.lines && a.partial == b.partial && (text != "" ==> a == b)
  {
    if text != "" {
      var shorter := text[..|text| - 1];
      if shorter == "" {
        assert FeedAll(r, shorter, crlf) == r;
      } else {
        assert shorter[0] == text[0];
        SkipIsHarmless(r, shorter, crlf);
      }
    }
  }

  /** Past the first line, the reader goes on as from the start. */
  lemma FirstLineFed(text: string, at: nat, crlf: bool)
    requires at == FirstBreak(text, 0, crlf) < |text|
    ensures var r, t := FeedAll(START, text[at + BreakLength(text, at)..], crlf), FeedAll(START, text, crlf);
      t.lines == [text[..at]] + r.lines && t.partial == r.partial
  {
    var rest := text[at + BreakLength(text, at)..];
    BreakFed(text, at, crlf);
    if LeavesSkip(text, at) { SkipIsHarmless(Reader([text[..at]], "", true), rest, crlf); }
    FeedKeepsLines([text[..at]], START, rest, crlf);
    assert [text[..at]] + START.lines == [text[..at]];
  }

  /** Reading character by character gives the lines of the whole text. */
  lemma {:induction false} FeedIsLinesOf(text: string, crlf: bool)
    ensures var r := FeedAll(START, text, crlf); (r.lines, r.partial) == LinesOf(text, crlf)
    decreases |text|
  {
    var at := FirstBreak(text, 0, crlf);
    if at == |text| {
      FeedPlain(START, text, crlf);
      assert START.partial + text == text;
    } else {
      FirstLineFed(text, at, crlf);
      FeedIsLinesOf(text[at + BreakLength(text, at)..], crlf);
    }
  }

  // -------------------------------------------------------------------- the limit

  lemma FeedGrows(r: Reader, c: char, crlf: bool)
    ensures var t := Feed(r, c, crlf);
      || (t.lines == r.lines && r.partial <= t.partial)
      || (t.lines == r.lines + [r.partial] && t.partial == "")
  {
  }

  /** The line being read is a prefix of the line it becomes. */
  lemma {:induction false} FeedAllGrows(r: Reader, text: string, crlf: bool)
    ensures var t := FeedAll(r, text, crlf);
      && r.lines <= t.lines
      && (if |t.lines| == |r.lines| then r.partial <= t.partial else r.partial <= t.lines[|r.lines|])
  {
    if text != "" {
      FeedAllGrows(r, text[..|text| - 1], crlf);
      FeedGrows(FeedAll(r, text[..|text| - 1], crlf), text[|text| - 1], crlf);
    }
  }

  lemma PrefixSize(a: string, b: string)
    requires a <= b
    ensures Size(a) <= Size(b)
  {
    assert b == a + b[|a|..];
    SizeConcat(a, b[|a|..]);
  }

  lemma {:induction false} WithinPrefix(lines: seq<string>, k: nat, limit: nat)
    requires k < |lines| && Size(lines[k]) > limit && forall i :: 0 <= i < k ==> Size(lines[i]) <= limit
    ensures Within(lines, limit) == lines[..k] && AnyOver(lines, limit)
  {
    if k > 0 {
      assert Size(lines[0]) <= limit;
      assert forall i :: 0 <= i < k - 1 ==> lines[1..][i] == lines[i + 1];
      WithinPrefix(lines[1..], k - 1, limit);
      assert lines[..k] == [lines[0]] + lines[1..][..k - 1];
    }
  }

  lemma {:induction false} WithinAll(lines: seq<string>, limit: nat)
    requires forall i :: 0 <= i < |lines| ==> Size(lines[i]) <= limit
    ensures Within(lines, limit) == lines && !AnyOver(lines, limit)
  {
    if lines != [] { WithinAll(lines[1..], limit); }
  }

  ghost predicate AllWithin(lines: seq<string>, limit: nat) {
    forall i :: 0 <= i < |lines| ==> Size(lines[i]) <= limit
  }

  /** Once the line being read is over the limit, whatever follows only confirms it. */
  lemma OverStays(before: string, after: string, crlf: bool, limit: nat)
    requires var r := FeedAll(START, before, crlf); AllWithin(r.lines, limit) && Size(r.partial) > limit
    ensures var lines := AllLines(before + after, crlf);
      Within(lines, limit) == FeedAll(START, before, crlf).lines && AnyOver(lines, limit)
  {
    var r, t := FeedAll(START, before, crlf), FeedAll(START, before + after, crlf);
    FeedAllConcat(START, before, after, crlf);
    FeedAllGrows(r, after, crlf);
    FeedIsLinesOf(before + after, crlf);
    var lines := AllLines(before + after, crlf);
    var k := |r.lines|;
    if |t.lines| == k {
      PrefixSize(r.partial, t.partial);
      assert t.partial != "";
      assert lines[k] == t.partial;
    } else {
      PrefixSize(r.partial, t.lines[k]);
      assert lines[k] == t.lines[k];
    }
    assert lines[..k] == r.lines;
    forall i | 0 <= i < k ensures Size(lines[i]) <= limit {
      assert lines[i] == r.lines[i];
    }
    WithinPrefix(lines, k, limit);
  }

  /** When nothing was over the limit, the lines read are all the lines. */
  lemma NothingOver(text: string, crlf: bool, limit: nat)
    requires var r := FeedAll(START, text, crlf); AllWithin(r.lines, limit) && Size(r.partial) <= limit
    ensures var r := FeedAll(START, text, crlf);
      var lines := AllLines(text, crlf);
      lines == r.lines + (if r.partial == "" then [] else [r.partial]) && Within(lines, limit) == lines && !AnyOver(lines, limit)
  {
    var r, lines := FeedAll(START, text, crlf), AllLines(text, crlf);
    FeedIsLinesOf(text, crlf);
    assert lines == r.lines + if r.partial == "" then [] else [r.partial];
    forall i | 0 <= i < |lines| ensures Size(lines[i]) <= limit {
      if i < |r.lines| { assert lines[i] == r.lines[i]; }
    }
    WithinAll(lines, limit);
  }
}
