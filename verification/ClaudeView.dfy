/**
 The published projection under its byte budget, and clipping to a UTF-8 size. An item stands
 for the size of its serialized JSON; the serialized view is a fixed part, the literal of
 `truncated`, and two lists of items separated by commas.
 */
module ClaudeView {
  import opened Wrappers
  import opened Lines
  import ClaudeState

  const VIEW_MAX_BYTES: nat := ClaudeState.VIEW_MAX_BYTES

  // -------------------------------------------------------------------- eviction

  datatype Item = Item(id: nat, bytes: nat)

  datatype View = View(fixed: nat, truncated: bool, inputs: seq<Item>, entries: seq<Item>)

  function Sum(items: seq<Item>): nat {
    if items == [] then 0 else items[0].bytes + Sum(items[1..])
  }

  /** A JSON list without its brackets: the items and the commas between them. */
  function ListBytes(items: seq<Item>): nat {
    Sum(items) + if items == [] then 0 else |items| - 1
  }

  function Serialized(v: View): nat {
    v.fixed + (if v.truncated then 4 else 5) + ListBytes(v.inputs) + ListBytes(v.entries)
  }

  function Newest(items: seq<Item>, count: nat): (last: seq<Item>)
    ensures |last| == if count < |items| then count else |items|
  {
    if count < |items| then items[|items| - count..] else items
  }

  /** The view with `count` items: entries give way before inputs, older ones before newer ones. */
  function Keeping(v: View, count: nat): View {
    View(v.fixed, v.truncated || count < |v.inputs| + |v.entries|,
         Newest(v.inputs, count), if count <= |v.inputs| then [] else Newest(v.entries, count - |v.inputs|))
  }

  lemma KeepingAll(v: View, count: nat)
    requires count == |v.inputs| + |v.entries|
    ensures Keeping(v, count) == v
  {
  }

  /** One turn of the eviction: the oldest entry goes, or else the oldest input. */
  function Evicted(v: View): View
    requires v.entries != [] || v.inputs != []
  {
    if v.entries != [] then View(v.fixed, true, v.inputs, v.entries[1..]) else View(v.fixed, true, v.inputs[1..], [])
  }

  lemma NewestNext(items: seq<Item>, count: nat)
    requires 0 < count <= |items|
    ensures Newest(items, count) != [] && Newest(items, count - 1) == Newest(items, count)[1..]
  {
  }

  lemma EvictOne(v: View, count: nat)
    requires 0 < count <= Items(v)
    ensures Items(Keeping(v, count)) > 0 && Keeping(v, count - 1) == Evicted(Keeping(v, count))
  {
    if count > |v.inputs| {
      NewestNext(v.entries, count - |v.inputs|);
      assert Newest(v.inputs, count) == v.inputs == Newest(v.inputs, count - 1);
    } else {
      NewestNext(v.inputs, count);
    }
  }

  lemma ListShift(items: seq<Item>)
    requires items != []
    ensures ListBytes(items) == ListBytes(items[1..]) + items[0].bytes + if |items| > 1 then 1 else 0
  {
  }

  function Items(v: View): nat {
    |v.inputs| + |v.entries|
  }

  predicate Fits(v: View) {
    Serialized(v) <= VIEW_MAX_BYTES
  }

  function Largest(fits: nat -> bool, bound: nat): Option<nat> {
    if fits(bound) then Some(bound) else if bound == 0 then None else Largest(fits, bound - 1)
  }

  lemma {:induction false} LargestIsLargest(fits: nat -> bool, bound: nat)
    ensures var count := Largest(fits, bound);
      && (count.Some? ==> count.value <= bound && fits(count.value))
      && forall k: nat :: k <= bound && (count.Some? ==> count.value < k) ==> !fits(k)
  {
    if !fits(bound) && bound > 0 { LargestIsLargest(fits, bound - 1); }
  }

  function FitsWith(whole: View): nat -> bool {
    (count: nat) => Fits(Keeping(whole, count))
  }

  /** The largest number of items, up to a bound, with which the view fits. */
  function FitCount(whole: View, bound: nat): Option<nat> {
    Largest(FitsWith(whole), bound)
  }

  lemma FitCountIsLargest(whole: View, bound: nat, k: nat)
    ensures var count := FitCount(whole, bound);
      && (count.Some? ==> count.value <= bound && Fits(Keeping(whole, count.value)))
      && (k <= bound && (count.Some? ==> count.value < k) ==> !Fits(Keeping(whole, k)))
  {
    LargestIsLargest(FitsWith(whole), bound);
    assert FitsWith(whole)(k) == Fits(Keeping(whole, k));
  }

  lemma EvictedBytes(v: View)
    requires Items(v) > 0
    ensures var items := if v.entries != [] then v.entries else v.inputs;
      items != [] && Serialized(v) ==
        Serialized(Evicted(v)) + (if v.truncated then 0 else 1) + items[0].bytes + if |items| > 1 then 1 else 0
  {
    if v.entries != [] { ListShift(v.entries); } else { ListShift(v.inputs); }
  }

  predicate IsSuffix(last: seq<Item>, items: seq<Item>) {
    |last| <= |items| && last == items[|items| - |last|..]
  }

  lemma NewestIsSuffix(items: seq<Item>, count: nat)
    ensures IsSuffix(Newest(items, count), items)
  {
    if count >= |items| { assert items[0..] == items; }
  }

  /** What is kept is the newest end of both lists, and no entry is kept when an input is evicted. */
  lemma KeepsNewest(whole: View, count: nat)
    requires count <= Items(whole)
    ensures var v := Keeping(whole, count);
      && Items(v) == count && IsSuffix(v.inputs, whole.inputs) && IsSuffix(v.entries, whole.entries)
      && (|v.inputs| < |whole.inputs| ==> v.entries == [])
      && (v.truncated <==> whole.truncated || |v.inputs| < |whole.inputs| || |v.entries| < |whole.entries|)
  {
    var v := Keeping(whole, count);
    NewestIsSuffix(whole.inputs, count);
    assert IsSuffix(v.inputs, whole.inputs);
    if count > |whole.inputs| {
      NewestIsSuffix(whole.entries, count - |whole.inputs|);
    }
  }

  lemma FitCountNext(whole: View, count: nat)
    requires count > 0 && !Fits(Keeping(whole, count))
    ensures FitCount(whole, count) == FitCount(whole, count - 1)
  {
  }

  /** The bytes that one turn of the eviction subtracts. */
  function Subtracted(v: View): nat
    requires Items(v) > 0
  {
    var items := if v.entries != [] then v.entries else v.inputs;
    (if v.truncated then 0 else 1) + items[0].bytes + if |items| > 1 then 1 else 0
  }

  /** The loop has evicted down to `count` items, and all the larger views do not fit. */
  ghost predicate Reached(whole: View, count: nat, v: View, size: nat) {
    && count <= Items(whole) && v == Keeping(whole, count) && Items(v) == count && size == Serialized(v)
    && FitCount(whole, count) == FitCount(whole, Items(whole))
  }

  lemma Begins(whole: View)
    ensures Reached(whole, Items(whole), whole, Serialized(whole))
  {
    KeepingAll(whole, Items(whole));
  }

  lemma Turn(whole: View, count: nat, v: View, size: nat)
    requires Reached(whole, count, v, size) && size > VIEW_MAX_BYTES && count > 0
    ensures Subtracted(v) <= size && Reached(whole, count - 1, Evicted(v), size - Subtracted(v))
  {
    EvictOne(whole, count);
    EvictedBytes(v);
    FitCountNext(whole, count);
  }

  lemma Ends(whole: View, count: nat, v: View, size: nat)
    requires Reached(whole, count, v, size) && (size <= VIEW_MAX_BYTES || count == 0)
    ensures FitCount(whole, Items(whole)) == if size <= VIEW_MAX_BYTES then Some(count) else None
  {
  }

  /**
   `claudeView` from its first serialization on. The subtracted size equals the serialized size
   at every iteration; the result keeps as many items as fit, and the call fails exactly when
   not even the view without items does.
   */
  method FitView(whole: View) returns (view: Option<View>)
    ensures var count := FitCount(whole, Items(whole));
      view == if count.None? then None else Some(Keeping(whole, count.value))
  {
    var truncated, inputs, entries := whole.truncated, whole.inputs, whole.entries;
    var size: nat := Serialized(whole);
    ghost var count, v := Items(whole), whole;
    Begins(whole);
    while size > VIEW_MAX_BYTES
      invariant Reached(whole, count, v, size)
      invariant v == View(whole.fixed, truncated, inputs, entries)
      decreases count
    {
      if |inputs| + |entries| == 0 {
        Ends(whole, count, v, size);
        return None;
      }
      Turn(whole, count, v, size);
      // Flipping the literal saves a byte; the evicted item takes its comma with it.
      var items := if |entries| > 0 then entries else inputs;
      size := size - ((if truncated then 0 else 1) + items[0].bytes + if |items| > 1 then 1 else 0);
      truncated := true;
      if |entries| > 0 { entries := entries[1..]; } else { inputs := inputs[1..]; }
      v, count := Evicted(v), count - 1;
    }
    Ends(whole, count, v, size);
    view := Some(View(whole.fixed, truncated, inputs, entries));
  }

  // -------------------------------------------------------------------- clipping

  /** The longest prefix, in whole characters, of at most so many bytes. */
  function Clip(text: string, limit: nat): (clipped: string)
    ensures clipped <= text && Size(clipped) <= limit
    ensures Size(text) <= limit ==> clipped == text
  {
    if Size(text) <= limit then text else Clip(text[..|text| - 1], limit)
  }

  lemma {:induction false} ClipIsLongest(text: string, limit: nat, k: nat)
    requires k <= |text| && Size(text[..k]) <= limit
    ensures k <= |Clip(text, limit)|
  {
    if Size(text) > limit {
      assert text[..|text|] == text;
      assert text[..|text| - 1][..k] == text[..k];
      ClipIsLongest(text[..|text| - 1], limit, k);
    }
  }

  lemma PrefixLength(text: string, limit: nat, k: nat)
    requires k <= |text| && Size(text[..k]) <= limit && (k < |text| ==> Size(text[..k + 1]) > limit)
    ensures Clip(text, limit) == text[..k]
  {
    ClipIsLongest(text, limit, k);
    var n := |Clip(text, limit)|;
    assert Clip(text, limit) == text[..n];
    if n > k {
      assert text[..k + 1] <= text[..n];
      PrefixSize(text[..k + 1], text[..n]);
    }
  }

  method ClipText(text: string, limit: nat) returns (clipped: string)
    ensures clipped == Clip(text, limit)
  {
    if Size(text) <= limit { return text; }
    var size, i := 0, 0;
    assert text[..0] == "";
    while i < |text|
      invariant 0 <= i <= |text|
      invariant size == Size(text[..i]) <= limit
    {
      var n := CharSize(text[i]);
      assert text[..i + 1][..i] == text[..i];
      if size + n > limit { break; }
      size := size + n;
      i := i + 1;
    }
    PrefixLength(text, limit, i);
    clipped := text[..i];
  }

  /** Text that streams in is clipped after every append. */
  function ClipAppend(a: string, b: string, limit: nat): string {
    Clip(Clip(a, limit) + b, limit)
  }

  lemma ClipOfLonger(a: string, b: string, limit: nat)
    requires Size(a) > limit
    ensures Clip(a + b, limit) == Clip(a, limit)
  {
    var k := |Clip(a, limit)|;
    assert Clip(a, limit) == a[..k];
    assert k < |a| by { assert a[..|a|] == a; }
    assert Size(a[..k + 1]) > limit by {
      if Size(a[..k + 1]) <= limit { ClipIsLongest(a, limit, k + 1); }
    }
    assert (a + b)[..k] == a[..k] && (a + b)[..k + 1] == a[..k + 1];
    PrefixLength(a + b, limit, k);
  }

  /** What follows `a` does not show through the clip: nothing was cut, nothing follows, or the next character does not fit either. */
  predicate NothingShows(a: string, b: string, limit: nat) {
    Size(a) <= limit || b == "" || Size(Clip(a, limit)) + CharSize(b[0]) > limit
  }

  lemma ClipAppendExactly(a: string, b: string, limit: nat)
    ensures ClipAppend(a, b, limit) == Clip(a + b, limit) <==> NothingShows(a, b, limit)
  {
    if Size(a) > limit {
      var c := Clip(a, limit);
      var t := c + b;
      ClipOfLonger(a, b, limit);
      if b == "" {
        assert t == c;
      } else {
        assert t[..|c|] == c && t[..|c| + 1] == c + [b[0]];
        assert (c + [b[0]])[..|c|] == c;
        if Size(c) + CharSize(b[0]) > limit { PrefixLength(t, limit, |c|); } else { ClipIsLongest(t, limit, |c| + 1); }
      }
    }
  }

  /** A character that did not fit can make room for a later, smaller one. */
  lemma StreamedClipCanDiffer()
    ensures ClipAppend("aé", "b", 2) == "ab" && Clip("aé" + "b", 2) == "a"
  {
    assert "aé"[..1] == "a" && "a"[..0] == "" && Size("a") == 1;
    assert Size("aé") == 3;
    assert Clip("aé", 2) == "a";
    assert "ab"[..1] == "a" && Size("ab") == 2;
    assert "a" + "b" == "ab";
    ClipOfLonger("aé", "b", 2);
  }

  function Appended(deltas: seq<string>): string {
    if deltas == [] then "" else Appended(deltas[..|deltas| - 1]) + deltas[|deltas| - 1]
  }

  function Streamed(deltas: seq<string>, limit: nat): string {
    if deltas == [] then "" else ClipAppend(Streamed(deltas[..|deltas| - 1], limit), deltas[|deltas| - 1], limit)
  }

  /** Streamed text that fits is never clipped, and the retained text never exceeds its bound. */
  lemma {:induction false} StreamedTextIsKept(deltas: seq<string>, limit: nat)
    ensures Size(Streamed(deltas, limit)) <= limit
    ensures Size(Appended(deltas)) <= limit ==> Streamed(deltas, limit) == Appended(deltas)
  {
    if deltas != [] {
      var shorter := deltas[..|deltas| - 1];
      StreamedTextIsKept(shorter, limit);
      SizeConcat(Appended(shorter), deltas[|deltas| - 1]);
    }
  }

  /** A prefix that fits stays in the clip. */
  lemma ClipKeepsPrefix(a: string, b: string, limit: nat)
    requires Size(a) <= limit
    ensures a <= Clip(a + b, limit)
  {
    assert (a + b)[..|a|] == a;
    ClipIsLongest(a + b, limit, |a|);
  }

  lemma StreamedNext(deltas: seq<string>, limit: nat)
    requires deltas != []
    ensures var shorter, last := deltas[..|deltas| - 1], deltas[|deltas| - 1];
      Streamed(deltas, limit) == Clip(Streamed(shorter, limit) + last, limit) && Streamed(shorter, limit) <= Streamed(deltas, limit)
  {
    var shorter := deltas[..|deltas| - 1];
    StreamedTextIsKept(shorter, limit);
    ClipKeepsPrefix(Streamed(shorter, limit), deltas[|deltas| - 1], limit);
  }

  /** The clip of the whole is a prefix of what streaming retains; once they differ, they differ for good. */
  lemma {:induction false} StreamedIsNoShorter(deltas: seq<string>, limit: nat)
    ensures Clip(Appended(deltas), limit) <= Streamed(deltas, limit)
    ensures deltas != [] ==>
      var shorter, last := deltas[..|deltas| - 1], deltas[|deltas| - 1];
      Streamed(deltas, limit) == Clip(Appended(deltas), limit) <==>
        Streamed(shorter, limit) == Clip(Appended(shorter), limit) && NothingShows(Appended(shorter), last, limit)
  {
    if deltas != [] {
      var shorter, last := deltas[..|deltas| - 1], deltas[|deltas| - 1];
      StreamedIsNoShorter(shorter, limit);
      StreamedNext(deltas, limit);
      StreamedTextIsKept(shorter, limit);
      ClipAppendExactly(Appended(shorter), last, limit);
      if Size(Appended(shorter)) > limit { ClipOfLonger(Appended(shorter), last, limit); }
    }
  }

  predicate NothingShowsAt(deltas: seq<string>, k: nat, limit: nat)
    requires k < |deltas|
  {
    NothingShows(Appended(deltas[..k]), deltas[k], limit)
  }

  lemma ShowsInPrefix(deltas: seq<string>, n: nat, k: nat, limit: nat)
    requires k < n <= |deltas|
    ensures NothingShowsAt(deltas[..n], k, limit) == NothingShowsAt(deltas, k, limit)
  {
    assert deltas[..n][..k] == deltas[..k];
  }

  /** However many deltas stream in, clipping after each of them gives one clip of the whole exactly when none of them shows. */
  lemma {:induction false} StreamedClipExactly(deltas: seq<string>, limit: nat)
    ensures Streamed(deltas, limit) == Clip(Appended(deltas), limit) <==>
      forall k :: 0 <= k < |deltas| ==> NothingShowsAt(deltas, k, limit)
  {
    if deltas != [] {
      var last := |deltas| - 1;
      StreamedClipExactly(deltas[..last], limit);
      StreamedIsNoShorter(deltas, limit);
      forall k | 0 <= k < last ensures NothingShowsAt(deltas[..last], k, limit) == NothingShowsAt(deltas, k, limit) {
        ShowsInPrefix(deltas, last, k, limit);
      }
      assert (forall k :: 0 <= k < |deltas| ==> NothingShowsAt(deltas, k, limit)) <==>
        (forall k :: 0 <= k < last ==> NothingShowsAt(deltas[..last], k, limit)) && NothingShowsAt(deltas, last, limit);
    }
  }
}
