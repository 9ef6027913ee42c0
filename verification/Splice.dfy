/**
 Source edits by slicing, from the highest start to the lowest, against the replacement of all
 spans at once.
 */
module Splice {
  datatype Edit = Edit(start: nat, end: nat, text: string)

  /** The spans lie inside the text, and no two of them overlap or start together. */
  ghost predicate Disjoint(edits: seq<Edit>, length: nat) {
    && (forall e :: e in edits ==> e.start <= e.end <= length)
    && (forall i, j :: 0 <= i < j < |edits| ==> Apart(edits[i], edits[j]))
  }

  predicate Apart(a: Edit, b: Edit) {
    a.start != b.start && (a.end <= b.start || b.end <= a.start)
  }

  ghost predicate Descending(edits: seq<Edit>) {
    forall i, j :: 0 <= i < j < |edits| ==> edits[j].start < edits[i].start && edits[j].end <= edits[i].start
  }

  // -------------------------------------------------------------------- reference

  /** All spans replaced at once; the edits are in text order and start at or after `from`. */
  function Replaced(text: string, from: nat, edits: seq<Edit>): string
    requires from <= |text|
    decreases |edits|
  {
    if edits == [] then text[from..]
    else
      var e := edits[0];
      if from <= e.start <= e.end <= |text| then text[from..e.start] + e.text + Replaced(text, e.end, edits[1..]) else text[from..]
  }

  function Reversed(edits: seq<Edit>): (r: seq<Edit>)
    ensures |r| == |edits|
  {
    if edits == [] then [] else [edits[|edits| - 1]] + Reversed(edits[..|edits| - 1])
  }

  /** How far the text at a position outside every span moves. */
  function Shift(edits: seq<Edit>, position: nat): int {
    if edits == [] then 0
    else (if edits[0].end <= position then |edits[0].text| - (edits[0].end - edits[0].start) else 0) + Shift(edits[1..], position)
  }

  predicate Outside(edits: seq<Edit>, position: nat) {
    forall i :: 0 <= i < |edits| ==> position < edits[i].start || edits[i].end <= position
  }

  // ---------------------------------------------------------------------- sorting

  function Insert(e: Edit, sorted: seq<Edit>): (r: seq<Edit>)
    ensures multiset(r) == multiset(sorted) + multiset{e}
  {
    if sorted == [] then [e]
    else if sorted[0].start < e.start then [e] + sorted
    else
      assert sorted == [sorted[0]] + sorted[1..];
      [sorted[0]] + Insert(e, sorted[1..])
  }

  /** `sort` by falling start. */
  function Sorted(edits: seq<Edit>): (r: seq<Edit>)
    ensures multiset(r) == multiset(edits)
  {
    if edits == [] then []
    else
      assert edits == edits[..|edits| - 1] + [edits[|edits| - 1]];
      Insert(edits[|edits| - 1], Sorted(edits[..|edits| - 1]))
  }

  lemma InsertMembers(e: Edit, sorted: seq<Edit>)
    ensures forall x :: x in Insert(e, sorted) <==> x in sorted || x == e
  {
    assert forall x :: x in Insert(e, sorted) <==> x in multiset(sorted) + multiset{e};
  }

  lemma ConsDescends(head: Edit, tail: seq<Edit>)
    requires Descending(tail) && forall x :: x in tail ==> x.start < head.start && x.end <= head.start
    ensures Descending([head] + tail)
  {
  }

  lemma DescendingTail(sorted: seq<Edit>)
    requires Descending(sorted) && sorted != []
    ensures Descending(sorted[1..]) && forall x :: x in sorted[1..] ==> x in sorted && x.start < sorted[0].start && x.end <= sorted[0].start
  {
  }

  lemma {:induction false} InsertDescends(e: Edit, sorted: seq<Edit>)
    requires Descending(sorted) && (forall x :: x in sorted ==> Apart(x, e) && x.start <= x.end) && e.start <= e.end
    ensures Descending(Insert(e, sorted))
  {
    if sorted != [] {
      var head, rest := sorted[0], sorted[1..];
      assert head in sorted && sorted == [head] + rest;
      DescendingTail(sorted);
      if head.start < e.start {
        ConsDescends(e, sorted);
      } else {
        InsertDescends(e, rest);
        InsertMembers(e, rest);
        ConsDescends(head, Insert(e, rest));
      }
    }
  }

  lemma {:induction false} SortedDescends(edits: seq<Edit>, length: nat)
    requires Disjoint(edits, length)
    ensures Descending(Sorted(edits)) && forall e :: e in Sorted(edits) <==> e in edits
  {
    if edits != [] {
      var shorter, last := edits[..|edits| - 1], edits[|edits| - 1];
      SortedDescends(shorter, length);
      forall x | x in Sorted(shorter) ensures Apart(x, last) && x.start <= x.end {
        assert x in shorter;
        var i :| 0 <= i < |shorter| && shorter[i] == x;
        assert edits[i] == x && x in edits;
      }
      assert last in edits;
      InsertDescends(last, Sorted(shorter));
    }
    assert forall e :: e in Sorted(edits) <==> e in multiset(Sorted(edits));
    assert forall e :: e in edits <==> e in multiset(edits);
  }

  lemma SameMembers(a: seq<Edit>, b: seq<Edit>)
    requires multiset(a) == multiset(b)
    ensures forall e :: e in a <==> e in b
  {
    assert forall e :: e in a <==> e in multiset(a);
    assert forall e :: e in b <==> e in multiset(b);
  }

  lemma SameHead(a: seq<Edit>, b: seq<Edit>)
    requires Descending(a) && Descending(b) && a != [] && b != [] && a[0] in b && b[0] in a
    ensures a[0] == b[0]
  {
  }

  lemma SameTail(a: seq<Edit>, b: seq<Edit>)
    requires multiset(a) == multiset(b) && a != [] && b != [] && a[0] == b[0]
    ensures multiset(a[1..]) == multiset(b[1..])
  {
    assert a == [a[0]] + a[1..] && b == [b[0]] + b[1..];
    assert multiset(a[1..]) == multiset(a) - multiset{a[0]};
    assert multiset(b[1..]) == multiset(b) - multiset{b[0]};
  }

  lemma {:induction false} DescendingIsUnique(a: seq<Edit>, b: seq<Edit>)
    requires Descending(a) && Descending(b) && multiset(a) == multiset(b)
    ensures a == b
  {
    assert |a| == |multiset(a)| == |multiset(b)| == |b|;
    if a != [] {
      SameMembers(a, b);
      assert a[0] in a && b[0] in b;
      SameHead(a, b);
      SameTail(a, b);
      DescendingIsUnique(a[1..], b[1..]);
    }
  }

  // ------------------------------------------------------------------------ loop

  ghost predicate Ascending(edits: seq<Edit>, from: nat, length: nat) {
    && (forall i :: 0 <= i < |edits| ==> from <= edits[i].start <= edits[i].end <= length)
    && (forall i, j :: 0 <= i < j < |edits| ==> edits[i].end <= edits[j].start)
  }

  lemma ReplacedFrom(text: string, from: nat, to: nat, edits: seq<Edit>)
    requires from <= to <= |text| && Ascending(edits, to, |text|)
    ensures Replaced(text, from, edits) == text[from..to] + Replaced(text, to, edits)
  {
    if edits == [] {
      assert text[from..] == text[from..to] + text[to..];
    } else {
      var e := edits[0];
      assert text[from..e.start] == text[from..to] + text[to..e.start];
      assert text[from..e.start] + e.text + Replaced(text, e.end, edits[1..])
        == text[from..to] + (text[to..e.start] + e.text + Replaced(text, e.end, edits[1..]));
    }
  }

  lemma {:induction false} ReversedAscends(edits: seq<Edit>, length: nat)
    requires Descending(edits) && forall e :: e in edits ==> e.start <= e.end <= length
    ensures Ascending(Reversed(edits), if edits == [] then 0 else edits[|edits| - 1].start, length)
  {
    if edits != [] {
      var shorter, last := edits[..|edits| - 1], edits[|edits| - 1];
      ReversedAscends(shorter, length);
      assert last in edits;
      var r := Reversed(shorter);
      forall i | 0 <= i < |r| ensures last.end <= r[i].start {
        if shorter != [] { assert shorter[|shorter| - 1].start <= r[i].start; }
      }
    }
  }

  /** Slicing in one edit that lies in front of all those already made. */
  lemma SpliceInFront(text: string, e: Edit, done: seq<Edit>)
    requires e.start <= e.end <= |text| && Ascending(done, e.end, |text|)
    ensures var before := Replaced(text, 0, done);
      && e.end <= |before|
      && before[..e.start] + e.text + before[e.end..] == Replaced(text, 0, [e] + done)
  {
    ReplacedFrom(text, 0, e.end, done);
    var before := Replaced(text, 0, done);
    assert before == text[..e.end] + Replaced(text, e.end, done);
    assert before[..e.start] == text[0..e.start];
    assert before[e.end..] == Replaced(text, e.end, done);
    assert ([e] + done)[1..] == done;
  }

  lemma DoneAscends(edits: seq<Edit>, k: nat, length: nat)
    requires k < |edits| && Descending(edits) && forall e :: e in edits ==> e.start <= e.end <= length
    ensures Ascending(Reversed(edits[..k]), edits[k].end, length)
  {
    assert forall e :: e in edits[..k] ==> e in edits;
    ReversedAscends(edits[..k], length);
    if k > 0 { assert edits[k].end <= edits[k - 1].start; }
  }

  lemma SpliceOneMore(text: string, edits: seq<Edit>, k: nat)
    requires k < |edits| && Descending(edits) && forall e :: e in edits ==> e.start <= e.end <= |text|
    ensures var e, before := edits[k], Replaced(text, 0, Reversed(edits[..k]));
      && e.end <= |before|
      && before[..e.start] + e.text + before[e.end..] == Replaced(text, 0, Reversed(edits[..k + 1]))
  {
    assert edits[k] in edits;
    DoneAscends(edits, k, |text|);
    SpliceInFront(text, edits[k], Reversed(edits[..k]));
    assert edits[..k + 1][..k] == edits[..k];
  }

  /** The loop of both callers: sort by falling start, then slice each edit in. */
  method Apply(text: string, edits: seq<Edit>) returns (rewritten: string)
    requires Disjoint(edits, |text|)
    ensures rewritten == Replaced(text, 0, Reversed(Sorted(edits)))
  {
    var sorted := Sorted(edits);
    SortedDescends(edits, |text|);
    rewritten := text;
    assert sorted[..0] == [] && text == text[0..];
    for k := 0 to |sorted|
      invariant rewritten == Replaced(text, 0, Reversed(sorted[..k]))
    {
      SpliceOneMore(text, sorted, k);
      rewritten := rewritten[..sorted[k].start] + sorted[k].text + rewritten[sorted[k].end..];
    }
    assert sorted[..|sorted|] == sorted;
  }

  // ------------------------------------------------------------ main theorems

  /** The result does not depend on the order in which the edits were collected. */
  lemma OrderIsIrrelevant(text: string, a: seq<Edit>, b: seq<Edit>)
    requires Disjoint(a, |text|) && Disjoint(b, |text|) && multiset(a) == multiset(b)
    ensures Replaced(text, 0, Reversed(Sorted(a))) == Replaced(text, 0, Reversed(Sorted(b)))
  {
    SortedDescends(a, |text|);
    SortedDescends(b, |text|);
    DescendingIsUnique(Sorted(a), Sorted(b));
  }

  lemma {:induction false} ShiftBefore(edits: seq<Edit>, from: nat, length: nat, position: nat)
    requires Ascending(edits, from, length) && position < from
    ensures Shift(edits, position) == 0
    decreases |edits|
  {
    if edits != [] {
      assert edits[1..] == [] || edits[1..][0] == edits[1];
      ShiftBefore(edits[1..], from, length, position);
    }
  }

  lemma AscendingTail(edits: seq<Edit>, from: nat, length: nat)
    requires Ascending(edits, from, length) && edits != []
    ensures Ascending(edits[1..], edits[0].end, length)
  {
    var rest := edits[1..];
    forall i | 0 <= i < |rest| ensures edits[0].end <= rest[i].start <= rest[i].end <= length {
      assert rest[i] == edits[i + 1];
    }
  }

  lemma OutsideTail(edits: seq<Edit>, position: nat)
    requires Outside(edits, position) && edits != []
    ensures Outside(edits[1..], position)
  {
    var rest := edits[1..];
    forall i | 0 <= i < |rest| ensures position < rest[i].start || rest[i].end <= position {
      assert rest[i] == edits[i + 1];
    }
  }

  /** Every character outside the edited spans is kept, moved by the edits before it. */
  lemma {:induction false} OutsideIsKept(text: string, from: nat, edits: seq<Edit>, position: nat)
    requires from <= position < |text| && Ascending(edits, from, |text|) && Outside(edits, position)
    ensures var at := position - from + Shift(edits, position);
      0 <= at < |Replaced(text, from, edits)| && Replaced(text, from, edits)[at] == text[position]
    decreases |edits|
  {
    if edits != [] {
      var e, rest := edits[0], edits[1..];
      AscendingTail(edits, from, |text|);
      if e.end <= position {
        OutsideTail(edits, position);
        OutsideIsKept(text, e.end, rest, position);
      } else {
        ShiftBefore(rest, e.end, |text|, position);
      }
    }
  }

  lemma InTail(head: string, tail: string, at: nat, count: nat)
    requires at + count <= |tail|
    ensures (head + tail)[|head| + at..|head| + at + count] == tail[at..at + count]
  {
  }

  /** Where the text of edit `k` lands. */
  function Place(edits: seq<Edit>, from: nat, k: nat): int
    requires k < |edits|
  {
    edits[k].start - from + Shift(edits[..k], edits[k].start)
  }

  lemma PlaceInRest(edits: seq<Edit>, from: nat, length: nat, k: nat)
    requires Ascending(edits, from, length) && 0 < k < |edits|
    ensures Place(edits, from, k) == (edits[0].start - from) + |edits[0].text| + Place(edits[1..], edits[0].end, k - 1)
  {
    assert edits[..k][1..] == edits[1..][..k - 1];
  }

  /** Each replacement text stands where its span was, moved by the edits before it. */
  lemma {:induction false} TextsAreInPlace(text: string, from: nat, edits: seq<Edit>, k: nat)
    requires from <= |text| && Ascending(edits, from, |text|) && k < |edits|
    ensures 0 <= Place(edits, from, k) && Place(edits, from, k) + |edits[k].text| <= |Replaced(text, from, edits)|
    ensures Replaced(text, from, edits)[Place(edits, from, k)..Place(edits, from, k) + |edits[k].text|] == edits[k].text
    decreases |edits|
  {
    var e, rest := edits[0], edits[1..];
    if k == 0 {
      assert edits[..0] == [];
    } else {
      AscendingTail(edits, from, |text|);
      TextsAreInPlace(text, e.end, rest, k - 1);
      PlaceInRest(edits, from, |text|, k);
      InTail(text[from..e.start] + e.text, Replaced(text, e.end, rest), Place(rest, e.end, k - 1), |edits[k].text|);
    }
  }
}
