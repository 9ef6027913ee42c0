/**
 Oversized native events: split into slices that share an event ID, published in any order and
 interleaving, and put back together. Text is a sequence of UTF-16 code units; the UTF-8 size
 that a slice is charged is a parameter, because a slice may end inside a surrogate pair.
 */
module Fragments {
  import opened Wrappers

  const NATIVE_FRAGMENT_CHARS: nat := 8000
  const MAX_TOTAL: nat := 1024
  const MAX_EVENTS: nat := 32
  const MAX_BUFFERED_BYTES: nat := 4194304

  type Unit = u: nat | u < 0x1_0000

  datatype Fragment = Fragment(eventId: nat, index: nat, total: nat, json: seq<Unit>)

  // -------------------------------------------------------------------- splitting

  function Total(length: nat): nat {
    (length + NATIVE_FRAGMENT_CHARS - 1) / NATIVE_FRAGMENT_CHARS
  }

  function Slice(json: seq<Unit>, index: nat): seq<Unit> {
    var start, end := index * NATIVE_FRAGMENT_CHARS, (index + 1) * NATIVE_FRAGMENT_CHARS;
    if start >= |json| then [] else if end >= |json| then json[start..] else json[start..end]
  }

  function Split(eventId: nat, json: seq<Unit>): (fragments: seq<Fragment>)
    ensures |fragments| == Total(|json|)
  {
    seq(Total(|json|), i requires 0 <= i < Total(|json|) => Fragment(eventId, i, Total(|json|), Slice(json, i)))
  }

  function Joined(parts: seq<seq<Unit>>): seq<Unit> {
    if parts == [] then [] else Joined(parts[..|parts| - 1]) + parts[|parts| - 1]
  }

  function Slices(json: seq<Unit>, count: nat): seq<seq<Unit>> {
    seq(count, i requires 0 <= i < count => Slice(json, i))
  }

  lemma {:induction false} SlicesJoin(json: seq<Unit>, count: nat)
    ensures Joined(Slices(json, count)) ==
      if count * NATIVE_FRAGMENT_CHARS >= |json| then json else json[..count * NATIVE_FRAGMENT_CHARS]
  {
    if count > 0 {
      SlicesJoin(json, count - 1);
      assert Slices(json, count)[..count - 1] == Slices(json, count - 1);
    }
  }

  /** The slices of an event, in index order, are the event. */
  lemma SplitJoins(json: seq<Unit>)
    ensures Joined(Slices(json, Total(|json|))) == json
  {
    SlicesJoin(json, Total(|json|));
  }

  // ------------------------------------------------------------------- reassembly

  datatype Refusal = Invalid | Inconsistent | Conflicting | OverLimit

  datatype Outcome = Waiting | Complete(json: seq<Unit>) | Refused(reason: Refusal)

  type Weigh = seq<Unit> -> nat

  /** The parts of one event that have arrived, and the bytes they are charged. */
  datatype Buffer = Buffer(parts: map<nat, seq<Unit>>, total: nat, size: nat)

  datatype Output = Output(fragments: map<nat, Buffer>, size: nat)

  const EMPTY := Output(map[], 0)

  /** `parts.join("")`: a part that is missing joins as nothing. */
  function InOrder(parts: map<nat, seq<Unit>>, total: nat): seq<seq<Unit>> {
    seq(total, i requires 0 <= i < total => if i in parts then parts[i] else [])
  }

  predicate Plausible(f: Fragment) {
    1 <= f.total <= MAX_TOTAL && f.index < f.total
  }

  function BufferOf(o: Output, f: Fragment): Buffer {
    if f.eventId in o.fragments then o.fragments[f.eventId] else Buffer(map[], f.total, 0)
  }

  function Judge(o: Output, f: Fragment, weigh: Weigh): Outcome {
    var b := BufferOf(o, f);
    if !Plausible(f) then Refused(Invalid)
    else if b.total != f.total then Refused(Inconsistent)
    else if f.index in b.parts then if b.parts[f.index] != f.json then Refused(Conflicting) else Waiting
    else if o.size + weigh(f.json) > MAX_BUFFERED_BYTES || (f.eventId !in o.fragments && |o.fragments| >= MAX_EVENTS) then
      Refused(OverLimit)
    else if |b.parts| + 1 == b.total then Complete(Joined(InOrder(b.parts[f.index := f.json], b.total)))
    else Waiting
  }

  function Accept(o: Output, f: Fragment, weigh: Weigh): Output {
    var b := BufferOf(o, f);
    match Judge(o, f, weigh)
    case Refused(_) => o
    case Complete(_) => Output(o.fragments - {f.eventId}, if o.size < b.size then 0 else o.size - b.size)
    case Waiting =>
      if f.index in b.parts then o
      else
        var w := weigh(f.json);
        Output(o.fragments[f.eventId := Grown(b, f, w)], o.size + w)
  }

  function AcceptAll(arrivals: seq<Fragment>, weigh: Weigh): Output {
    if arrivals == [] then EMPTY else Accept(AcceptAll(arrivals[..|arrivals| - 1], weigh), arrivals[|arrivals| - 1], weigh)
  }

  // ----------------------------------------------------------------- byte counter

  /** The bytes of all buffers together. */
  ghost function Charged(fragments: map<nat, Buffer>): nat {
    if fragments == map[] then 0
    else
      var id :| id in fragments;
      fragments[id].size + Charged(fragments - {id})
  }

  lemma {:induction false} ChargedOne(fragments: map<nat, Buffer>, id: nat)
    requires id in fragments
    ensures Charged(fragments) == fragments[id].size + Charged(fragments - {id})
    decreases |fragments|
  {
    var first :| first in fragments && Charged(fragments) == fragments[first].size + Charged(fragments - {first});
    if first != id {
      ChargedOne(fragments - {first}, id);
      ChargedOne(fragments - {id}, first);
      assert fragments - {first} - {id} == fragments - {id} - {first};
    }
  }

  lemma ChargedPut(fragments: map<nat, Buffer>, id: nat, b: Buffer)
    ensures Charged(fragments[id := b]) == Charged(fragments - {id}) + b.size
  {
    ChargedOne(fragments[id := b], id);
    assert fragments[id := b] - {id} == fragments - {id};
  }

  lemma ChargedWithout(fragments: map<nat, Buffer>, id: nat)
    ensures Charged(fragments) == Charged(fragments - {id}) + if id in fragments then fragments[id].size else 0
  {
    if id in fragments {
      ChargedOne(fragments, id);
    } else {
      assert fragments - {id} == fragments;
    }
  }

  lemma CountPut(fragments: map<nat, Buffer>, id: nat, b: Buffer)
    ensures |fragments[id := b]| == |fragments| + if id in fragments then 0 else 1
    ensures |fragments - {id}| <= |fragments|
  {
    assert fragments[id := b].Keys == fragments.Keys + {id};
    assert (fragments - {id}).Keys == fragments.Keys - {id};
  }

  predicate Counted(o: Output, size: nat) {
    o.size == size <= MAX_BUFFERED_BYTES && |o.fragments| <= MAX_EVENTS
  }

  function Grown(b: Buffer, f: Fragment, bytes: nat): Buffer {
    Buffer(b.parts[f.index := f.json], b.total, b.size + bytes)
  }

  /** A fragment is ignored, or buffered within the limits, or completes its event. */
  lemma AcceptCases(o: Output, f: Fragment, weigh: Weigh)
    ensures var b, t, w := BufferOf(o, f), Accept(o, f, weigh), weigh(f.json);
      || t == o
      || (t == Output(o.fragments[f.eventId := Grown(b, f, w)], o.size + w) && o.size + w <= MAX_BUFFERED_BYTES
          && (f.eventId in o.fragments || |o.fragments| < MAX_EVENTS))
      || t == Output(o.fragments - {f.eventId}, if o.size < b.size then 0 else o.size - b.size)
  {
  }

  lemma GrownCounts(o: Output, f: Fragment, bytes: nat)
    requires Counted(o, Charged(o.fragments)) && o.size + bytes <= MAX_BUFFERED_BYTES
    requires f.eventId in o.fragments || |o.fragments| < MAX_EVENTS
    ensures var fragments := o.fragments[f.eventId := Grown(BufferOf(o, f), f, bytes)];
      Counted(Output(fragments, o.size + bytes), Charged(fragments))
  {
    var b := Grown(BufferOf(o, f), f, bytes);
    ChargedWithout(o.fragments, f.eventId);
    ChargedPut(o.fragments, f.eventId, b);
    CountPut(o.fragments, f.eventId, b);
  }

  lemma CompletedCounts(o: Output, f: Fragment)
    requires Counted(o, Charged(o.fragments))
    ensures var b, fragments := BufferOf(o, f), o.fragments - {f.eventId};
      b.size <= o.size && Counted(Output(fragments, o.size - b.size), Charged(fragments))
  {
    ChargedWithout(o.fragments, f.eventId);
    CountPut(o.fragments, f.eventId, BufferOf(o, f));
  }

  /** The counter always equals what is buffered, and stays within the limit with every buffer. */
  lemma AcceptCounts(o: Output, f: Fragment, weigh: Weigh)
    requires Counted(o, Charged(o.fragments))
    ensures Counted(Accept(o, f, weigh), Charged(Accept(o, f, weigh).fragments))
  {
    var w := weigh(f.json);
    AcceptCases(o, f, weigh);
    CompletedCounts(o, f);
    if o.size + w <= MAX_BUFFERED_BYTES && (f.eventId in o.fragments || |o.fragments| < MAX_EVENTS) { GrownCounts(o, f, w); }
  }

  lemma {:induction false} RunCounts(arrivals: seq<Fragment>, weigh: Weigh)
    ensures Counted(AcceptAll(arrivals, weigh), Charged(AcceptAll(arrivals, weigh).fragments))
  {
    if arrivals != [] {
      RunCounts(arrivals[..|arrivals| - 1], weigh);
      AcceptCounts(AcceptAll(arrivals[..|arrivals| - 1], weigh), arrivals[|arrivals| - 1], weigh);
    }
  }

  // ------------------------------------------------------------------- round trip

  function Seen(arrivals: seq<Fragment>, eventId: nat): set<nat> {
    set f | f in arrivals && f.eventId == eventId :: f.index
  }

  function UpTo(n: nat): (indices: set<nat>)
    ensures |indices| == n && forall i: nat :: i in indices <==> i < n
  {
    if n == 0 then {} else UpTo(n - 1) + {n - 1}
  }

  /** `f` is one of the fragments that `Split` makes of its event. */
  predicate Genuine(f: Fragment, events: map<nat, seq<Unit>>) {
    && f.eventId in events
    && f.total == Total(|events[f.eventId]|) && f.index < f.total
    && f.json == Slice(events[f.eventId], f.index)
  }

  lemma SplitIsGenuine(eventId: nat, events: map<nat, seq<Unit>>, i: nat)
    requires eventId in events && i < Total(|events[eventId]|)
    ensures Genuine(Split(eventId, events[eventId])[i], events)
  {
  }

  ghost predicate AllGenuine(arrivals: seq<Fragment>, events: map<nat, seq<Unit>>) {
    forall f :: f in arrivals ==> Genuine(f, events)
  }

  ghost predicate Arrived(arrivals: seq<Fragment>, eventId: nat, events: map<nat, seq<Unit>>) {
    eventId in events && Seen(arrivals, eventId) == UpTo(Total(|events[eventId]|))
  }

  ghost predicate Holds(b: Buffer, seen: set<nat>, json: seq<Unit>) {
    && b.parts.Keys == seen && b.total == Total(|json|)
    && forall i :: i in b.parts ==> b.parts[i] == Slice(json, i)
  }

  /** Buffered is exactly what has arrived of the events that are not complete. */
  ghost predicate Tracks(o: Output, arrivals: seq<Fragment>, events: map<nat, seq<Unit>>) {
    && (forall id :: id in o.fragments <==> Seen(arrivals, id) != {} && !Arrived(arrivals, id, events))
    && (forall id :: id in o.fragments ==> id in events && Holds(o.fragments[id], Seen(arrivals, id), events[id]))
  }

  ghost predicate WithinLimits(events: map<nat, seq<Unit>>) {
    forall id :: id in events ==> 0 < |events[id]| <= MAX_TOTAL * NATIVE_FRAGMENT_CHARS
  }

  lemma TotalIsPlausible(length: nat)
    requires 0 < length <= MAX_TOTAL * NATIVE_FRAGMENT_CHARS
    ensures 1 <= Total(length) <= MAX_TOTAL
  {
  }

  lemma SeenNext(arrivals: seq<Fragment>, f: Fragment, eventId: nat)
    ensures Seen(arrivals + [f], eventId) == Seen(arrivals, eventId) + if eventId == f.eventId then {f.index} else {}
  {
    assert forall g :: g in arrivals + [f] <==> g in arrivals || g == f;
  }

  lemma Subset(a: set<nat>, b: set<nat>)
    requires a <= b
    ensures |a| <= |b| && (|a| == |b| <==> a == b)
  {
    assert b == a + (b - a);
  }

  lemma SeenIsBounded(arrivals: seq<Fragment>, eventId: nat, events: map<nat, seq<Unit>>)
    requires AllGenuine(arrivals, events) && eventId in events
    ensures Seen(arrivals, eventId) <= UpTo(Total(|events[eventId]|))
  {
    forall i | i in Seen(arrivals, eventId) ensures i in UpTo(Total(|events[eventId]|)) {
      var f :| f in arrivals && f.eventId == eventId && f.index == i;
      assert Genuine(f, events);
    }
  }

  lemma HeldBuffer(o: Output, arrivals: seq<Fragment>, f: Fragment, events: map<nat, seq<Unit>>)
    requires Tracks(o, arrivals, events) && Genuine(f, events) && !Arrived(arrivals, f.eventId, events)
    ensures Holds(BufferOf(o, f), Seen(arrivals, f.eventId), events[f.eventId])
  {
  }

  /** The parts of a buffer that has every index join to the event. */
  lemma FullBufferJoins(parts: map<nat, seq<Unit>>, json: seq<Unit>)
    requires parts.Keys == UpTo(Total(|json|)) && forall i :: i in parts ==> parts[i] == Slice(json, i)
    ensures Joined(InOrder(parts, Total(|json|))) == json
  {
    assert InOrder(parts, Total(|json|)) == Slices(json, Total(|json|));
    SplitJoins(json);
  }

  /** A new index completes its event exactly when it raises the count of parts to the total. */
  lemma CompletesExactly(arrivals: seq<Fragment>, f: Fragment, events: map<nat, seq<Unit>>)
    requires AllGenuine(arrivals, events) && Genuine(f, events) && f.index !in Seen(arrivals, f.eventId)
    ensures Arrived(arrivals + [f], f.eventId, events) <==> |Seen(arrivals, f.eventId)| + 1 == f.total
  {
    SeenNext(arrivals, f, f.eventId);
    SeenIsBounded(arrivals, f.eventId, events);
    Subset(Seen(arrivals + [f], f.eventId), UpTo(f.total));
  }

  lemma JudgeBuffer(o: Output, f: Fragment, weigh: Weigh)
    requires Plausible(f) && BufferOf(o, f).total == f.total && Judge(o, f, weigh) != Refused(OverLimit)
    requires f.index in BufferOf(o, f).parts ==> BufferOf(o, f).parts[f.index] == f.json
    ensures var b := BufferOf(o, f);
      Judge(o, f, weigh) ==
        if f.index !in b.parts && |b.parts| + 1 == b.total then Complete(Joined(InOrder(b.parts[f.index := f.json], b.total))) else Waiting
  {
  }

  lemma HoldsMore(b: Buffer, seen: set<nat>, json: seq<Unit>, index: nat, size: nat)
    requires Holds(b, seen, json)
    ensures Holds(Buffer(b.parts[index := Slice(json, index)], b.total, size), seen + {index}, json)
  {
  }

  /**
   One genuine fragment, after any genuine arrivals in any order and interleaving, duplicates
   included: the event comes back, exactly as it was, at its last distinct fragment and only there.
   */
  lemma FragmentOutcome(o: Output, arrivals: seq<Fragment>, f: Fragment, events: map<nat, seq<Unit>>, weigh: Weigh)
    requires WithinLimits(events) && AllGenuine(arrivals, events) && Genuine(f, events) && Tracks(o, arrivals, events)
    requires !Arrived(arrivals, f.eventId, events) && Judge(o, f, weigh) != Refused(OverLimit)
    ensures Judge(o, f, weigh) ==
      if f.index !in Seen(arrivals, f.eventId) && Arrived(arrivals + [f], f.eventId, events) then Complete(events[f.eventId]) else Waiting
  {
    var b, json, seen := BufferOf(o, f), events[f.eventId], Seen(arrivals, f.eventId);
    TotalIsPlausible(|json|);
    HeldBuffer(o, arrivals, f, events);
    JudgeBuffer(o, f, weigh);
    if f.index !in seen {
      CompletesExactly(arrivals, f, events);
      assert |b.parts| == |b.parts.Keys|;
      if |b.parts| + 1 == b.total {
        SeenNext(arrivals, f, f.eventId);
        HoldsMore(b, seen, json, f.index, 0);
        FullBufferJoins(b.parts[f.index := f.json], json);
      }
    }
  }

  ghost predicate SeenMore(before: seq<Fragment>, after: seq<Fragment>, eventId: nat, index: nat) {
    && (forall id :: id != eventId ==> Seen(after, id) == Seen(before, id))
    && Seen(after, eventId) == Seen(before, eventId) + {index}
  }

  lemma SameSeen(o: Output, before: seq<Fragment>, after: seq<Fragment>, events: map<nat, seq<Unit>>)
    requires Tracks(o, before, events) && forall id :: Seen(after, id) == Seen(before, id)
    ensures Tracks(o, after, events)
  {
  }

  /** The events other than one are tracked as before. */
  ghost predicate TracksOthers(o: Output, arrivals: seq<Fragment>, eventId: nat, events: map<nat, seq<Unit>>) {
    && (forall id :: id != eventId ==> (id in o.fragments <==> Seen(arrivals, id) != {} && !Arrived(arrivals, id, events)))
    && (forall id :: id != eventId && id in o.fragments ==> id in events && Holds(o.fragments[id], Seen(arrivals, id), events[id]))
  }

  lemma OthersStayTracked(o: Output, before: seq<Fragment>, after: seq<Fragment>, eventId: nat, events: map<nat, seq<Unit>>)
    requires Tracks(o, before, events) && forall id :: id != eventId ==> Seen(after, id) == Seen(before, id)
    ensures TracksOthers(o, after, eventId, events)
  {
  }

  lemma TracksCompleted(o: Output, after: seq<Fragment>, eventId: nat, size: nat, events: map<nat, seq<Unit>>)
    requires TracksOthers(o, after, eventId, events) && Arrived(after, eventId, events)
    ensures Tracks(Output(o.fragments - {eventId}, size), after, events)
  {
  }

  lemma TracksGrown(o: Output, after: seq<Fragment>, b: Buffer, eventId: nat, size: nat, events: map<nat, seq<Unit>>)
    requires TracksOthers(o, after, eventId, events) && !Arrived(after, eventId, events)
    requires eventId in events && Seen(after, eventId) != {} && Holds(b, Seen(after, eventId), events[eventId])
    ensures Tracks(Output(o.fragments[eventId := b], size), after, events)
  {
  }

  lemma AllSeenNext(arrivals: seq<Fragment>, f: Fragment)
    ensures SeenMore(arrivals, arrivals + [f], f.eventId, f.index)
  {
    forall id ensures Seen(arrivals + [f], id) == Seen(arrivals, id) + if id == f.eventId then {f.index} else {} {
      SeenNext(arrivals, f, id);
    }
  }

  lemma AcceptTracks(o: Output, arrivals: seq<Fragment>, f: Fragment, events: map<nat, seq<Unit>>, weigh: Weigh)
    requires WithinLimits(events) && AllGenuine(arrivals, events) && Genuine(f, events) && Tracks(o, arrivals, events)
    requires !Arrived(arrivals, f.eventId, events) && Judge(o, f, weigh) != Refused(OverLimit)
    ensures Tracks(Accept(o, f, weigh), arrivals + [f], events)
  {
    var after, b, t, w := arrivals + [f], BufferOf(o, f), Accept(o, f, weigh), weigh(f.json);
    FragmentOutcome(o, arrivals, f, events, weigh);
    HeldBuffer(o, arrivals, f, events);
    AllSeenNext(arrivals, f);
    OthersStayTracked(o, arrivals, after, f.eventId, events);
    if f.index in Seen(arrivals, f.eventId) {
      assert Seen(after, f.eventId) == Seen(arrivals, f.eventId);
      SameSeen(o, arrivals, after, events);
    } else if Arrived(after, f.eventId, events) {
      TracksCompleted(o, after, f.eventId, t.size, events);
    } else {
      HoldsMore(b, Seen(arrivals, f.eventId), events[f.eventId], f.index, b.size + w);
      TracksGrown(o, after, Grown(b, f, w), f.eventId, t.size, events);
    }
  }

  /** Nothing was refused for the limits, and nothing came after its event was complete. */
  ghost predicate Orderly(arrivals: seq<Fragment>, events: map<nat, seq<Unit>>, weigh: Weigh, n: nat)
    requires n <= |arrivals|
  {
    forall k :: 0 <= k < n ==> OrderlyAt(arrivals, events, weigh, k)
  }

  ghost predicate OrderlyAt(arrivals: seq<Fragment>, events: map<nat, seq<Unit>>, weigh: Weigh, k: nat)
    requires k < |arrivals|
  {
    Judge(AcceptAll(arrivals[..k], weigh), arrivals[k], weigh) != Refused(OverLimit) && !Arrived(arrivals[..k], arrivals[k].eventId, events)
  }

  lemma AcceptNext(arrivals: seq<Fragment>, k: nat, weigh: Weigh)
    requires k < |arrivals|
    ensures AcceptAll(arrivals[..k + 1], weigh) == Accept(AcceptAll(arrivals[..k], weigh), arrivals[k], weigh)
    ensures arrivals[..k + 1] == arrivals[..k] + [arrivals[k]]
  {
    assert arrivals[..k + 1][..k] == arrivals[..k];
  }

  lemma NextTracks(arrivals: seq<Fragment>, events: map<nat, seq<Unit>>, weigh: Weigh, k: nat)
    requires WithinLimits(events) && AllGenuine(arrivals, events) && k < |arrivals|
    requires Tracks(AcceptAll(arrivals[..k], weigh), arrivals[..k], events)
    requires OrderlyAt(arrivals, events, weigh, k)
    ensures Tracks(AcceptAll(arrivals[..k + 1], weigh), arrivals[..k + 1], events)
  {
    AcceptNext(arrivals, k, weigh);
    assert AllGenuine(arrivals[..k], events) && Genuine(arrivals[k], events);
    AcceptTracks(AcceptAll(arrivals[..k], weigh), arrivals[..k], arrivals[k], events, weigh);
  }

  lemma {:induction false} RunTracks(arrivals: seq<Fragment>, events: map<nat, seq<Unit>>, weigh: Weigh, n: nat)
    requires WithinLimits(events) && AllGenuine(arrivals, events) && n <= |arrivals| && Orderly(arrivals, events, weigh, n)
    ensures Tracks(AcceptAll(arrivals[..n], weigh), arrivals[..n], events)
  {
    if n == 0 {
      assert arrivals[..0] == [];
      assert forall id :: Seen([], id) == {};
    } else {
      assert OrderlyAt(arrivals, events, weigh, n - 1);
      RunTracks(arrivals, events, weigh, n - 1);
      NextTracks(arrivals, events, weigh, n - 1);
    }
  }

  /** Over a whole run: each event comes out exactly when its last distinct fragment comes in. */
  lemma EventsComeBackOnce(arrivals: seq<Fragment>, k: nat, events: map<nat, seq<Unit>>, weigh: Weigh)
    requires WithinLimits(events) && AllGenuine(arrivals, events) && k < |arrivals| && Orderly(arrivals, events, weigh, k + 1)
    ensures Judge(AcceptAll(arrivals[..k], weigh), arrivals[k], weigh) ==
      if arrivals[k].index !in Seen(arrivals[..k], arrivals[k].eventId) && Arrived(arrivals[..k + 1], arrivals[k].eventId, events)
      then Complete(events[arrivals[k].eventId]) else Waiting
  {
    assert OrderlyAt(arrivals, events, weigh, k);
    RunTracks(arrivals, events, weigh, k);
    AcceptNext(arrivals, k, weigh);
    assert AllGenuine(arrivals[..k], events) && Genuine(arrivals[k], events);
    FragmentOutcome(AcceptAll(arrivals[..k], weigh), arrivals[..k], arrivals[k], events, weigh);
  }

  lemma FirstFragment(o: Output, f: Fragment, weigh: Weigh)
    requires Plausible(f) && f.total > 1 && f.eventId !in o.fragments && Judge(o, f, weigh) != Refused(OverLimit)
    ensures Judge(o, f, weigh) == Waiting
    ensures Accept(o, f, weigh).fragments == o.fragments[f.eventId := Grown(Buffer(map[], f.total, 0), f, weigh(f.json))]
  {
    var b := BufferOf(o, f);
    assert b == Buffer(map[], f.total, 0) && |b.parts| == 0;
    JudgeBuffer(o, f, weigh);
  }

  /** A fragment that comes after its event was complete starts a record of its own. */
  lemma LateFragmentStartsAnew(o: Output, arrivals: seq<Fragment>, f: Fragment, events: map<nat, seq<Unit>>, weigh: Weigh)
    requires WithinLimits(events) && Genuine(f, events) && Tracks(o, arrivals, events)
    requires Arrived(arrivals, f.eventId, events) && f.total > 1 && Judge(o, f, weigh) != Refused(OverLimit)
    ensures Judge(o, f, weigh) == Waiting && f.eventId !in o.fragments
    ensures Accept(o, f, weigh).fragments == o.fragments[f.eventId := Grown(Buffer(map[], f.total, 0), f, weigh(f.json))]
  {
    TotalIsPlausible(|events[f.eventId]|);
    FirstFragment(o, f, weigh);
  }

  // ------------------------------------------------------- when the limits suffice

  /** The charge of the first `count` parts. */
  function PartsWeight(parts: map<nat, seq<Unit>>, count: nat, weigh: Weigh): nat {
    if count == 0 then 0
    else PartsWeight(parts, count - 1, weigh) + if count - 1 in parts then weigh(parts[count - 1]) else 0
  }

  function EventWeight(json: seq<Unit>, count: nat, weigh: Weigh): nat {
    if count == 0 then 0 else EventWeight(json, count - 1, weigh) + weigh(Slice(json, count - 1))
  }

  /** What all the slices of all events together are charged. */
  ghost function WholeWeight(events: map<nat, seq<Unit>>, weigh: Weigh): nat {
    Charged(Wholes(events, weigh))
  }

  function Wholes(events: map<nat, seq<Unit>>, weigh: Weigh): map<nat, Buffer> {
    map id | id in events :: Buffer(map[], 0, EventWeight(events[id], Total(|events[id]|), weigh))
  }

  ghost predicate Weighed(o: Output, weigh: Weigh) {
    forall id :: id in o.fragments ==> o.fragments[id].size == PartsWeight(o.fragments[id].parts, o.fragments[id].total, weigh)
  }

  lemma {:induction false} PartsWeightPut(parts: map<nat, seq<Unit>>, index: nat, part: seq<Unit>, count: nat, weigh: Weigh)
    requires index !in parts
    ensures PartsWeight(parts[index := part], count, weigh) == PartsWeight(parts, count, weigh) + if index < count then weigh(part) else 0
  {
    if count > 0 { PartsWeightPut(parts, index, part, count - 1, weigh); }
  }

  lemma {:induction false} PartsWithinEvent(parts: map<nat, seq<Unit>>, json: seq<Unit>, count: nat, weigh: Weigh)
    requires forall i :: i in parts ==> parts[i] == Slice(json, i)
    ensures PartsWeight(parts, count, weigh) <= EventWeight(json, count, weigh)
  {
    if count > 0 { PartsWithinEvent(parts, json, count - 1, weigh); }
  }

  lemma {:induction false} NoPartsWeigh(count: nat, weigh: Weigh)
    ensures PartsWeight(map[], count, weigh) == 0
  {
    if count > 0 { NoPartsWeigh(count - 1, weigh); }
  }

  lemma {:induction false} ChargedGrows(a: map<nat, Buffer>, b: map<nat, Buffer>)
    requires a.Keys <= b.Keys && forall id :: id in a ==> a[id].size <= b[id].size
    ensures Charged(a) <= Charged(b)
    decreases |a|
  {
    if a != map[] {
      var id :| id in a;
      ChargedOne(a, id);
      ChargedOne(b, id);
      ChargedGrows(a - {id}, b - {id});
    }
  }

  lemma GrownWeighs(b: Buffer, f: Fragment, weigh: Weigh)
    requires b.size == PartsWeight(b.parts, b.total, weigh) && f.index !in b.parts && f.index < b.total
    ensures var more := Grown(b, f, weigh(f.json)); more.size == PartsWeight(more.parts, more.total, weigh)
  {
    PartsWeightPut(b.parts, f.index, f.json, b.total, weigh);
  }

  lemma BufferWeighs(o: Output, f: Fragment, weigh: Weigh)
    requires Weighed(o, weigh)
    ensures var b := BufferOf(o, f); b.size == PartsWeight(b.parts, b.total, weigh)
  {
    NoPartsWeigh(f.total, weigh);
  }

  lemma AcceptWeighs(o: Output, f: Fragment, weigh: Weigh)
    requires Weighed(o, weigh)
    ensures Weighed(Accept(o, f, weigh), weigh)
  {
    var b := BufferOf(o, f);
    BufferWeighs(o, f, weigh);
    if Judge(o, f, weigh).Waiting? && f.index !in b.parts { GrownWeighs(b, f, weigh); }
  }

  lemma {:induction false} RunWeighs(arrivals: seq<Fragment>, weigh: Weigh)
    ensures Weighed(AcceptAll(arrivals, weigh), weigh)
  {
    if arrivals != [] {
      RunWeighs(arrivals[..|arrivals| - 1], weigh);
      AcceptWeighs(AcceptAll(arrivals[..|arrivals| - 1], weigh), arrivals[|arrivals| - 1], weigh);
    }
  }

  lemma GrownSizes(o: Output, arrivals: seq<Fragment>, f: Fragment, events: map<nat, seq<Unit>>, weigh: Weigh)
    requires Tracks(o, arrivals, events) && Weighed(o, weigh) && Genuine(f, events) && !Arrived(arrivals, f.eventId, events)
    requires f.index !in BufferOf(o, f).parts
    ensures Grown(BufferOf(o, f), f, weigh(f.json)).size <= EventWeight(events[f.eventId], Total(|events[f.eventId]|), weigh)
  {
    var b, json := BufferOf(o, f), events[f.eventId];
    HeldBuffer(o, arrivals, f, events);
    BufferWeighs(o, f, weigh);
    GrownWeighs(b, f, weigh);
    PartsWithinEvent(b.parts[f.index := f.json], json, b.total, weigh);
  }

  lemma HeldSizes(o: Output, arrivals: seq<Fragment>, events: map<nat, seq<Unit>>, weigh: Weigh)
    requires Tracks(o, arrivals, events) && Weighed(o, weigh)
    ensures o.fragments.Keys <= events.Keys
    ensures forall id :: id in o.fragments ==> o.fragments[id].size <= EventWeight(events[id], Total(|events[id]|), weigh)
  {
    forall id | id in o.fragments
      ensures id in events && o.fragments[id].size <= EventWeight(events[id], Total(|events[id]|), weigh)
    {
      PartsWithinEvent(o.fragments[id].parts, events[id], o.fragments[id].total, weigh);
    }
  }

  /** The events under way before an arrival, and the one that arrives. */
  ghost function Open(before: seq<Fragment>, eventId: nat, events: map<nat, seq<Unit>>): map<nat, seq<Unit>> {
    map id | id in events && (id == eventId || (Seen(before, id) != {} && !Arrived(before, id, events))) :: events[id]
  }

  lemma OpenSizes(o: Output, arrivals: seq<Fragment>, f: Fragment, events: map<nat, seq<Unit>>, weigh: Weigh)
    requires Tracks(o, arrivals, events) && Weighed(o, weigh) && Genuine(f, events) && !Arrived(arrivals, f.eventId, events)
    requires f.index !in BufferOf(o, f).parts
    ensures var more, wholes := o.fragments[f.eventId := Grown(BufferOf(o, f), f, weigh(f.json))], Wholes(Open(arrivals, f.eventId, events), weigh);
      more.Keys <= wholes.Keys && forall id :: id in more ==> more[id].size <= wholes[id].size
  {
    HeldSizes(o, arrivals, events, weigh);
    GrownSizes(o, arrivals, f, events, weigh);
  }

  lemma OpenCount(held: map<nat, Buffer>, open: map<nat, seq<Unit>>, id: nat)
    requires held.Keys <= open.Keys && id in open && id !in held
    ensures |held| < |open|
  {
    assert held.Keys <= open.Keys - {id};
    Subset(held.Keys, open.Keys - {id});
  }

  lemma ChargedGrown(o: Output, f: Fragment, bytes: nat)
    ensures Charged(o.fragments[f.eventId := Grown(BufferOf(o, f), f, bytes)]) == Charged(o.fragments) + bytes
  {
    ChargedWithout(o.fragments, f.eventId);
    ChargedPut(o.fragments, f.eventId, Grown(BufferOf(o, f), f, bytes));
  }

  /** Whatever is buffered, with one more part, is charged no more than the whole events under way. */
  lemma GrownWithinOpen(o: Output, arrivals: seq<Fragment>, f: Fragment, events: map<nat, seq<Unit>>, weigh: Weigh)
    requires Tracks(o, arrivals, events) && Weighed(o, weigh) && Genuine(f, events) && !Arrived(arrivals, f.eventId, events)
    requires f.index !in BufferOf(o, f).parts
    ensures var open := Open(arrivals, f.eventId, events);
      && Charged(o.fragments) + weigh(f.json) <= WholeWeight(open, weigh)
      && (f.eventId !in o.fragments ==> |o.fragments| < |open|)
  {
    var open := Open(arrivals, f.eventId, events);
    var more := o.fragments[f.eventId := Grown(BufferOf(o, f), f, weigh(f.json))];
    assert Charged(more) <= WholeWeight(open, weigh) && more.Keys <= open.Keys by {
      OpenSizes(o, arrivals, f, events, weigh);
      ChargedGrows(more, Wholes(open, weigh));
    }
    ChargedGrown(o, f, weigh(f.json));
    if f.eventId !in o.fragments { OpenCount(o.fragments, open, f.eventId); }
  }

  /** Nothing comes after its event was complete. */
  ghost predicate NothingLate(arrivals: seq<Fragment>, events: map<nat, seq<Unit>>) {
    forall k :: 0 <= k < |arrivals| ==> !Arrived(arrivals[..k], arrivals[k].eventId, events)
  }

  /** The events under way at one arrival are at most 32, and their slices are charged 4 MiB at most. */
  ghost predicate OpenFits(arrivals: seq<Fragment>, k: nat, events: map<nat, seq<Unit>>, weigh: Weigh)
    requires k < |arrivals|
  {
    var open := Open(arrivals[..k], arrivals[k].eventId, events);
    |open| <= MAX_EVENTS && WholeWeight(open, weigh) <= MAX_BUFFERED_BYTES
  }

  lemma JudgedWithin(o: Output, f: Fragment, weigh: Weigh)
    requires f.index !in BufferOf(o, f).parts ==>
      o.size + weigh(f.json) <= MAX_BUFFERED_BYTES && (f.eventId in o.fragments || |o.fragments| < MAX_EVENTS)
    ensures Judge(o, f, weigh) != Refused(OverLimit)
  {
  }

  lemma NotOverLimit(o: Output, arrivals: seq<Fragment>, f: Fragment, events: map<nat, seq<Unit>>, weigh: Weigh)
    requires Tracks(o, arrivals, events) && Weighed(o, weigh) && Genuine(f, events) && !Arrived(arrivals, f.eventId, events)
    requires var open := Open(arrivals, f.eventId, events); |open| <= MAX_EVENTS && WholeWeight(open, weigh) <= MAX_BUFFERED_BYTES
    requires o.size == Charged(o.fragments)
    ensures Judge(o, f, weigh) != Refused(OverLimit)
  {
    if f.index !in BufferOf(o, f).parts { GrownWithinOpen(o, arrivals, f, events, weigh); }
    JudgedWithin(o, f, weigh);
  }

  lemma NextIsOrderly(arrivals: seq<Fragment>, k: nat, events: map<nat, seq<Unit>>, weigh: Weigh)
    requires WithinLimits(events) && AllGenuine(arrivals, events) && NothingLate(arrivals, events) && k < |arrivals|
    requires OpenFits(arrivals, k, events, weigh) && Orderly(arrivals, events, weigh, k)
    ensures OrderlyAt(arrivals, events, weigh, k)
  {
    RunTracks(arrivals, events, weigh, k);
    RunWeighs(arrivals[..k], weigh);
    RunCounts(arrivals[..k], weigh);
    assert Genuine(arrivals[k], events);
    NotOverLimit(AcceptAll(arrivals[..k], weigh), arrivals[..k], arrivals[k], events, weigh);
  }

  lemma OrderlyNext(arrivals: seq<Fragment>, events: map<nat, seq<Unit>>, weigh: Weigh, k: nat)
    requires k < |arrivals| && Orderly(arrivals, events, weigh, k) && OrderlyAt(arrivals, events, weigh, k)
    ensures Orderly(arrivals, events, weigh, k + 1)
  {
  }

  /**
   While the events under way are at most 32, with slices charged 4 MiB in all, nothing is refused
   for the limits, so every event comes back as `EventsComeBackOnce` says. How many events a run
   has, and how large they are together, does not matter.
   */
  lemma {:induction false} LimitsSuffice(arrivals: seq<Fragment>, n: nat, events: map<nat, seq<Unit>>, weigh: Weigh)
    requires WithinLimits(events) && AllGenuine(arrivals, events) && NothingLate(arrivals, events) && n <= |arrivals|
    requires forall k :: 0 <= k < n ==> OpenFits(arrivals, k, events, weigh)
    ensures Orderly(arrivals, events, weigh, n)
  {
    if n > 0 {
      LimitsSuffice(arrivals, n - 1, events, weigh);
      NextIsOrderly(arrivals, n - 1, events, weigh);
      OrderlyNext(arrivals, events, weigh, n - 1);
    }
  }

  // -------------------------------------------------------- split, then reassemble

  /** What comes out: the events that are complete, by ID and content, in the order of completion. */
  function Outputs(arrivals: seq<Fragment>, weigh: Weigh): seq<(nat, seq<Unit>)> {
    if arrivals == [] then []
    else
      var before, f := arrivals[..|arrivals| - 1], arrivals[|arrivals| - 1];
      Outputs(before, weigh) + match Judge(AcceptAll(before, weigh), f, weigh)
                               case Complete(json) => [(f.eventId, json)]
                               case _ => []
  }

  /** Each event, exactly as it was split, at its last distinct fragment. */
  ghost function Completions(arrivals: seq<Fragment>, events: map<nat, seq<Unit>>): seq<(nat, seq<Unit>)> {
    if arrivals == [] then []
    else
      var before, f := arrivals[..|arrivals| - 1], arrivals[|arrivals| - 1];
      Completions(before, events)
      + if f.index !in Seen(before, f.eventId) && Arrived(arrivals, f.eventId, events) then [(f.eventId, events[f.eventId])] else []
  }

  /** The arrivals are fragments that the splitter made, in any order, interleaved and repeated. */
  ghost predicate FromSplits(arrivals: seq<Fragment>, events: map<nat, seq<Unit>>) {
    forall f :: f in arrivals ==> f.eventId in events && f in Split(f.eventId, events[f.eventId])
  }

  lemma SplitsAreGenuine(arrivals: seq<Fragment>, events: map<nat, seq<Unit>>)
    requires FromSplits(arrivals, events)
    ensures AllGenuine(arrivals, events)
  {
    forall f | f in arrivals ensures Genuine(f, events) {
      var i :| 0 <= i < Total(|events[f.eventId]|) && Split(f.eventId, events[f.eventId])[i] == f;
      SplitIsGenuine(f.eventId, events, i);
    }
  }

  lemma OutputNext(arrivals: seq<Fragment>, k: nat, events: map<nat, seq<Unit>>, weigh: Weigh)
    requires WithinLimits(events) && AllGenuine(arrivals, events) && k < |arrivals| && Orderly(arrivals, events, weigh, k + 1)
    requires Outputs(arrivals[..k], weigh) == Completions(arrivals[..k], events)
    ensures Outputs(arrivals[..k + 1], weigh) == Completions(arrivals[..k + 1], events)
  {
    var more := arrivals[..k + 1];
    assert more[..|more| - 1] == arrivals[..k] && more[|more| - 1] == arrivals[k];
    EventsComeBackOnce(arrivals, k, events, weigh);
  }

  lemma {:induction false} OutputsAreCompletions(arrivals: seq<Fragment>, n: nat, events: map<nat, seq<Unit>>, weigh: Weigh)
    requires WithinLimits(events) && AllGenuine(arrivals, events) && n <= |arrivals| && Orderly(arrivals, events, weigh, n)
    ensures Outputs(arrivals[..n], weigh) == Completions(arrivals[..n], events)
  {
    if n == 0 {
      assert arrivals[..0] == [];
    } else {
      OutputsAreCompletions(arrivals, n - 1, events, weigh);
      OutputNext(arrivals, n - 1, events, weigh);
    }
  }

  /** No event is complete twice, and exactly those are that have arrived whole. */
  ghost predicate OnceEach(out: seq<(nat, seq<Unit>)>, arrivals: seq<Fragment>, events: map<nat, seq<Unit>>) {
    && (forall i, j :: 0 <= i < j < |out| ==> out[i].0 != out[j].0)
    && (forall i :: 0 <= i < |out| ==> Arrived(arrivals, out[i].0, events) && out[i].1 == events[out[i].0])
    && (forall id :: Arrived(arrivals, id, events) ==> (id, events[id]) in out)
  }

  lemma NothingArrived(events: map<nat, seq<Unit>>)
    requires WithinLimits(events)
    ensures forall id :: !Arrived([], id, events)
  {
    forall id | id in events ensures !Arrived([], id, events) {
      TotalIsPlausible(|events[id]|);
      assert 0 in UpTo(Total(|events[id]|)) && 0 !in Seen([], id);
    }
  }

  lemma ArrivedNext(arrivals: seq<Fragment>, f: Fragment, events: map<nat, seq<Unit>>)
    requires !Arrived(arrivals, f.eventId, events)
    ensures forall id :: id != f.eventId ==> (Arrived(arrivals + [f], id, events) <==> Arrived(arrivals, id, events))
    ensures Arrived(arrivals + [f], f.eventId, events) ==> f.index !in Seen(arrivals, f.eventId)
  {
    AllSeenNext(arrivals, f);
    if f.index in Seen(arrivals, f.eventId) { assert Seen(arrivals + [f], f.eventId) == Seen(arrivals, f.eventId); }
  }

  lemma {:induction false} CompletionsOnce(arrivals: seq<Fragment>, n: nat, events: map<nat, seq<Unit>>)
    requires WithinLimits(events) && NothingLate(arrivals, events) && n <= |arrivals|
    ensures OnceEach(Completions(arrivals[..n], events), arrivals[..n], events)
  {
    if n == 0 {
      assert arrivals[..0] == [];
      NothingArrived(events);
    } else {
      var before, f, after := arrivals[..n - 1], arrivals[n - 1], arrivals[..n];
      CompletionsOnce(arrivals, n - 1, events);
      assert after == before + [f] && after[..|after| - 1] == before;
      ArrivedNext(before, f, events);
      CompletionAdds(Completions(before, events), before, f, events);
    }
  }

  lemma CompletionAdds(out: seq<(nat, seq<Unit>)>, before: seq<Fragment>, f: Fragment, events: map<nat, seq<Unit>>)
    requires OnceEach(out, before, events) && !Arrived(before, f.eventId, events)
    requires forall id :: id != f.eventId ==> (Arrived(before + [f], id, events) <==> Arrived(before, id, events))
    ensures OnceEach(out + if Arrived(before + [f], f.eventId, events) then [(f.eventId, events[f.eventId])] else [], before + [f], events)
  {
    forall i | 0 <= i < |out| ensures out[i].0 != f.eventId { assert Arrived(before, out[i].0, events); }
  }

  /** An event has arrived whole when each of its fragments is among the arrivals. */
  lemma ArrivedWhole(arrivals: seq<Fragment>, eventId: nat, events: map<nat, seq<Unit>>)
    requires AllGenuine(arrivals, events) && eventId in events
    ensures Arrived(arrivals, eventId, events) <==> forall f :: f in Split(eventId, events[eventId]) ==> f in arrivals
  {
    var json, total := events[eventId], Total(|events[eventId]|);
    forall i: nat | i < total ensures i in Seen(arrivals, eventId) <==> Split(eventId, json)[i] in arrivals {
      if i in Seen(arrivals, eventId) {
        var f :| f in arrivals && f.eventId == eventId && f.index == i;
        assert Genuine(f, events) && f == Split(eventId, json)[i];
      }
      if Split(eventId, json)[i] in arrivals { assert Split(eventId, json)[i].index == i; }
    }
    SeenIsBounded(arrivals, eventId, events);
  }

  /**
   Splitting and reassembling. Whatever the order in which the fragments of any number of events arrive,
   interleaved, and repeated until their event is complete: while the events under way are within the
   limits, exactly the events all of whose fragments arrive come out, each once, at its last distinct
   fragment, as it was.
   */
  lemma SplitThenReassemble(arrivals: seq<Fragment>, events: map<nat, seq<Unit>>, weigh: Weigh)
    requires WithinLimits(events) && FromSplits(arrivals, events) && NothingLate(arrivals, events)
    requires forall k :: 0 <= k < |arrivals| ==> OpenFits(arrivals, k, events, weigh)
    ensures Outputs(arrivals, weigh) == Completions(arrivals, events)
    ensures var out := Outputs(arrivals, weigh);
      && (forall i, j :: 0 <= i < j < |out| ==> out[i].0 != out[j].0)
      && (forall i :: 0 <= i < |out| ==> out[i].0 in events && out[i].1 == events[out[i].0])
      && (forall id :: id in events ==>
            ((id, events[id]) in out <==> forall f :: f in Split(id, events[id]) ==> f in arrivals))
  {
    SplitsAreGenuine(arrivals, events);
    LimitsSuffice(arrivals, |arrivals|, events, weigh);
    OutputsAreCompletions(arrivals, |arrivals|, events, weigh);
    CompletionsOnce(arrivals, |arrivals|, events);
    assert arrivals[..|arrivals|] == arrivals;
    var out := Outputs(arrivals, weigh);
    forall id | id in events
      ensures (id, events[id]) in out <==> forall f :: f in Split(id, events[id]) ==> f in arrivals
    {
      ArrivedWhole(arrivals, id, events);
    }
  }

  // ------------------------------------------------------------------- the object

  class SessionOutput {
    const weigh: Weigh
    var fragments: map<nat, Buffer>
    var size: nat

    constructor (weigh: Weigh)
      ensures this.weigh == weigh && State() == EMPTY && Valid()
    {
      this.weigh, fragments, size := weigh, map[], 0;
    }

    ghost function State(): Output
      reads this
    {
      Output(fragments, size)
    }

    ghost predicate Valid()
      reads this
    {
      Counted(State(), Charged(fragments))
    }

    method Forget(eventId: nat)
      modifies this`fragments
      ensures fragments == old(fragments) - {eventId}
    {
      fragments := map id | id in fragments && id != eventId :: fragments[id];
    }

    lemma NewPart(o: Output, f: Fragment)
      requires Plausible(f) && BufferOf(o, f).total == f.total && f.index !in BufferOf(o, f).parts
      requires Judge(o, f, weigh) != Refused(OverLimit)
      ensures var b := BufferOf(o, f); var more := Grown(b, f, weigh(f.json));
        if |b.parts| + 1 == b.total
        then Judge(o, f, weigh) == Complete(Joined(InOrder(more.parts, more.total)))
             && Accept(o, f, weigh) == Output(o.fragments - {f.eventId}, if o.size < b.size then 0 else o.size - b.size)
        else Judge(o, f, weigh) == Waiting
             && Accept(o, f, weigh) == Output(o.fragments[f.eventId := more], o.size + weigh(f.json))
    {
      JudgeBuffer(o, f, weigh);
    }

    /** Buffers a part that was checked, and completes its event when it was the last one. */
    method Buffered(f: Fragment, b: Buffer, bytes: nat) returns (outcome: Outcome)
      requires b == BufferOf(State(), f) && b.size <= size && bytes == weigh(f.json)
      requires Plausible(f) && b.total == f.total && f.index !in b.parts && Judge(State(), f, weigh) != Refused(OverLimit)
      modifies this
      ensures State() == Accept(old(State()), f, weigh)
      ensures outcome == Judge(old(State()), f, weigh)
    {
      NewPart(State(), f);
      var more := Grown(b, f, bytes);
      assert |more.parts| == |b.parts| + 1;
      size := size + bytes;
      fragments := fragments[f.eventId := more];
      if |more.parts| != more.total { return Waiting; }
      assert fragments - {f.eventId} == old(fragments) - {f.eventId};
      Forget(f.eventId);
      size := size - more.size;
      outcome := Complete(Joined(InOrder(more.parts, more.total)));
    }

    /** `accept` for one fragment of this message; a refusal is an exception and changes nothing. */
    method AcceptFragment(f: Fragment) returns (outcome: Outcome)
      requires Valid()
      modifies this
      ensures Valid() && State() == Accept(old(State()), f, weigh)
      ensures outcome == Judge(old(State()), f, weigh)
    {
      AcceptCounts(State(), f, weigh);
      CompletedCounts(State(), f);
      if f.total < 1 || f.total > MAX_TOTAL || f.index >= f.total { return Refused(Invalid); }
      var b := if f.eventId in fragments then fragments[f.eventId] else Buffer(map[], f.total, 0);
      if b.total != f.total { return Refused(Inconsistent); }
      if f.index in b.parts {
        if b.parts[f.index] != f.json { return Refused(Conflicting); }
        return Waiting;
      }
      var bytes := weigh(f.json);
      if size + bytes > MAX_BUFFERED_BYTES || (f.eventId !in fragments && |fragments| >= MAX_EVENTS) {
        return Refused(OverLimit);
      }
      outcome := Buffered(f, b, bytes);
    }
  }
}
