/**
 The intake mailbox: first in, first out, one handler at a time, and one result per message
 ID for good. A result settles in a microtask of its own, and the next entry starts in
 another one; these are separate steps.
 */
module Mailbox {
  import opened Wrappers

  datatype Entry = Entry(id: string, sequence: nat)

  /** `Done` is the stretch between a result and the `finally` that looks for the next entry. */
  datatype Handling = Free | Busy(entry: Entry) | Done

  /**
   `all`, `started`, `cancelled` and `settled` record what happened: every entry ever admitted, the
   ones whose handler was called, the ones cancelled before that, and the ones no longer pending.
   */
  datatype Box = Box(
    queue: seq<Entry>, handling: Handling, settling: seq<Entry>, pending: nat, drains: nat,
    all: seq<Entry>, started: seq<Entry>, cancelled: seq<Entry>, settled: seq<Entry>)

  datatype Action =
    | Enqueue(id: string)
    | CancelEntry(id: string)
    | RunDrain
    | Handled
    | Next
    | Settle(index: nat)

  const EMPTY := Box([], Free, [], 0, 0, [], [], [], [])

  predicate IsIdle(b: Box) {
    b.pending == 0
  }

  predicate Known(b: Box, id: string) {
    exists e :: e in b.all && e.id == id
  }

  function Find(queue: seq<Entry>, id: string, from: nat): (index: Option<nat>)
    requires from <= |queue|
    ensures index.Some? ==> from <= index.value < |queue| && queue[index.value].id == id
    ensures index.None? ==> forall i :: from <= i < |queue| ==> queue[i].id != id
    decreases |queue| - from
  {
    if from == |queue| then None else if queue[from].id == id then Some(from) else Find(queue, id, from + 1)
  }

  function Remove(items: seq<Entry>, index: nat): (rest: seq<Entry>)
    requires index < |items|
  {
    items[..index] + items[index + 1..]
  }

  function Drain(b: Box): Box {
    if b.handling != Free || b.queue == [] then b
    else b.(queue := b.queue[1..], handling := Busy(b.queue[0]), started := b.started + [b.queue[0]])
  }

  function Step(b: Box, a: Action): Box {
    match a
    case Enqueue(id) =>
      if Known(b, id) then b
      else
        var e := Entry(id, |b.all| + 1);
        b.(queue := b.queue + [e], pending := b.pending + 1, drains := b.drains + 1, all := b.all + [e])
    case CancelEntry(id) =>
      var index := Find(b.queue, id, 0);
      if index.None? then b
      else
        var e := b.queue[index.value];
        b.(queue := Remove(b.queue, index.value), settling := b.settling + [e], cancelled := b.cancelled + [e])
    case RunDrain => if b.drains == 0 then b else Drain(b.(drains := b.drains - 1))
    case Handled => if !b.handling.Busy? then b else b.(handling := Done, settling := b.settling + [b.handling.entry])
    case Next => if !b.handling.Done? then b else Drain(b.(handling := Free))
    case Settle(index) =>
      if index >= |b.settling| || b.pending == 0 then b
      else b.(settling := Remove(b.settling, index), pending := b.pending - 1, settled := b.settled + [b.settling[index]])
  }

  function After(actions: seq<Action>): Box {
    if actions == [] then EMPTY else Step(After(actions[..|actions| - 1]), actions[|actions| - 1])
  }

  // ---------------------------------------------------------------- invariant

  /** The handlers that have returned. */
  function Returned(b: Box): seq<Entry> {
    if b.handling.Busy? && b.started != [] then b.started[..|b.started| - 1] else b.started
  }

  ghost predicate Ascending(entries: seq<Entry>) {
    forall i, j :: 0 <= i < j < |entries| ==> entries[i].sequence < entries[j].sequence
  }

  ghost predicate Numbered(b: Box) {
    && (forall i :: 0 <= i < |b.all| ==> b.all[i].sequence == i + 1)
    && (forall i, j :: 0 <= i < j < |b.all| ==> b.all[i].id != b.all[j].id)
  }

  /** Every entry is queued, cancelled or started, and every result is settling or settled. */
  ghost predicate Conserved(b: Box) {
    && multiset(b.queue) + multiset(b.cancelled) + multiset(b.started) == multiset(b.all)
    && multiset(b.settling) + multiset(b.settled) == multiset(b.cancelled) + multiset(Returned(b))
    && b.pending == |b.queue| + |b.settling| + (if b.handling.Busy? then 1 else 0)
  }

  ghost predicate Fifo(b: Box) {
    Ascending(b.started + b.queue)
  }

  ghost predicate OneAtATime(b: Box) {
    && (b.handling.Busy? ==> b.started != [] && b.handling.entry == b.started[|b.started| - 1])
    && (b.handling == Free && b.queue != [] ==> b.drains > 0)
  }

  ghost predicate Inv(b: Box) {
    Numbered(b) && Conserved(b) && Fifo(b) && OneAtATime(b)
  }

  lemma RemovedOne(items: seq<Entry>, index: nat)
    requires index < |items|
    ensures multiset(items) == multiset(Remove(items, index)) + multiset{items[index]}
    ensures |Remove(items, index)| == |items| - 1
  {
    assert items == items[..index] + [items[index]] + items[index + 1..];
  }

  lemma AscendingWithout(started: seq<Entry>, queue: seq<Entry>, index: nat)
    requires Ascending(started + queue) && index < |queue|
    ensures Ascending(started + Remove(queue, index))
  {
    var before, after := started + queue, started + Remove(queue, index);
    forall i, j | 0 <= i < j < |after| ensures after[i].sequence < after[j].sequence {
      var gap := |started| + index;
      assert after[i] == before[if i < gap then i else i + 1];
      assert after[j] == before[if j < gap then j else j + 1];
    }
  }

  lemma BusyReturned(b: Box)
    requires OneAtATime(b) && b.handling.Busy?
    ensures b.started == Returned(b) + [b.handling.entry]
    ensures multiset(b.started) == multiset(Returned(b)) + multiset{b.handling.entry}
  {
  }

  lemma MemberOfAll(b: Box, e: Entry)
    requires Conserved(b) && (e in b.queue || e in b.cancelled || e in b.started)
    ensures e in b.all
  {
    assert e in multiset(b.all);
  }

  lemma EnqueueAscends(b: Box, e: Entry)
    requires Numbered(b) && Conserved(b) && Fifo(b) && e.sequence == |b.all| + 1
    ensures Ascending(b.started + (b.queue + [e]))
  {
    var live := b.started + b.queue;
    forall i | 0 <= i < |live| ensures live[i].sequence < e.sequence {
      MemberOfAll(b, live[i]);
    }
    assert b.started + (b.queue + [e]) == live + [e];
  }

  lemma EnqueueNumbers(b: Box, id: string)
    requires Numbered(b) && !Known(b, id)
    ensures Numbered(Step(b, Enqueue(id)))
  {
    forall i | 0 <= i < |b.all| ensures b.all[i].id != id {
      assert b.all[i] in b.all;
    }
  }

  lemma EnqueueConserves(b: Box, e: Entry)
    requires Conserved(b)
    ensures Conserved(b.(queue := b.queue + [e], pending := b.pending + 1, drains := b.drains + 1, all := b.all + [e]))
  {
  }

  lemma EnqueueKeepsOne(b: Box, e: Entry)
    requires OneAtATime(b)
    ensures OneAtATime(b.(queue := b.queue + [e], pending := b.pending + 1, drains := b.drains + 1, all := b.all + [e]))
  {
  }

  lemma EnqueueKeeps(b: Box, id: string)
    requires Inv(b)
    ensures Inv(Step(b, Enqueue(id)))
  {
    if !Known(b, id) {
      var e := Entry(id, |b.all| + 1);
      EnqueueAscends(b, e);
      EnqueueNumbers(b, id);
      EnqueueConserves(b, e);
      EnqueueKeepsOne(b, e);
      assert Step(b, Enqueue(id)) == b.(queue := b.queue + [e], pending := b.pending + 1, drains := b.drains + 1, all := b.all + [e]);
    }
  }

  lemma AddOne(a: multiset<Entry>, b: multiset<Entry>, c: multiset<Entry>, d: multiset<Entry>, e: Entry)
    requires a + b == c + d
    ensures (a + multiset{e}) + b == (c + multiset{e}) + d
    ensures (a + multiset{e}) + b == c + (d + multiset{e})
  {
    assert (a + multiset{e}) + b == (a + b) + multiset{e};
    assert (c + multiset{e}) + d == (c + d) + multiset{e};
    assert c + (d + multiset{e}) == (c + d) + multiset{e};
  }

  lemma MoveOne(a: multiset<Entry>, b: multiset<Entry>, c: multiset<Entry>, e: Entry)
    ensures (a + multiset{e}) + b + c == a + (b + multiset{e}) + c
  {
  }

  lemma Appended(items: seq<Entry>, e: Entry)
    ensures multiset(items + [e]) == multiset(items) + multiset{e}
  {
  }

  lemma CancelConserves(b: Box, index: nat)
    requires Conserved(b) && index < |b.queue|
    ensures var e := b.queue[index];
      Conserved(b.(queue := Remove(b.queue, index), settling := b.settling + [e], cancelled := b.cancelled + [e]))
  {
    var e := b.queue[index];
    RemovedOne(b.queue, index);
    AddOne(multiset(b.settling), multiset(b.settled), multiset(b.cancelled), multiset(Returned(b)), e);
    Appended(b.settling, e);
    Appended(b.cancelled, e);
    MoveOne(multiset(Remove(b.queue, index)), multiset(b.cancelled), multiset(b.started), e);
  }

  lemma CancelKeeps(b: Box, id: string)
    requires Inv(b)
    ensures Inv(Step(b, CancelEntry(id)))
  {
    var index := Find(b.queue, id, 0);
    if index.Some? {
      CancelConserves(b, index.value);
      AscendingWithout(b.started, b.queue, index.value);
    }
  }

  lemma DrainKeeps(b: Box)
    requires Numbered(b) && Conserved(b) && Fifo(b) && !b.handling.Busy?
    ensures Inv(Drain(b))
  {
    if b.handling == Free && b.queue != [] {
      var e := b.queue[0];
      assert b.queue == [e] + b.queue[1..];
      assert (b.started + [e]) + b.queue[1..] == b.started + b.queue;
      assert (b.started + [e])[..|b.started|] == b.started;
    }
  }

  lemma HandledConserves(b: Box)
    requires Conserved(b) && OneAtATime(b) && b.handling.Busy?
    ensures Conserved(Step(b, Handled))
  {
    var e := b.handling.entry;
    BusyReturned(b);
    AddOne(multiset(b.settling), multiset(b.settled), multiset(b.cancelled), multiset(Returned(b)), e);
    Appended(b.settling, e);
  }

  lemma HandledKeeps(b: Box)
    requires Inv(b) && b.handling.Busy?
    ensures Inv(Step(b, Handled))
  {
    HandledConserves(b);
  }

  lemma SettleConserves(b: Box, index: nat)
    requires Conserved(b)
    ensures Conserved(Step(b, Settle(index)))
  {
    if index < |b.settling| { RemovedOne(b.settling, index); }
  }

  lemma SettleKeeps(b: Box, index: nat)
    requires Inv(b)
    ensures Inv(Step(b, Settle(index)))
  {
    SettleConserves(b, index);
  }

  lemma RunDrainKeeps(b: Box)
    requires Inv(b)
    ensures Inv(Step(b, RunDrain))
  {
    if b.drains > 0 && !b.handling.Busy? { DrainKeeps(b.(drains := b.drains - 1)); }
  }

  lemma NextKeeps(b: Box)
    requires Inv(b)
    ensures Inv(Step(b, Next))
  {
    if b.handling.Done? { DrainKeeps(b.(handling := Free)); }
  }

  lemma StepKeeps(b: Box, a: Action)
    requires Inv(b)
    ensures Inv(Step(b, a))
  {
    match a
    case Enqueue(id) => EnqueueKeeps(b, id);
    case CancelEntry(id) => CancelKeeps(b, id);
    case RunDrain => RunDrainKeeps(b);
    case Handled => if b.handling.Busy? { HandledKeeps(b); }
    case Next => NextKeeps(b);
    case Settle(index) => SettleKeeps(b, index);
  }

  lemma {:induction false} RunInv(actions: seq<Action>)
    ensures Inv(After(actions))
  {
    if actions != [] {
      RunInv(actions[..|actions| - 1]);
      StepKeeps(After(actions[..|actions| - 1]), actions[|actions| - 1]);
    }
  }

  // ------------------------------------------------------------ main theorems

  lemma SameIdSameEntry(b: Box, e: Entry, f: Entry)
    requires Numbered(b) && e in b.all && f in b.all && e.id == f.id
    ensures e == f
  {
  }

  /** Handlers start one at a time, in admission order, and at most once for each message ID. */
  lemma HandlersStartInOrderOnce(actions: seq<Action>, i: nat, j: nat)
    requires i < j < |After(actions).started|
    ensures After(actions).started[i].sequence < After(actions).started[j].sequence
    ensures After(actions).started[i].id != After(actions).started[j].id
    ensures After(actions).started[i] in Returned(After(actions))
  {
    RunInv(actions);
    var b := After(actions);
    var live := b.started + b.queue;
    assert live[i] == b.started[i] && live[j] == b.started[j];
    MemberOfAll(b, b.started[i]);
    MemberOfAll(b, b.started[j]);
    if b.started[i].id == b.started[j].id { SameIdSameEntry(b, b.started[i], b.started[j]); }
    assert Returned(b)[i] == b.started[i];
  }

  lemma {:induction false} OnceInAll(all: seq<Entry>, e: Entry)
    requires forall i, j :: 0 <= i < j < |all| ==> all[i].id != all[j].id
    ensures multiset(all)[e] <= 1
  {
    if all != [] {
      var rest, last := all[..|all| - 1], all[|all| - 1];
      assert all == rest + [last];
      OnceInAll(rest, e);
      if last == e { assert e !in rest; }
    }
  }

  /** What was cancelled while it waited never runs. */
  lemma CancelledNeverStarts(actions: seq<Action>, e: Entry)
    requires e in After(actions).cancelled
    ensures e !in After(actions).started && e !in After(actions).queue
    ensures forall f :: f in After(actions).started ==> f.id != e.id
  {
    RunInv(actions);
    var b := After(actions);
    OnceInAll(b.all, e);
    MemberOfAll(b, e);
    assert multiset(b.queue)[e] + multiset(b.cancelled)[e] + multiset(b.started)[e] <= 1;
    forall f | f in b.started ensures f.id != e.id {
      MemberOfAll(b, f);
      if f.id == e.id { SameIdSameEntry(b, e, f); }
    }
  }

  /** The entries still on their way: queued, being handled, or settling. */
  function Live(b: Box): multiset<Entry> {
    multiset(b.queue) + multiset(b.settling) + (if b.handling.Busy? then multiset{b.handling.entry} else multiset{})
  }

  lemma LiveConserves(b: Box)
    requires Conserved(b) && OneAtATime(b)
    ensures multiset(b.settled) + Live(b) == multiset(b.all) && |Live(b)| == b.pending
  {
    var q, c, r := multiset(b.queue), multiset(b.cancelled), multiset(Returned(b));
    var sg, sd := multiset(b.settling), multiset(b.settled);
    var busy := if b.handling.Busy? then multiset{b.handling.entry} else multiset{};
    if b.handling.Busy? { BusyReturned(b); }
    assert multiset(b.started) == r + busy;
    assert sd + (q + sg + busy) == (sg + sd) + q + busy;
    assert q + c + (r + busy) == (c + r) + q + busy;
  }

  /** Idle is truthful: nothing is queued, running or settling, and every message ever admitted has settled. */
  lemma IdleMeansAllSettled(actions: seq<Action>)
    ensures var b := After(actions);
      && (IsIdle(b) <==> b.queue == [] && b.settling == [] && !b.handling.Busy?)
      && (IsIdle(b) <==> multiset(b.settled) == multiset(b.all))
  {
    RunInv(actions);
    var b := After(actions);
    LiveConserves(b);
    assert Live(b) == multiset{} <==> |Live(b)| == 0;
  }

  // ------------------------------------------------------------------ the object

  /** The mailbox itself; `results` holds an entry for every message ID it has ever seen. */
  class InMemoryMailbox {
    var results: map<string, nat>
    var queue: seq<Entry>
    var handling: Handling
    var pending: nat
    var nextSequence: nat
    ghost var settling: seq<Entry>
    ghost var drains: nat
    ghost var all: seq<Entry>
    ghost var started: seq<Entry>
    ghost var cancelled: seq<Entry>
    ghost var settled: seq<Entry>

    constructor ()
      ensures Valid() && State() == EMPTY
    {
      results, queue, handling, pending, nextSequence := map[], [], Free, 0, 1;
      settling, drains, all, started, cancelled, settled := [], 0, [], [], [], [];
    }

    ghost function State(): Box
      reads this
    {
      Box(queue, handling, settling, pending, drains, all, started, cancelled, settled)
    }

    ghost predicate Valid()
      reads this
    {
      nextSequence == |all| + 1 && forall id :: id in results <==> Known(State(), id)
    }

    method Admit(id: string) returns (isNew: bool)
      requires Valid()
      modifies this
      ensures Valid() && State() == Step(old(State()), Enqueue(id))
      ensures isNew <==> id !in old(results)
    {
      if id in results { return false; }
      var e := Entry(id, nextSequence);
      nextSequence := nextSequence + 1;
      pending := pending + 1;
      results := results[id := e.sequence];
      queue := queue + [e];
      drains := drains + 1;
      all := all + [e];
      assert forall f :: f in all <==> f in old(all) || f == e;
      isNew := true;
    }

    method CancelWaiting(id: string) returns (found: bool)
      requires Valid()
      modifies this`queue, this`settling, this`cancelled
      ensures Valid() && State() == Step(old(State()), CancelEntry(id))
      ensures found <==> Find(old(queue), id, 0).Some?
    {
      var index := 0;
      while index < |queue| && queue[index].id != id
        invariant 0 <= index <= |queue|
        invariant Find(queue, id, 0) == Find(queue, id, index)
      {
        index := index + 1;
      }
      if index == |queue| { return false; }
      settling := settling + [queue[index]];
      cancelled := cancelled + [queue[index]];
      queue := queue[..index] + queue[index + 1..];
      found := true;
    }

    /** Calls the next handler, if none is running; the handler returns in a later step. */
    method StartNext() returns (called: Option<Entry>)
      requires Valid() && handling != Done
      modifies this`queue, this`handling, this`started
      ensures Valid() && State() == Drain(old(State()))
      ensures called.Some? <==> old(handling) == Free && old(queue) != []
      ensures called.Some? ==> called.value == old(queue)[0] && handling == Busy(called.value)
    {
      if handling.Busy? || |queue| == 0 { return None; }
      var e := queue[0];
      queue := queue[1..];
      handling := Busy(e);
      started := started + [e];
      called := Some(e);
    }

    method SettleOne(ghost index: nat)
      requires Valid() && index < |settling| && pending > 0
      modifies this`pending, this`settling, this`settled
      ensures Valid() && State() == Step(old(State()), Settle(index))
    {
      settled := settled + [settling[index]];
      settling := Remove(settling, index);
      pending := pending - 1;
    }
  }
}
