/**
 The bounded, cursor-addressed window between producers and a platform poller, against the
 plain log of everything ever appended: cursor `c` names item `c - 1` of the log.
 */
module CursorBuffer {
  import opened Wrappers

  datatype Item<T> = Item(value: T, bytes: nat)

  datatype Entry<T> = Entry(cursor: nat, value: T, bytes: nat)

  datatype ReadError = CursorAhead | CursorExpired | InvalidAcknowledgment

  function Total<T>(items: seq<Item<T>>): nat {
    if items == [] then 0 else items[0].bytes + Total(items[1..])
  }

  function Values<T>(items: seq<Item<T>>): (values: seq<T>)
    ensures |values| == |items|
  {
    seq(|items|, i requires 0 <= i < |items| => items[i].value)
  }

  function Cursors(from: nat, to: nat): (cursors: seq<nat>)
    requires from <= to
  {
    seq(to - from, i requires 0 <= i < to - from => from + i + 1)
  }

  lemma CursorsJoin(a: nat, b: nat, c: nat)
    requires a <= b <= c
    ensures Cursors(a, b) + Cursors(b, c) == Cursors(a, c)
    ensures Cursors(a, b) + [b + 1] == Cursors(a, b + 1)
  {
  }

  function Max(a: nat, b: nat): nat {
    if a < b then b else a
  }

  /** The entries that the log holds above a cursor, up to a limit. */
  function Above<T>(log: seq<Item<T>>, cursor: nat, limit: nat): seq<T>
    requires cursor <= |log|
  {
    Values(log[cursor..if |log| - cursor <= limit then |log| else cursor + limit])
  }

  lemma {:induction false} TotalConcat<T>(a: seq<Item<T>>, b: seq<Item<T>>)
    ensures Total(a + b) == Total(a) + Total(b)
  {
    if a == [] {
      assert a + b == b;
    } else {
      assert (a + b)[1..] == a[1..] + b;
      TotalConcat(a[1..], b);
    }
  }

  lemma TotalHead<T>(log: seq<Item<T>>, head: nat)
    requires head < |log|
    ensures Total(log[head..]) == log[head].bytes + Total(log[head + 1..])
  {
  }

  class CursorBuffer<T> {
    const maxPending: nat
    const maxPendingBytes: nat
    const maxBatch: nat
    var entries: seq<Entry<T>>
    var nextCursor: nat
    var acknowledged: nat
    var delivered: nat
    var pendingBytes: nat
    ghost var log: seq<Item<T>>
    ghost var settled: seq<nat>

    constructor (maxPending: nat, maxPendingBytes: nat, maxBatch: nat)
      requires maxBatch > 0
      ensures Valid() && log == [] && acknowledged == delivered == 0
      ensures this.maxPending == maxPending && this.maxPendingBytes == maxPendingBytes && this.maxBatch == maxBatch
    {
      this.maxPending, this.maxPendingBytes, this.maxBatch := maxPending, maxPendingBytes, maxBatch;
      entries, nextCursor, acknowledged, delivered, pendingBytes, log, settled := [], 1, 0, 0, 0, [], [];
    }

    /**
     The window is exactly the log after the acknowledged cursor, its byte count is true, and
     the producers that have settled are exactly the acknowledged ones, once each, in order.
     */
    ghost predicate Valid()
      reads this
    {
      && maxBatch > 0
      && nextCursor == |log| + 1
      && acknowledged <= delivered <= |log|
      && |entries| == |log| - acknowledged
      && (forall i :: 0 <= i < |entries| ==>
            entries[i] == Entry(acknowledged + i + 1, log[acknowledged + i].value, log[acknowledged + i].bytes))
      && pendingBytes == Total(log[acknowledged..])
      && settled == Cursors(0, acknowledged)
    }

    predicate HasCapacity(bytes: nat)
      reads this
    {
      |entries| < maxPending && pendingBytes + bytes <= maxPendingBytes
    }

    method Append(value: T, bytes: nat) returns (cursor: nat)
      requires Valid()
      modifies this
      ensures Valid() && log == old(log) + [Item(value, bytes)] && cursor == |log|
      ensures acknowledged == old(acknowledged) && delivered == old(delivered) && settled == old(settled)
    {
      cursor := nextCursor;
      nextCursor := nextCursor + 1;
      entries := entries + [Entry(cursor, value, bytes)];
      pendingBytes := pendingBytes + bytes;
      log := log + [Item(value, bytes)];
      assert log[acknowledged..] == old(log)[acknowledged..] + [Item(value, bytes)];
      TotalConcat(old(log)[acknowledged..], [Item(value, bytes)]);
    }

    /** Removes entries from the head and settles each producer as its entry leaves. */
    method Acknowledge(after: nat) returns (removed: Result<bool, ReadError>)
      requires Valid()
      modifies this
      ensures Valid() && log == old(log) && delivered == old(delivered)
      ensures removed.Err? <==> after > old(delivered)
      ensures removed.Err? ==> acknowledged == old(acknowledged) && settled == old(settled)
      ensures removed.Ok? ==> acknowledged == Max(old(acknowledged), after)
      ensures removed.Ok? ==> settled == old(settled) + Cursors(old(acknowledged), acknowledged)
      ensures removed.Ok? ==> (removed.value <==> acknowledged > old(acknowledged))
    {
      if after > delivered { return Err(InvalidAcknowledgment); }
      var head := acknowledged;
      acknowledged := if after > acknowledged then after else acknowledged;
      var any := false;
      while |entries| > 0 && entries[0].cursor <= after
        invariant old(acknowledged) <= head <= acknowledged == Max(old(acknowledged), after) <= delivered <= |log|
        invariant log == old(log) && delivered == old(delivered) && nextCursor == |log| + 1
        invariant |entries| == |log| - head
        invariant forall i :: 0 <= i < |entries| ==> entries[i] == Entry(head + i + 1, log[head + i].value, log[head + i].bytes)
        invariant pendingBytes == Total(log[head..])
        invariant settled == old(settled) + Cursors(old(acknowledged), head)
        invariant any <==> head > old(acknowledged)
        decreases |entries|
      {
        var entry := entries[0];
        TotalHead(log, head);
        entries := entries[1..];
        pendingBytes := pendingBytes - entry.bytes;
        settled := settled + [entry.cursor];
        CursorsJoin(old(acknowledged), head, head);
        head := head + 1;
        any := true;
      }
      CursorsJoin(0, old(acknowledged), head);
      removed := Ok(any);
    }

    /** The checks that `read` makes before it waits. */
    method BeginRead(after: nat, acknowledge: bool) returns (result: Result<bool, ReadError>)
      requires Valid()
      modifies this
      ensures Valid() && log == old(log) && delivered == old(delivered)
      ensures result.Err? <==> after > |log| || after < old(acknowledged) || (acknowledge && after > delivered)
      ensures acknowledged == if result.Ok? && acknowledge then after else old(acknowledged)
    {
      if after > nextCursor - 1 { return Err(CursorAhead); }
      if after < acknowledged { return Err(CursorExpired); }
      if acknowledge { result := Acknowledge(after); } else { result := Ok(false); }
    }

    /** One turn of the read loop: what the log holds above both cursors, found by offset in the window. */
    method Take(after: nat) returns (values: seq<T>)
      requires Valid() && after <= |log|
      modifies this`delivered
      ensures Valid()
      ensures values == Above(log, Max(after, acknowledged), maxBatch)
      ensures delivered == if values == [] then old(delivered) else Max(old(delivered), Max(after, acknowledged) + |values|)
    {
      var start := 0;
      if |entries| > 0 && after + 1 > entries[0].cursor { start := after + 1 - entries[0].cursor; }
      assert acknowledged + start == Max(after, acknowledged) && start <= |entries|;
      var end := if |entries| - start <= maxBatch then |entries| else start + maxBatch;
      values := [];
      var i := start;
      while i < end
        invariant start <= i <= end
        invariant |values| == i - start
        invariant forall k :: 0 <= k < |values| ==> values[k] == log[acknowledged + start + k].value
      {
        values := values + [entries[i].value];
        i := i + 1;
      }
      assert values == Values(log[acknowledged + start..acknowledged + end]);
      if values != [] && entries[end - 1].cursor > delivered { delivered := entries[end - 1].cursor; }
    }
  }
}
