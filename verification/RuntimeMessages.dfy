/**
 Message reservations and their receipts. A delivery settles in one microtask and its
 reservation is given back in the next, so these are separate steps; deadlines fire at any time.
 */
module RuntimeMessages {
  import opened Wrappers
  import Canonical

  const MAX_PENDING_BYTES: nat := 8388608
  const MAX_MESSAGES: nat := 4096

  datatype Receipt = Queued | Running | Cancelling | Succeeded | Failed | TimedOut

  /** `deadline` tells that the cancellation came from the deadline; `held` that the bytes are still reserved. */
  datatype Reservation = Reservation(
    envelope: Canonical.Text, bytes: nat, receipt: Receipt, aborted: bool, deadline: bool, held: bool)

  /** `handed` lists the messages handed to the mailbox; a waiter waits for a completion after its generation. */
  datatype Messages = Messages(
    records: map<string, Reservation>, pendingBytes: nat, generation: nat, waiters: map<nat, nat>, handed: seq<string>)

  datatype Action =
    | Admit(id: string, envelope: Canonical.Text, bytes: nat)
    | Start(id: string)
    | Cancel(id: string, byDeadline: bool)
    | Settle(id: string, ok: bool)
    | GiveBack(id: string)
    | Wait(waiter: nat, seen: nat)
    | StopWaiting(waiter: nat)

  datatype Answer = Accepted | Known(receipt: Receipt) | Conflict | AtCapacity

  const EMPTY := Messages(map[], 0, 0, map[], [])

  predicate Terminal(r: Receipt) {
    r.Succeeded? || r.Failed? || r.TimedOut?
  }

  function Rank(r: Receipt): nat {
    if r.Queued? then 0 else if r.Running? then 1 else if r.Cancelling? then 2 else 3
  }

  function Judge(m: Messages, id: string, envelope: Canonical.Text, bytes: nat): Answer {
    if id in m.records then
      if m.records[id].envelope != envelope then Conflict else Known(m.records[id].receipt)
    else if |m.records| >= MAX_MESSAGES || m.pendingBytes + bytes > MAX_PENDING_BYTES then AtCapacity
    else Accepted
  }

  function Put(m: Messages, id: string, r: Reservation): Messages {
    m.(records := m.records[id := r])
  }

  function AdmitStep(m: Messages, id: string, envelope: Canonical.Text, bytes: nat): Messages {
    if !Judge(m, id, envelope, bytes).Accepted? then m
    else
      Put(m, id, Reservation(envelope, bytes, Queued, false, false, true))
      .(pendingBytes := m.pendingBytes + bytes, handed := m.handed + [id])
  }

  /** What a delivery makes of its receipt. */
  function Outcome(r: Reservation, ok: bool): Receipt {
    if r.aborted then if r.deadline then TimedOut else Failed
    else if ok then Succeeded
    else Failed
  }

  function RecordStep(m: Messages, id: string, r: Reservation, a: Action): Messages {
    match a
    case Start(_) => if r.aborted || Terminal(r.receipt) then m else Put(m, id, r.(receipt := Running))
    case Cancel(_, byDeadline) =>
      if r.receipt.Queued? || r.receipt.Running? then
        Put(m, id, r.(receipt := Cancelling, aborted := true, deadline := byDeadline))
      else m
    case Settle(_, ok) => if Terminal(r.receipt) then m else Put(m, id, r.(receipt := Outcome(r, ok)))
    case GiveBack(_) =>
      if !Terminal(r.receipt) || !r.held || m.pendingBytes < r.bytes then m
      else
        // Every waiter is woken; none can be waiting for an older generation.
        Put(m, id, r.(held := false)).(pendingBytes := m.pendingBytes - r.bytes, generation := m.generation + 1, waiters := map[])
    case _ => m
  }

  function Step(m: Messages, a: Action): Messages {
    match a
    case Admit(id, envelope, bytes) => AdmitStep(m, id, envelope, bytes)
    case Wait(waiter, seen) => if seen != m.generation then m else m.(waiters := m.waiters[waiter := seen])
    case StopWaiting(waiter) => m.(waiters := m.waiters - {waiter})
    case _ => if a.id in m.records then RecordStep(m, a.id, m.records[a.id], a) else m
  }

  function After(actions: seq<Action>): Messages {
    if actions == [] then EMPTY else Step(After(actions[..|actions| - 1]), actions[|actions| - 1])
  }

  // ---------------------------------------------------------------- reserved bytes

  function Held(r: Reservation): nat {
    if r.held then r.bytes else 0
  }

  /** The bytes of all reservations that have not been given back, in the order of hand-over. */
  function Reserved(records: map<string, Reservation>, handed: seq<string>): nat {
    if handed == [] then 0
    else
      var last := handed[|handed| - 1];
      Reserved(records, handed[..|handed| - 1]) + if last in records then Held(records[last]) else 0
  }

  ghost predicate Distinct(ids: seq<string>) {
    forall i, j :: 0 <= i < j < |ids| ==> ids[i] != ids[j]
  }

  lemma {:induction false} ReservedUntouched(records: map<string, Reservation>, handed: seq<string>, id: string, r: Reservation)
    requires id !in handed
    ensures Reserved(records[id := r], handed) == Reserved(records, handed)
  {
    if handed != [] { ReservedUntouched(records, handed[..|handed| - 1], id, r); }
  }

  lemma {:induction false} ReservedChanges(records: map<string, Reservation>, handed: seq<string>, id: string, r: Reservation)
    requires Distinct(handed) && id in handed && id in records
    ensures Reserved(records[id := r], handed) + Held(records[id]) == Reserved(records, handed) + Held(r)
  {
    var rest, last := handed[..|handed| - 1], handed[|handed| - 1];
    if last == id {
      assert id !in rest;
      ReservedUntouched(records, rest, id, r);
    } else {
      assert handed == rest + [last];
      ReservedChanges(records, rest, id, r);
    }
  }

  ghost predicate BytesOk(m: Messages) {
    && m.pendingBytes == Reserved(m.records, m.handed) <= MAX_PENDING_BYTES
    && |m.records| <= MAX_MESSAGES
    && Distinct(m.handed)
    && (forall id :: id in m.handed <==> id in m.records)
  }

  ghost predicate ReceiptOk(r: Reservation) {
    && (r.receipt.Queued? || r.receipt.Running? || r.receipt.Succeeded? ==> !r.aborted)
    && (r.receipt.Cancelling? || r.receipt.TimedOut? ==> r.aborted)
    && (r.receipt.TimedOut? ==> r.deadline)
    && (!Terminal(r.receipt) ==> r.held)
  }

  ghost predicate Inv(m: Messages) {
    && BytesOk(m)
    && (forall id :: id in m.records ==> ReceiptOk(m.records[id]))
    && (forall w :: w in m.waiters ==> m.waiters[w] == m.generation)
  }

  lemma AddRecord(records: map<string, Reservation>, handed: seq<string>, id: string, r: Reservation)
    requires id !in handed && id !in records
    ensures Reserved(records[id := r], handed + [id]) == Reserved(records, handed) + Held(r)
    ensures |records[id := r]| == |records| + 1
  {
    ReservedUntouched(records, handed, id, r);
    assert (handed + [id])[..|handed|] == handed;
    assert records[id := r].Keys == records.Keys + {id};
  }

  lemma AdmitKeepsBytes(m: Messages, id: string, envelope: Canonical.Text, bytes: nat)
    requires BytesOk(m)
    ensures BytesOk(AdmitStep(m, id, envelope, bytes))
  {
    if Judge(m, id, envelope, bytes).Accepted? {
      var r := Reservation(envelope, bytes, Queued, false, false, true);
      AddRecord(m.records, m.handed, id, r);
    }
  }

  lemma AdmitKeepsReceipts(m: Messages, id: string, envelope: Canonical.Text, bytes: nat)
    requires forall other :: other in m.records ==> ReceiptOk(m.records[other])
    ensures var t := AdmitStep(m, id, envelope, bytes);
      t.waiters == m.waiters && t.generation == m.generation && forall other :: other in t.records ==> ReceiptOk(t.records[other])
  {
  }

  lemma AdmitKeeps(m: Messages, id: string, envelope: Canonical.Text, bytes: nat)
    requires Inv(m)
    ensures Inv(AdmitStep(m, id, envelope, bytes))
  {
    AdmitKeepsBytes(m, id, envelope, bytes);
    AdmitKeepsReceipts(m, id, envelope, bytes);
  }

  lemma PutKeepsBytes(m: Messages, id: string, r: Reservation)
    requires BytesOk(m) && id in m.records
    ensures Reserved(Put(m, id, r).records, m.handed) + Held(m.records[id]) == m.pendingBytes + Held(r)
    ensures |Put(m, id, r).records| == |m.records|
  {
    ReservedChanges(m.records, m.handed, id, r);
    assert Put(m, id, r).records.Keys == m.records.Keys;
  }

  lemma RecordKeepsBytes(m: Messages, id: string, a: Action)
    requires BytesOk(m) && id in m.records && ReceiptOk(m.records[id])
    ensures BytesOk(RecordStep(m, id, m.records[id], a))
  {
    var t := RecordStep(m, id, m.records[id], a);
    if t != m { PutKeepsBytes(m, id, t.records[id]); }
  }

  lemma RecordKeepsReceipts(m: Messages, id: string, a: Action)
    requires id in m.records && forall other :: other in m.records ==> ReceiptOk(m.records[other])
    ensures var t := RecordStep(m, id, m.records[id], a); forall other :: other in t.records ==> ReceiptOk(t.records[other])
  {
    assert ReceiptOk(m.records[id]);
  }

  lemma RecordKeeps(m: Messages, id: string, a: Action)
    requires Inv(m) && id in m.records
    ensures Inv(RecordStep(m, id, m.records[id], a))
  {
    RecordKeepsBytes(m, id, a);
    RecordKeepsReceipts(m, id, a);
  }

  lemma StepKeeps(m: Messages, a: Action)
    requires Inv(m)
    ensures Inv(Step(m, a))
  {
    if a.Admit? {
      AdmitKeeps(m, a.id, a.envelope, a.bytes);
    } else if !a.Wait? && !a.StopWaiting? && a.id in m.records {
      RecordKeeps(m, a.id, a);
    }
  }

  lemma {:induction false} RunInv(actions: seq<Action>)
    ensures Inv(After(actions))
  {
    if actions != [] {
      RunInv(actions[..|actions| - 1]);
      StepKeeps(After(actions[..|actions| - 1]), actions[|actions| - 1]);
    }
  }

  // ------------------------------------------------------------ main theorems

  /** The counter equals the reservations that are still held, and stays within the cap. */
  lemma PendingBytesAreReserved(actions: seq<Action>)
    ensures var m := After(actions); m.pendingBytes == Reserved(m.records, m.handed) <= MAX_PENDING_BYTES
  {
    RunInv(actions);
  }

  /** Each message ID is handed to the mailbox at most once, whatever is retried. */
  lemma HandedOnce(actions: seq<Action>, i: nat, j: nat)
    requires i < |After(actions).handed| && j < |After(actions).handed| && After(actions).handed[i] == After(actions).handed[j]
    ensures i == j
  {
    RunInv(actions);
  }

  /** One receipt has moved on to another, or stayed. */
  predicate Onward(r: Reservation, t: Reservation) {
    Rank(r.receipt) <= Rank(t.receipt) && t.envelope == r.envelope && (Terminal(r.receipt) ==> t.receipt == r.receipt)
  }

  lemma StepMovesForward(m: Messages, a: Action, id: string)
    requires Inv(m) && id in m.records
    ensures id in Step(m, a).records && Onward(m.records[id], Step(m, a).records[id])
  {
    assert ReceiptOk(m.records[id]);
  }

  lemma AfterOneMore(actions: seq<Action>, a: Action)
    ensures After(actions + [a]) == Step(After(actions), a)
  {
    assert (actions + [a])[..|actions|] == actions;
  }

  predicate HasMovedOn(m: Messages, id: string, first: Reservation) {
    id in m.records && Onward(first, m.records[id])
  }

  lemma OneMoreMovesForward(actions: seq<Action>, a: Action, id: string, first: Reservation)
    requires HasMovedOn(After(actions), id, first)
    ensures HasMovedOn(After(actions + [a]), id, first)
  {
    AfterOneMore(actions, a);
    RunInv(actions);
    StepMovesForward(After(actions), a, id);
  }

  /** Receipts only move forward, and a terminal one is fixed. */
  lemma {:induction false} ReceiptsMoveForward(before: seq<Action>, after: seq<Action>, id: string)
    requires id in After(before).records
    ensures HasMovedOn(After(before + after), id, After(before).records[id])
  {
    if after == [] {
      assert before + after == before;
    } else {
      var shorter, a := after[..|after| - 1], after[|after| - 1];
      ReceiptsMoveForward(before, shorter, id);
      assert before + after == (before + shorter) + [a];
      OneMoreMovesForward(before + shorter, a, id, After(before).records[id]);
    }
  }

  /** A cancelled message never succeeds, and only its own deadline makes it time out. */
  lemma CancelledNeverSucceeds(actions: seq<Action>, id: string)
    requires id in After(actions).records
    ensures var r := After(actions).records[id];
      && (r.aborted ==> !r.receipt.Succeeded? && !r.receipt.Running? && !r.receipt.Queued?)
      && (r.receipt.TimedOut? ==> r.aborted && r.deadline)
  {
    RunInv(actions);
    assert ReceiptOk(After(actions).records[id]);
  }

  /** A retry is a conflict exactly when its envelope means something else. */
  lemma RetriesMatchByMeaning(m: Messages, id: string, first: Canonical.Json, retry: Canonical.Json, bytes: nat)
    requires Canonical.WellFormed(first, false) && Canonical.WellFormed(retry, false)
    requires id in m.records && m.records[id].envelope == Canonical.Print(first, false)
    ensures var encoded := Canonical.Print(retry, false);
            && (Judge(m, id, encoded, bytes).Conflict? <==> Canonical.Meaning(first, false) != Canonical.Meaning(retry, false))
            && Step(m, Admit(id, encoded, bytes)) == m
  {
    Canonical.PrintsAgreeExactly(first, retry, false);
  }

  /** No completion is missed: whoever waits has seen every completion so far. */
  lemma WaitersAreCurrent(actions: seq<Action>, w: nat)
    requires w in After(actions).waiters
    ensures After(actions).waiters[w] == After(actions).generation
  {
    RunInv(actions);
  }

  // ------------------------------------------------------------------ the object

  class Intake {
    var records: map<string, Reservation>
    var pendingBytes: nat
    var generation: nat
    var waiters: map<nat, nat>
    ghost var handed: seq<string>

    constructor ()
      ensures State() == EMPTY
    {
      records, pendingBytes, generation, waiters, handed := map[], 0, 0, map[], [];
    }

    ghost function State(): Messages
      reads this
    {
      Messages(records, pendingBytes, generation, waiters, handed)
    }

    method AdmitMessage(id: string, envelope: Canonical.Json, bytes: nat) returns (answer: Answer)
      modifies this`records, this`pendingBytes, this`handed
      ensures var encoded := Canonical.Print(envelope, false);
              answer == Judge(old(State()), id, encoded, bytes) && State() == Step(old(State()), Admit(id, encoded, bytes))
    {
      var encoded := Canonical.Print(envelope, false);
      if id in records {
        if records[id].envelope != encoded { return Conflict; }
        return Known(records[id].receipt);
      }
      if |records| >= MAX_MESSAGES || pendingBytes + bytes > MAX_PENDING_BYTES { return AtCapacity; }
      records := records[id := Reservation(encoded, bytes, Queued, false, false, true)];
      pendingBytes := pendingBytes + bytes;
      handed := handed + [id];
      answer := Accepted;
    }

    method MarkStarted(id: string)
      requires id in records && !Terminal(records[id].receipt)
      modifies this`records
      ensures State() == Step(old(State()), Start(id))
    {
      if !records[id].aborted { records := records[id := records[id].(receipt := Running)]; }
    }

    method CancelMessage(id: string, byDeadline: bool) returns (cancelled: bool)
      requires id in records
      modifies this`records
      ensures State() == Step(old(State()), Cancel(id, byDeadline))
      ensures cancelled <==> Rank(old(records[id].receipt)) < 2
    {
      var r := records[id];
      cancelled := r.receipt.Queued? || r.receipt.Running?;
      if cancelled { records := records[id := r.(receipt := Cancelling, aborted := true, deadline := byDeadline)]; }
    }

    method SettleDelivery(id: string, ok: bool)
      requires id in records && !Terminal(records[id].receipt)
      modifies this`records
      ensures State() == Step(old(State()), Settle(id, ok))
    {
      var r := records[id];
      var receipt := if ok then (if !r.aborted then Succeeded else if r.deadline then TimedOut else Failed)
                     else (if r.aborted && r.deadline then TimedOut else Failed);
      records := records[id := r.(receipt := receipt)];
    }

    method GiveBackBytes(id: string)
      requires id in records && Terminal(records[id].receipt) && records[id].held && records[id].bytes <= pendingBytes
      modifies this
      ensures State() == Step(old(State()), GiveBack(id))
    {
      records := records[id := records[id].(held := false)];
      pendingBytes := pendingBytes - records[id].bytes;
      generation := generation + 1;
      waiters := map[];
    }
  }
}
