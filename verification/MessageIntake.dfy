/**
 The reservations of messages together with the mailbox that runs their handlers: admitting a
 message enqueues it, cancelling it takes it out of the queue, and its handler marks it running.
 */
module MessageIntake {
  import opened Wrappers
  import B = Mailbox
  import Canonical
  import M = RuntimeMessages

  datatype Intake = Intake(messages: M.Messages, box: B.Box)

  datatype Action =
    | Admit(id: string, envelope: Canonical.Text, bytes: nat)
    | Cancel(id: string, byDeadline: bool)
    | Drains(next: bool)                    // a scheduled drain, or the one after a result
    | Handled
    | SettleEntry(index: nat)
    | SettleReceipt(entry: B.Entry, ok: bool)
    | GiveBack(id: string)

  const EMPTY := Intake(M.EMPTY, B.EMPTY)

  predicate Cancels(m: M.Messages, id: string) {
    id in m.records && (m.records[id].receipt.Queued? || m.records[id].receipt.Running?)
  }

  /** A receipt settles after its result, and succeeds only when its handler returned. */
  predicate HasResult(b: B.Box, e: B.Entry, ok: bool) {
    e in b.settling + b.settled && (ok ==> e in b.started)
  }

  function DrainAction(next: bool): B.Action {
    if next then B.Next else B.RunDrain
  }

  function DrainStep(i: Intake, next: bool): Intake {
    var box := B.Step(i.box, DrainAction(next));
    Intake(Mark(i.messages, i.box.started, box.started), box)
  }

  /** The handler of the entry that left the queue runs up to its first await: it marks the message started. */
  function Mark(m: M.Messages, before: seq<B.Entry>, started: seq<B.Entry>): M.Messages {
    if |started| > |before| then M.Step(m, M.Start(started[|started| - 1].id)) else m
  }

  function Step(i: Intake, a: Action): Intake {
    match a
    case Admit(id, envelope, bytes) =>
      if !M.Judge(i.messages, id, envelope, bytes).Accepted? then i
      else Intake(M.Step(i.messages, M.Admit(id, envelope, bytes)), B.Step(i.box, B.Enqueue(id)))
    case Cancel(id, byDeadline) =>
      if !Cancels(i.messages, id) then i
      else Intake(M.Step(i.messages, M.Cancel(id, byDeadline)), B.Step(i.box, B.CancelEntry(id)))
    case Drains(next) => DrainStep(i, next)
    case Handled => i.(box := B.Step(i.box, B.Handled))
    case SettleEntry(index) => i.(box := B.Step(i.box, B.Settle(index)))
    case SettleReceipt(entry, ok) =>
      if !HasResult(i.box, entry, ok) then i else i.(messages := M.Step(i.messages, M.Settle(entry.id, ok)))
    case GiveBack(id) => i.(messages := M.Step(i.messages, M.GiveBack(id)))
  }

  function After(actions: seq<Action>): Intake {
    if actions == [] then EMPTY else Step(After(actions[..|actions| - 1]), actions[|actions| - 1])
  }

  // ------------------------------------------------------------------- invariant

  /** Each entry has a record; it is queued in both or in neither, and what runs or succeeded has been started. */
  ghost predicate Agree(records: map<string, M.Reservation>, b: B.Box) {
    && (forall id :: id in records <==> B.Known(b, id))
    && (forall e :: e in b.all ==> e.id in records && (e in b.queue <==> records[e.id].receipt.Queued?))
    && (forall e :: e in b.all && (records[e.id].receipt.Running? || records[e.id].receipt.Succeeded?) ==> e in b.started)
  }

  ghost predicate Inv(i: Intake) {
    M.Inv(i.messages) && B.Inv(i.box) && Agree(i.messages.records, i.box)
  }

  /** Each entry is in one place: queued, cancelled or started. */
  lemma OnePlace(b: B.Box, e: B.Entry)
    requires B.Inv(b)
    ensures e in b.queue || e in b.cancelled || e in b.started <==> e in b.all
    ensures multiset(b.queue)[e] + multiset(b.cancelled)[e] + multiset(b.started)[e] <= 1
  {
    B.OnceInAll(b.all, e);
    assert multiset(b.all)[e] == multiset(b.queue)[e] + multiset(b.cancelled)[e] + multiset(b.started)[e];
    assert e in multiset(b.all) <==> e in b.all;
  }

  /** A result belongs to an entry that was cancelled or started, so to none in the queue. */
  lemma ResultIsNotQueued(b: B.Box, e: B.Entry)
    requires B.Inv(b) && e in b.settling + b.settled
    ensures e in b.all && e !in b.queue
  {
    OnePlace(b, e);
    assert e in multiset(b.settling) + multiset(b.settled);
    assert e in multiset(b.cancelled) || e in multiset(B.Returned(b));
    assert e in b.cancelled || e in b.started;
  }

  lemma KnownGrows(b: B.Box, t: B.Box, added: B.Entry)
    requires t.all == b.all + [added]
    ensures forall id :: B.Known(t, id) <==> B.Known(b, id) || id == added.id
  {
    forall id | B.Known(b, id) ensures B.Known(t, id) {
      var e :| e in b.all && e.id == id;
      assert e in t.all;
    }
    assert added in t.all;
  }

  lemma EnqueueAgrees(records: map<string, M.Reservation>, b: B.Box, t: B.Box, added: B.Entry, r: M.Reservation)
    requires B.Inv(b) && Agree(records, b) && added.id !in records && r.receipt.Queued?
    requires t.all == b.all + [added] && t.queue == b.queue + [added] && t.started == b.started
    ensures Agree(records[added.id := r], t)
  {
    KnownGrows(b, t, added);
    forall e | e in b.all ensures B.Known(b, e.id) {}
  }

  lemma AdmitAgrees(i: Intake, id: string, envelope: Canonical.Text, bytes: nat)
    requires B.Inv(i.box) && Agree(i.messages.records, i.box) && M.Judge(i.messages, id, envelope, bytes).Accepted?
    ensures var t := Step(i, Admit(id, envelope, bytes)); Agree(t.messages.records, t.box)
  {
    var t, added := Step(i, Admit(id, envelope, bytes)), B.Entry(id, |i.box.all| + 1);
    assert !B.Known(i.box, id);
    EnqueueAgrees(i.messages.records, i.box, t.box, added, t.messages.records[id]);
  }

  /** Taking an entry out of the queue leaves exactly the entries of other messages. */
  lemma TakenOut(b: B.Box, index: nat, e: B.Entry)
    requires B.Inv(b) && index < |b.queue| && e in b.all
    ensures e in B.Remove(b.queue, index) <==> e in b.queue && e.id != b.queue[index].id
  {
    var first := b.queue[index];
    B.RemovedOne(b.queue, index);
    OnePlace(b, first);
    OnePlace(b, e);
    if e.id == first.id { B.SameIdSameEntry(b, e, first); }
    assert e in B.Remove(b.queue, index) <==> multiset(B.Remove(b.queue, index))[e] > 0;
    assert e in b.queue <==> multiset(b.queue)[e] > 0;
  }

  lemma SameAllSameKnown(b: B.Box, t: B.Box)
    requires t.all == b.all
    ensures forall id :: B.Known(t, id) <==> B.Known(b, id)
  {
  }

  lemma CancelAgrees(i: Intake, id: string, byDeadline: bool)
    requires B.Inv(i.box) && Agree(i.messages.records, i.box) && Cancels(i.messages, id)
    ensures var t := Step(i, Cancel(id, byDeadline)); Agree(t.messages.records, t.box)
  {
    var b, t, index := i.box, Step(i, Cancel(id, byDeadline)), B.Find(i.box.queue, id, 0);
    SameAllSameKnown(b, t.box);
    forall e | e in b.all ensures e in t.box.queue <==> e in b.queue && e.id != id {
      if index.Some? { TakenOut(b, index.value, e); }
    }
  }

  lemma Drained(b: B.Box, next: bool)
    ensures var t := B.Step(b, DrainAction(next));
      && t.all == b.all && t.cancelled == b.cancelled
      && if |t.started| > |b.started|
         then b.queue != [] && t.queue == B.Remove(b.queue, 0) && t.started == b.started + [b.queue[0]]
         else t.queue == b.queue && t.started == b.started
  {
    if b.queue != [] { assert B.Remove(b.queue, 0) == b.queue[1..]; }
  }

  lemma DrainAgrees(i: Intake, next: bool)
    requires B.Inv(i.box) && Agree(i.messages.records, i.box)
    requires forall id :: id in i.messages.records ==> M.ReceiptOk(i.messages.records[id])
    ensures var t := DrainStep(i, next); Agree(t.messages.records, t.box)
  {
    var t := DrainStep(i, next);
    Drained(i.box, next);
    SameAllSameKnown(i.box, t.box);
    if |t.box.started| > |i.box.started| { StartAgrees(i, t.box); }
  }

  lemma StartAgrees(i: Intake, box: B.Box)
    requires B.Inv(i.box) && Agree(i.messages.records, i.box) && i.box.queue != []
    requires i.box.queue[0].id in i.messages.records ==> M.ReceiptOk(i.messages.records[i.box.queue[0].id])
    requires box.all == i.box.all && box.queue == B.Remove(i.box.queue, 0)
    requires box.started == i.box.started + [i.box.queue[0]]
    ensures Agree(M.Step(i.messages, M.Start(i.box.queue[0].id)).records, box)
  {
    var b, first := i.box, i.box.queue[0];
    OnePlace(b, first);
    SameAllSameKnown(b, box);
    forall e | e in b.all ensures e in box.queue <==> e in b.queue && e.id != first.id { TakenOut(b, 0, e); }
    forall e | e in b.all && e.id == first.id ensures e == first { B.SameIdSameEntry(b, e, first); }
  }

  lemma SettleAgrees(i: Intake, e: B.Entry, ok: bool)
    requires B.Inv(i.box) && Agree(i.messages.records, i.box) && HasResult(i.box, e, ok)
    ensures var t := Step(i, SettleReceipt(e, ok)); Agree(t.messages.records, t.box)
  {
    ResultIsNotQueued(i.box, e);
    forall other | other in i.box.all && other.id == e.id ensures other == e { B.SameIdSameEntry(i.box, other, e); }
  }

  lemma BoxSame(b: B.Box, a: B.Action)
    requires a.Handled? || a.Settle?
    ensures var t := B.Step(b, a); t.all == b.all && t.queue == b.queue && t.started == b.started
  {
  }

  lemma BoxAgrees(records: map<string, M.Reservation>, b: B.Box, t: B.Box)
    requires Agree(records, b) && t.all == b.all && t.queue == b.queue && t.started == b.started
    ensures Agree(records, t)
  {
    SameAllSameKnown(b, t);
  }

  lemma BoxKeeps(i: Intake, a: B.Action)
    requires Inv(i) && (a.Handled? || a.Settle?)
    ensures Inv(i.(box := B.Step(i.box, a)))
  {
    B.StepKeeps(i.box, a);
    BoxSame(i.box, a);
    BoxAgrees(i.messages.records, i.box, B.Step(i.box, a));
  }

  lemma GiveBackKeeps(i: Intake, id: string)
    requires Inv(i)
    ensures Inv(Step(i, GiveBack(id)))
  {
    M.StepKeeps(i.messages, M.GiveBack(id));
  }

  lemma MarkKeeps(m: M.Messages, before: seq<B.Entry>, started: seq<B.Entry>)
    requires M.Inv(m)
    ensures M.Inv(Mark(m, before, started))
  {
    if |started| > |before| { M.StepKeeps(m, M.Start(started[|started| - 1].id)); }
  }

  lemma DrainBox(i: Intake, next: bool)
    requires B.Inv(i.box)
    ensures B.Inv(DrainStep(i, next).box)
  {
    B.StepKeeps(i.box, DrainAction(next));
  }

  lemma DrainKeeps(i: Intake, next: bool)
    requires Inv(i)
    ensures Inv(DrainStep(i, next))
  {
    MarkKeeps(i.messages, i.box.started, B.Step(i.box, DrainAction(next)).started);
    DrainBox(i, next);
    DrainAgrees(i, next);
  }

  lemma CommandKeeps(i: Intake, a: Action)
    requires Inv(i) && (a.Admit? || a.Cancel? || a.SettleReceipt?)
    ensures Inv(Step(i, a))
  {
    match a
    case Admit(id, envelope, bytes) =>
      M.StepKeeps(i.messages, M.Admit(id, envelope, bytes));
      B.StepKeeps(i.box, B.Enqueue(id));
      if M.Judge(i.messages, id, envelope, bytes).Accepted? { AdmitAgrees(i, id, envelope, bytes); }
    case Cancel(id, byDeadline) =>
      M.StepKeeps(i.messages, M.Cancel(id, byDeadline));
      B.StepKeeps(i.box, B.CancelEntry(id));
      if Cancels(i.messages, id) { CancelAgrees(i, id, byDeadline); }
    case SettleReceipt(entry, ok) =>
      M.StepKeeps(i.messages, M.Settle(entry.id, ok));
      if HasResult(i.box, entry, ok) { SettleAgrees(i, entry, ok); }
  }

  lemma StepKeeps(i: Intake, a: Action)
    requires Inv(i)
    ensures Inv(Step(i, a))
  {
    match a
    case Drains(next) => DrainKeeps(i, next);
    case Handled => BoxKeeps(i, B.Handled);
    case SettleEntry(index) => BoxKeeps(i, B.Settle(index));
    case GiveBack(id) => GiveBackKeeps(i, id);
    case _ => CommandKeeps(i, a);
  }

  lemma {:induction false} RunInv(actions: seq<Action>)
    ensures Inv(After(actions))
  {
    if actions != [] {
      RunInv(actions[..|actions| - 1]);
      StepKeeps(After(actions[..|actions| - 1]), actions[|actions| - 1]);
    }
  }

  // ------------------------------------------------------------------ theorems

  predicate Ran(b: B.Box, id: string) {
    exists e :: e in b.started && e.id == id
  }

  /** A message succeeds, or runs, only if its handler was started; and a queued one has not been. */
  lemma SucceedsOnlyIfItRan(actions: seq<Action>, id: string)
    requires id in After(actions).messages.records
    ensures var i, receipt := After(actions), After(actions).messages.records[id].receipt;
      && (receipt.Running? || receipt.Succeeded? ==> Ran(i.box, id))
      && (receipt.Queued? ==> !Ran(i.box, id))
  {
    RunInv(actions);
    var i := After(actions);
    var e :| e in i.box.all && e.id == id;
    OnePlace(i.box, e);
    forall f | f in i.box.started && f.id == id ensures f == e {
      OnePlace(i.box, f);
      B.SameIdSameEntry(i.box, e, f);
    }
  }

  /** Cancelled before its handler was started. */
  ghost predicate Withdrawn(i: Intake, id: string) {
    id in i.messages.records && i.messages.records[id].aborted && exists e :: e in i.box.cancelled && e.id == id
  }

  lemma WithdrawnNeverRan(i: Intake, id: string)
    requires Inv(i) && Withdrawn(i, id)
    ensures !Ran(i.box, id)
    ensures var receipt := i.messages.records[id].receipt; receipt.Cancelling? || receipt.Failed? || receipt.TimedOut?
  {
    var e :| e in i.box.cancelled && e.id == id;
    OnePlace(i.box, e);
    assert M.ReceiptOk(i.messages.records[id]);
    forall f | f in i.box.started ensures f.id != id {
      OnePlace(i.box, f);
      if f.id == id { B.SameIdSameEntry(i.box, e, f); }
    }
  }

  lemma CancelWithdraws(i: Intake, id: string, byDeadline: bool)
    requires Inv(i) && id in i.messages.records && i.messages.records[id].receipt.Queued?
    ensures Withdrawn(Step(i, Cancel(id, byDeadline)), id)
  {
    var b, t := i.box, Step(i, Cancel(id, byDeadline));
    var e :| e in b.all && e.id == id;
    assert e in b.queue;
    var index := B.Find(b.queue, id, 0).value;
    assert b.queue[index] in t.box.cancelled;
  }

  lemma CancelledStay(i: Intake, a: Action, e: B.Entry)
    requires e in i.box.cancelled
    ensures e in Step(i, a).box.cancelled
  {
  }

  lemma AbortedStays(i: Intake, a: Action, id: string)
    requires id in i.messages.records && i.messages.records[id].aborted
    ensures id in Step(i, a).messages.records && Step(i, a).messages.records[id].aborted
  {
  }

  lemma WithdrawnStays(i: Intake, a: Action, id: string)
    requires Withdrawn(i, id)
    ensures Withdrawn(Step(i, a), id)
  {
    var e :| e in i.box.cancelled && e.id == id;
    CancelledStay(i, a, e);
    AbortedStays(i, a, id);
  }

  lemma AfterOneMore(actions: seq<Action>, a: Action)
    ensures After(actions + [a]) == Step(After(actions), a)
  {
    assert (actions + [a])[..|actions|] == actions;
  }

  lemma {:induction false} WithdrawnForever(before: seq<Action>, after: seq<Action>, id: string)
    requires Withdrawn(After(before), id)
    ensures Withdrawn(After(before + after), id)
  {
    if after == [] {
      assert before + after == before;
    } else {
      var shorter, a := after[..|after| - 1], after[|after| - 1];
      WithdrawnForever(before, shorter, id);
      WithdrawnStays(After(before + shorter), a, id);
      assert before + after == (before + shorter) + [a];
      AfterOneMore(before + shorter, a);
    }
  }

  /**
   A message that is cancelled while it is queued never runs, whatever is drained, settled, retried or
   cancelled later: no handler is ever started for it, and its receipt ends failed or timed out.
   */
  lemma CancelledWhileQueuedNeverRuns(before: seq<Action>, id: string, byDeadline: bool, after: seq<Action>)
    requires id in After(before).messages.records && After(before).messages.records[id].receipt.Queued?
    ensures var i := After(before + [Cancel(id, byDeadline)] + after);
      && !Ran(i.box, id) && id in i.messages.records
      && var receipt := i.messages.records[id].receipt; receipt.Cancelling? || receipt.Failed? || receipt.TimedOut?
  {
    RunInv(before);
    CancelWithdraws(After(before), id, byDeadline);
    AfterOneMore(before, Cancel(id, byDeadline));
    WithdrawnForever(before + [Cancel(id, byDeadline)], after, id);
    RunInv(before + [Cancel(id, byDeadline)] + after);
    WithdrawnNeverRan(After(before + [Cancel(id, byDeadline)] + after), id);
  }

  /** When a handler starts, its message has not been cancelled: the check for an abort at its start never fails. */
  lemma HandlersStartUncancelled(actions: seq<Action>, next: bool)
    requires var i, t := After(actions), After(actions + [Drains(next)]); |t.box.started| > |i.box.started|
    ensures var i, t := After(actions), After(actions + [Drains(next)]);
      var id := t.box.started[|t.box.started| - 1].id;
      && id in i.messages.records && !i.messages.records[id].aborted
      && id in t.messages.records && t.messages.records[id].receipt.Running?
  {
    RunInv(actions);
    AfterOneMore(actions, Drains(next));
    var i := After(actions);
    Drained(i.box, next);
    var first := i.box.queue[0];
    OnePlace(i.box, first);
    assert M.ReceiptOk(i.messages.records[first.id]);
  }
}
