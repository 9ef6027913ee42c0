/**
 Session output: any number of publishers and pollers share one cursor buffer. A publisher
 waits for capacity, and checks it again when it resumes, in the same stretch as the append.
 */
module OutputHandoff {
  import opened Wrappers
  import opened CursorBuffer

  const MAX_EVENT_BYTES: nat := 65536
  const MAX_PENDING: nat := 256
  const MAX_PENDING_BYTES: nat := 1048576
  const MAX_BATCH: nat := 64

  datatype Stage = Checking(bytes: nat) | Waiting(bytes: nat) | Appended(cursor: nat) | Aborted

  datatype Poll = Polling(after: nat) | Sleeping(after: nat) | Returned(after: nat, from: nat, ids: seq<nat>)

  /** The item at each cursor holds the ID of its publisher. */
  datatype Handoff = Handoff(
    log: seq<Item<nat>>, acknowledged: nat, delivered: nat, publishers: map<nat, Stage>, polls: map<nat, Poll>)

  datatype Action =
    | Publish(id: nat, bytes: nat)
    | Resume(id: nat)
    | AbortPublish(id: nat)
    | Acknowledge(after: nat)
    | Read(id: nat, after: nat, acknowledge: bool)
    | Turn(id: nat)
    | AbortRead(id: nat)

  const EMPTY := Handoff([], 0, 0, map[], map[])

  function Window(s: Handoff): seq<Item<nat>> {
    if s.acknowledged <= |s.log| then s.log[s.acknowledged..] else []
  }

  predicate HasCapacity(s: Handoff, bytes: nat) {
    |Window(s)| < MAX_PENDING && Total(Window(s)) + bytes <= MAX_PENDING_BYTES
  }

  function WakePublishers(publishers: map<nat, Stage>): map<nat, Stage> {
    map id | id in publishers :: if publishers[id].Waiting? then Checking(publishers[id].bytes) else publishers[id]
  }

  function WakePolls(polls: map<nat, Poll>): map<nat, Poll> {
    map id | id in polls :: if polls[id].Sleeping? then Polling(polls[id].after) else polls[id]
  }

  /** Check and append without yielding, or register and wait. */
  function ResumeStep(s: Handoff, id: nat, bytes: nat): Handoff {
    if !HasCapacity(s, bytes) then s.(publishers := s.publishers[id := Waiting(bytes)])
    else
      s.(log := s.log + [Item(id, bytes)], publishers := s.publishers[id := Appended(|s.log| + 1)], polls := WakePolls(s.polls))
  }

  function AcknowledgeStep(s: Handoff, after: nat): Handoff {
    if after > s.delivered || after <= s.acknowledged then s
    else s.(acknowledged := after, publishers := WakePublishers(s.publishers))
  }

  function TurnStep(s: Handoff, id: nat, after: nat): Handoff {
    var from := Max(after, s.acknowledged);
    var ids := if from <= |s.log| then Above(s.log, from, MAX_BATCH) else [];
    if ids == [] then s.(polls := s.polls[id := Sleeping(after)])
    else s.(delivered := Max(s.delivered, from + |ids|), polls := s.polls[id := Returned(after, from, ids)])
  }

  function Step(s: Handoff, a: Action): Handoff {
    match a
    case Publish(id, bytes) =>
      if id in s.publishers || bytes > MAX_EVENT_BYTES then s else s.(publishers := s.publishers[id := Checking(bytes)])
    case Resume(id) =>
      if id !in s.publishers || !s.publishers[id].Checking? then s else ResumeStep(s, id, s.publishers[id].bytes)
    case AbortPublish(id) =>
      if id !in s.publishers || s.publishers[id].Appended? then s else s.(publishers := s.publishers[id := Aborted])
    case Acknowledge(after) => AcknowledgeStep(s, after)
    case Read(id, after, acknowledge) =>
      if id in s.polls || after > |s.log| || after < s.acknowledged || (acknowledge && after > s.delivered) then s
      else
        var t := if acknowledge then AcknowledgeStep(s, after) else s;
        t.(polls := t.polls[id := Polling(after)])
    case Turn(id) => if id !in s.polls || !s.polls[id].Polling? then s else TurnStep(s, id, s.polls[id].after)
    case AbortRead(id) => s.(polls := s.polls - {id})
  }

  // ---------------------------------------------------------------- invariant

  ghost predicate Bounded(s: Handoff) {
    && s.acknowledged <= s.delivered <= |s.log|
    && |Window(s)| <= MAX_PENDING
    && Total(Window(s)) <= MAX_PENDING_BYTES
  }

  ghost predicate PollsOk(s: Handoff) {
    forall id :: id in s.polls ==>
      s.polls[id].after <= |s.log| && (s.polls[id].Sleeping? ==> |s.log| <= Max(s.polls[id].after, s.acknowledged))
  }

  ghost predicate PublishersOk(s: Handoff) {
    forall id :: id in s.publishers ==>
      match s.publishers[id]
      case Checking(bytes) => bytes <= MAX_EVENT_BYTES
      case Waiting(bytes) => bytes <= MAX_EVENT_BYTES && !HasCapacity(s, bytes)
      case Appended(cursor) => 1 <= cursor <= |s.log| && s.log[cursor - 1].value == id
      case Aborted => true
  }

  /** Every item was appended by its publisher, at the cursor that publisher got. */
  ghost predicate LogOk(s: Handoff) {
    forall i :: 0 <= i < |s.log| ==> s.log[i].value in s.publishers && s.publishers[s.log[i].value] == Appended(i + 1)
  }

  ghost predicate Inv(s: Handoff) {
    Bounded(s) && PollsOk(s) && PublishersOk(s) && LogOk(s)
  }

  function After(actions: seq<Action>): Handoff {
    if actions == [] then EMPTY else Step(After(actions[..|actions| - 1]), actions[|actions| - 1])
  }

  lemma {:induction false} TotalDrops(items: seq<Item<nat>>, count: nat)
    requires count <= |items|
    ensures Total(items[count..]) <= Total(items)
  {
    if count > 0 {
      TotalDrops(items[1..], count - 1);
      assert items[1..][count - 1..] == items[count..];
    } else {
      assert items[0..] == items;
    }
  }

  lemma AppendKeeps(s: Handoff, id: nat, bytes: nat)
    requires Inv(s) && id in s.publishers && s.publishers[id] == Checking(bytes) && HasCapacity(s, bytes)
    ensures Inv(ResumeStep(s, id, bytes))
  {
    var t := ResumeStep(s, id, bytes);
    assert Window(t) == Window(s) + [Item(id, bytes)];
    TotalConcat(Window(s), [Item(id, bytes)]);
    assert forall i :: 0 <= i < |s.log| ==> s.log[i].value != id;
  }

  lemma AcknowledgeKeeps(s: Handoff, after: nat)
    requires Inv(s)
    ensures Inv(AcknowledgeStep(s, after))
  {
    if s.acknowledged < after <= s.delivered {
      var t := AcknowledgeStep(s, after);
      assert Window(t) == Window(s)[after - s.acknowledged..];
      TotalDrops(Window(s), after - s.acknowledged);
    }
  }

  lemma ResumeKeeps(s: Handoff, id: nat, bytes: nat)
    requires Inv(s) && id in s.publishers && s.publishers[id] == Checking(bytes)
    ensures Inv(ResumeStep(s, id, bytes))
  {
    if HasCapacity(s, bytes) { AppendKeeps(s, id, bytes); }
  }

  lemma PublishKeeps(s: Handoff, id: nat, bytes: nat)
    requires Inv(s)
    ensures Inv(Step(s, Publish(id, bytes))) && Inv(Step(s, AbortPublish(id)))
  {
  }

  lemma TurnKeeps(s: Handoff, id: nat, after: nat)
    requires Inv(s) && after <= |s.log|
    ensures Inv(TurnStep(s, id, after))
  {
  }

  lemma PollKeeps(s: Handoff, id: nat, after: nat)
    requires Inv(s) && after <= |s.log|
    ensures Inv(s.(polls := s.polls[id := Polling(after)])) && Inv(s.(polls := s.polls - {id}))
  {
  }

  lemma StepKeeps(s: Handoff, a: Action)
    requires Inv(s)
    ensures Inv(Step(s, a))
  {
    if a.Publish? {
      PublishKeeps(s, a.id, a.bytes);
    } else if a.AbortPublish? {
      PublishKeeps(s, a.id, 0);
    } else if a.Resume? {
      if a.id in s.publishers && s.publishers[a.id].Checking? { ResumeKeeps(s, a.id, s.publishers[a.id].bytes); }
    } else if a.Acknowledge? {
      AcknowledgeKeeps(s, a.after);
    } else if a.Read? {
      var t := if a.acknowledge then AcknowledgeStep(s, a.after) else s;
      AcknowledgeKeeps(s, a.after);
      if a.after <= |s.log| { PollKeeps(t, a.id, a.after); }
    } else if a.Turn? {
      if a.id in s.polls { TurnKeeps(s, a.id, s.polls[a.id].after); }
    } else {
      PollKeeps(s, a.id, 0);
    }
  }

  lemma {:induction false} RunInv(actions: seq<Action>)
    ensures Inv(After(actions))
  {
    if actions != [] {
      RunInv(actions[..|actions| - 1]);
      StepKeeps(After(actions[..|actions| - 1]), actions[|actions| - 1]);
    }
  }

  // ------------------------------------------------------------ main theorems

  /** With any number of concurrent publishers both bounds hold, and a waiting publisher really lacks capacity. */
  lemma BoundsHold(actions: seq<Action>, id: nat)
    ensures var s := After(actions);
      && |Window(s)| <= MAX_PENDING && Total(Window(s)) <= MAX_PENDING_BYTES
      && (id in s.publishers && s.publishers[id].Waiting? ==> !HasCapacity(s, s.publishers[id].bytes))
  {
    RunInv(actions);
  }

  /** A publisher waits only while the window holds entries, so a poller can always make room. */
  lemma WaitersHaveEntriesAhead(actions: seq<Action>, id: nat)
    requires id in After(actions).publishers && After(actions).publishers[id].Waiting?
    ensures After(actions).acknowledged < |After(actions).log|
  {
    RunInv(actions);
    var s := After(actions);
    assert Window(s) != [];
  }

  /** A poller sleeps only while there is nothing to read. */
  lemma SleepersHaveNothingToRead(actions: seq<Action>, id: nat)
    requires id in After(actions).polls && After(actions).polls[id].Sleeping?
    ensures var s := After(actions); Max(s.polls[id].after, s.acknowledged) == |s.log|
  {
    RunInv(actions);
  }

  /** Each publisher has exactly one place in the log, or none. */
  lemma EachPublisherOnce(actions: seq<Action>, i: nat, j: nat)
    requires i < |After(actions).log| && j < |After(actions).log| && After(actions).log[i].value == After(actions).log[j].value
    ensures i == j
  {
    RunInv(actions);
  }

  lemma StepKeepsLog(s: Handoff, a: Action)
    requires Inv(s)
    ensures s.log <= Step(s, a).log && s.acknowledged <= Step(s, a).acknowledged
  {
  }

  /** What was appended stays where it was; the acknowledged cursor never goes back. */
  lemma {:induction false} LogGrows(before: seq<Action>, after: seq<Action>)
    ensures After(before).log <= After(before + after).log
    ensures After(before).acknowledged <= After(before + after).acknowledged
  {
    if after == [] {
      assert before + after == before;
    } else {
      var shorter, all := after[..|after| - 1], before + after;
      LogGrows(before, shorter);
      assert all[..|all| - 1] == before + shorter && all[|all| - 1] == after[|after| - 1];
      RunInv(before + shorter);
      StepKeepsLog(After(before + shorter), after[|after| - 1]);
    }
  }

  lemma AfterOneMore(actions: seq<Action>, a: Action)
    ensures After(actions + [a]) == Step(After(actions), a)
  {
    assert (actions + [a])[..|actions|] == actions;
  }

  /** The step takes an acknowledgment of entries beyond the cursor into effect. */
  predicate AcknowledgesBeyond(s: Handoff, a: Action, cursor: nat) {
    match a
    case Acknowledge(after) => cursor < after && s.acknowledged < after <= s.delivered
    case Read(id, after, acknowledge) =>
      acknowledge && id !in s.polls && cursor < after && s.acknowledged < after <= s.delivered
    case _ => false
  }

  predicate OvertakenAt(before: seq<Action>, stretch: seq<Action>, k: nat, cursor: nat)
    requires k < |stretch|
  {
    AcknowledgesBeyond(After(before + stretch[..k]), stretch[k], cursor)
  }

  /** Somewhere in the stretch after `before`, such a step was taken. */
  ghost predicate Overtaken(before: seq<Action>, stretch: seq<Action>, cursor: nat) {
    exists k :: 0 <= k < |stretch| && OvertakenAt(before, stretch, k, cursor)
  }

  lemma OvertakenAtExtends(before: seq<Action>, stretch: seq<Action>, a: Action, k: nat, cursor: nat)
    requires k <= |stretch|
    ensures OvertakenAt(before, stretch + [a], k, cursor) <==>
      if k < |stretch| then OvertakenAt(before, stretch, k, cursor) else AcknowledgesBeyond(After(before + stretch), a, cursor)
  {
    if k < |stretch| {
      assert (stretch + [a])[..k] == stretch[..k] && (stretch + [a])[k] == stretch[k];
    } else {
      assert (stretch + [a])[..k] == stretch;
    }
  }

  lemma OvertakenExtends(before: seq<Action>, stretch: seq<Action>, a: Action, cursor: nat)
    ensures Overtaken(before, stretch + [a], cursor)
      <==> Overtaken(before, stretch, cursor) || AcknowledgesBeyond(After(before + stretch), a, cursor)
  {
    forall k | 0 <= k <= |stretch|
      ensures OvertakenAt(before, stretch + [a], k, cursor) <==>
        if k < |stretch| then OvertakenAt(before, stretch, k, cursor) else AcknowledgesBeyond(After(before + stretch), a, cursor)
    {
      OvertakenAtExtends(before, stretch, a, k, cursor);
    }
    if Overtaken(before, stretch, cursor) {
      var k :| 0 <= k < |stretch| && OvertakenAt(before, stretch, k, cursor);
      assert OvertakenAt(before, stretch + [a], k, cursor);
    }
    if AcknowledgesBeyond(After(before + stretch), a, cursor) { assert OvertakenAt(before, stretch + [a], |stretch|, cursor); }
  }

  lemma StepKeepsCursor(s: Handoff, a: Action, id: nat)
    requires id in s.polls && a != AbortRead(id)
    ensures id in Step(s, a).polls && Step(s, a).polls[id].after == s.polls[id].after
  {
  }

  lemma StepAcknowledges(s: Handoff, a: Action, cursor: nat)
    requires Inv(s)
    ensures Step(s, a).acknowledged <= cursor <==> s.acknowledged <= cursor && !AcknowledgesBeyond(s, a, cursor)
  {
  }

  lemma PollGoesOn(actions: seq<Action>, a: Action, id: nat, cursor: nat)
    requires id in After(actions).polls && After(actions).polls[id].after == cursor && a != AbortRead(id)
    ensures var s, t := After(actions), After(actions + [a]);
      && id in t.polls && t.polls[id].after == cursor
      && (t.acknowledged <= cursor <==> s.acknowledged <= cursor && !AcknowledgesBeyond(s, a, cursor))
  {
    RunInv(actions);
    AfterOneMore(actions, a);
    StepKeepsCursor(After(actions), a, id);
    StepAcknowledges(After(actions), a, cursor);
  }

  /** A poll that is not aborted keeps its cursor, and only a step beyond it moves the acknowledged cursor past it. */
  lemma {:induction false} PollWaits(before: seq<Action>, stretch: seq<Action>, id: nat, cursor: nat)
    requires id in After(before).polls && After(before).polls[id].after == cursor
    requires After(before).acknowledged <= cursor && AbortRead(id) !in stretch
    ensures var s := After(before + stretch);
      && id in s.polls && s.polls[id].after == cursor
      && (s.acknowledged <= cursor <==> !Overtaken(before, stretch, cursor))
  {
    if stretch == [] {
      assert before + stretch == before;
    } else {
      var shorter, a := stretch[..|stretch| - 1], stretch[|stretch| - 1];
      PollWaits(before, shorter, id, cursor);
      assert stretch == shorter + [a] && before + stretch == (before + shorter) + [a];
      OvertakenExtends(before, shorter, a, cursor);
      PollGoesOn(before + shorter, a, id, cursor);
    }
  }

  /** The poll of a read that is accepted starts at its cursor, which nobody has acknowledged beyond. */
  lemma ReadBegins(before: seq<Action>, id: nat, after: nat, acknowledge: bool)
    requires id !in After(before).polls && id in After(before + [Read(id, after, acknowledge)]).polls
    ensures var s := After(before + [Read(id, after, acknowledge)]);
      s.polls[id].after == after && s.acknowledged <= after
  {
    AfterOneMore(before, Read(id, after, acknowledge));
    RunInv(before);
  }

  lemma TurnReads(s: Handoff, id: nat, after: nat)
    requires Inv(s) && TurnStep(s, id, after).polls[id].Returned? && after <= |s.log|
    ensures var read := TurnStep(s, id, after).polls[id];
      && read.after == after && (read.from == after <==> s.acknowledged <= after)
      && read.from <= |s.log| && read.ids == Above(s.log, read.from, MAX_BATCH)
  {
  }

  /**
   A read that was accepted at one position of a run and returns at a later one starts right after its
   cursor exactly when no acknowledgment beyond that cursor took effect between the two positions.
   */
  lemma ReadIsGapless(before: seq<Action>, id: nat, after: nat, acknowledge: bool, stretch: seq<Action>, read: Poll)
    requires id !in After(before).polls && id in After(before + [Read(id, after, acknowledge)]).polls
    requires AbortRead(id) !in stretch
    requires var waiting := After(before + [Read(id, after, acknowledge)] + stretch);
      id in waiting.polls && waiting.polls[id].Polling? && read == Step(waiting, Turn(id)).polls[id] && read.Returned?
    ensures read.after == after
    ensures read.from == after <==> !Overtaken(before + [Read(id, after, acknowledge)], stretch, after)
    ensures var log := After(before + [Read(id, after, acknowledge)] + stretch).log;
      read.from <= |log| && read.ids == Above(log, read.from, MAX_BATCH)
  {
    var begun := before + [Read(id, after, acknowledge)];
    ReadBegins(before, id, after, acknowledge);
    PollWaits(begun, stretch, id, after);
    RunInv(begun + stretch);
    TurnReads(After(begun + stretch), id, after);
  }

  /** A poller falls asleep; then one item is appended, read by another poller, and acknowledged. */
  lemma SleepThroughOne() returns (actions: seq<Action>)
    ensures var s := After(actions);
      && s.log == [Item(7, 1)] && s.acknowledged == s.delivered == 1 && 8 !in s.publishers
      && 0 in s.polls && s.polls[0] == Polling(0)
  {
    var s := EMPTY;
    actions := [];
    AfterOneMore(actions, Read(0, 0, true)); actions := actions + [Read(0, 0, true)];
    AfterOneMore(actions, Turn(0)); actions := actions + [Turn(0)];
    s := After(actions);
    assert s == Handoff([], 0, 0, map[], map[0 := Sleeping(0)]);
    AfterOneMore(actions, Publish(7, 1)); actions := actions + [Publish(7, 1)];
    AfterOneMore(actions, Resume(7)); actions := actions + [Resume(7)];
    s := After(actions);
    assert s.log == [Item(7, 1)] && s.acknowledged == s.delivered == 0;
    assert s.polls == map[0 := Polling(0)] && s.publishers == map[7 := Appended(1)];
    AfterOneMore(actions, Read(1, 0, true)); actions := actions + [Read(1, 0, true)];
    AfterOneMore(actions, Turn(1)); actions := actions + [Turn(1)];
    s := After(actions);
    assert Above(s.log, 0, MAX_BATCH) == [7];
    assert s.delivered == 1 && s.acknowledged == 0;
    AfterOneMore(actions, Acknowledge(1)); actions := actions + [Acknowledge(1)];
  }

  /** A poller that slept through another caller's read and acknowledgment skips those entries. */
  lemma ReadsCanSkip() returns (actions: seq<Action>)
    ensures 0 in After(actions).polls && After(actions).polls[0] == Returned(0, 1, [8])
    ensures |After(actions).log| == 2 && After(actions).log[0].value == 7
  {
    actions := SleepThroughOne();
    AfterOneMore(actions, Publish(8, 1)); actions := actions + [Publish(8, 1)];
    var s := After(actions);
    assert Window(s) == [];
    AfterOneMore(actions, Resume(8)); actions := actions + [Resume(8)];
    s := After(actions);
    assert s.log == [Item(7, 1), Item(8, 1)] && s.polls[0] == Polling(0);
    assert Above(s.log, 1, MAX_BATCH) == [8];
    AfterOneMore(actions, Turn(0)); actions := actions + [Turn(0)];
  }
}
