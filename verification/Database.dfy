/**
 Reference-counted renewable connections. A holder is one operation or one transaction;
 asking for a connection, resuming with one, and releasing it are separate steps, and
 renewals that may fail finish in between.
 */
module Database {
  import opened Wrappers

  /** `closes` counts the calls of `client.close()`. */
  datatype Connection = Connection(users: nat, retired: bool, closes: nat)

  /** `Got` is the stretch between the resolved connection and the check that takes it. */
  datatype Stage = Asking(fallback: Option<nat>) | Got(offered: nat) | Holding(held: nat) | Released | Failed

  datatype Pool = Pool(
    connections: map<nat, Connection>, live: set<nat>, current: Option<nat>, renewing: bool, closed: bool,
    holders: map<nat, Stage>)

  datatype Action =
    | Ask(holder: nat, lasting: bool, unexpired: bool)
    | RenewalSucceeds(connection: nat)
    | RenewalFails(expired: set<nat>)
    | Take(holder: nat, lasting: bool, unexpired: bool)
    | Release(holder: nat)
    | Close

  const EMPTY := Pool(map[], {}, None, false, false, map[])

  /** `client.close()`, and out of the set of live connections. */
  function CloseClient(p: Pool, c: nat): Pool
    requires c in p.connections
  {
    p.(connections := p.connections[c := p.connections[c].(closes := p.connections[c].closes + 1)], live := p.live - {c})
  }

  function Retire(p: Pool, c: nat): Pool
    requires c in p.connections
  {
    var q := p.(connections := p.connections[c := p.connections[c].(retired := true)]);
    if p.connections[c].users == 0 then CloseClient(q, c) else q
  }

  /** `connection`: the current client while it lasts, or else a renewal, with a fallback while it has not expired. */
  function AskStep(p: Pool, holder: nat, lasting: bool, unexpired: bool): Pool {
    if p.closed then p.(holders := p.holders[holder := Failed])
    else if p.current.Some? && lasting then p.(holders := p.holders[holder := Got(p.current.value)])
    else p.(renewing := true, holders := p.holders[holder := Asking(if unexpired then p.current else None)])
  }

  function Offer(holders: map<nat, Stage>, c: nat): map<nat, Stage> {
    map h | h in holders :: if holders[h].Asking? then Got(c) else holders[h]
  }

  function FallBack(holders: map<nat, Stage>, expired: set<nat>, closed: bool): map<nat, Stage> {
    map h | h in holders ::
      if !holders[h].Asking? then holders[h]
      else if holders[h].fallback.Some? && h !in expired && !closed then Got(holders[h].fallback.value)
      else Failed
  }

  function Install(p: Pool, c: nat): Pool {
    var retired := if p.current.Some? && p.current.value in p.connections then Retire(p, p.current.value) else p;
    retired.(connections := retired.connections[c := Connection(0, false, 0)], live := retired.live + {c}, current := Some(c),
             renewing := false, holders := Offer(p.holders, c))
  }

  function TakeStep(p: Pool, holder: nat, c: nat, lasting: bool, unexpired: bool): Pool
    requires c in p.connections
  {
    if p.closed then p.(holders := p.holders[holder := Failed])
    else if p.connections[c].retired then AskStep(p, holder, lasting, unexpired)
    else
      p.(connections := p.connections[c := p.connections[c].(users := p.connections[c].users + 1)],
         holders := p.holders[holder := Holding(c)])
  }

  function ReleaseStep(p: Pool, holder: nat, c: nat): Pool
    requires c in p.connections && p.connections[c].users > 0
  {
    var q := p.(connections := p.connections[c := p.connections[c].(users := p.connections[c].users - 1)],
                holders := p.holders[holder := Released]);
    if q.connections[c].retired && q.connections[c].users == 0 then CloseClient(q, c) else q
  }

  function CloseAll(connections: map<nat, Connection>, live: set<nat>): map<nat, Connection> {
    map c | c in connections :: if c in live then connections[c].(closes := connections[c].closes + 1) else connections[c]
  }

  function Step(p: Pool, a: Action): Pool {
    match a
    case Ask(holder, lasting, unexpired) => if holder in p.holders then p else AskStep(p, holder, lasting, unexpired)
    case RenewalSucceeds(c) =>
      if !p.renewing || c in p.connections then p
      else if p.closed then p.(renewing := false, holders := FallBack(p.holders, {}, true))
      else Install(p, c)
    case RenewalFails(expired) =>
      if !p.renewing then p else p.(renewing := false, holders := FallBack(p.holders, expired, p.closed))
    case Take(holder, lasting, unexpired) =>
      if holder !in p.holders || !p.holders[holder].Got? || p.holders[holder].offered !in p.connections then p
      else TakeStep(p, holder, p.holders[holder].offered, lasting, unexpired)
    case Release(holder) =>
      if holder !in p.holders || !p.holders[holder].Holding? then p
      else
        var c := p.holders[holder].held;
        if c !in p.connections || p.connections[c].users == 0 then p else ReleaseStep(p, holder, c)
    case Close =>
      if p.closed then p
      else p.(closed := true, connections := CloseAll(p.connections, p.live), live := {}, current := None)
  }

  function After(actions: seq<Action>): Pool {
    if actions == [] then EMPTY else Step(After(actions[..|actions| - 1]), actions[|actions| - 1])
  }

  // ---------------------------------------------------------------- invariant

  function HoldersOf(holders: map<nat, Stage>, c: nat): set<nat> {
    set h | h in holders && holders[h] == Holding(c)
  }

  ghost predicate CountsOk(p: Pool) {
    && (forall c :: c in p.connections ==> p.connections[c].users == |HoldersOf(p.holders, c)|)
    && (forall h :: h in p.holders && p.holders[h].Holding? ==> p.holders[h].held in p.connections)
    && (forall h :: h in p.holders && p.holders[h].Got? ==> p.holders[h].offered in p.connections)
    && (forall h :: h in p.holders && p.holders[h].Asking? && p.holders[h].fallback.Some? ==> p.holders[h].fallback.value in p.connections)
  }

  /** Before `close`: one unretired connection at most, and a retired one is closed once nobody holds it. */
  ghost predicate OpenOk(p: Pool) {
    && (p.current.Some? ==> p.current.value in p.connections)
    && (forall c :: c in p.connections ==> (!p.connections[c].retired <==> p.current == Some(c)))
    && (forall c :: c in p.connections ==>
          p.connections[c].closes == if p.connections[c].retired && p.connections[c].users == 0 then 1 else 0)
    && (forall c :: c in p.live <==> c in p.connections && p.connections[c].closes == 0)
  }

  ghost predicate Inv(p: Pool) {
    && CountsOk(p)
    && (!p.closed ==> OpenOk(p))
    && (p.closed ==> p.live == {} && p.current.None? && forall c :: c in p.connections ==> p.connections[c].closes > 0)
  }

  lemma HoldersChange(holders: map<nat, Stage>, h: nat, stage: Stage, c: nat)
    ensures var before, after := HoldersOf(holders, c), HoldersOf(holders[h := stage], c);
      && (h !in before && stage != Holding(c) ==> |after| == |before|)
      && (h !in before && stage == Holding(c) ==> |after| == |before| + 1)
      && (h in before && stage != Holding(c) ==> |after| == |before| - 1)
  {
    var before, after := HoldersOf(holders, c), HoldersOf(holders[h := stage], c);
    if stage == Holding(c) { assert after == before + {h}; } else { assert after == before - {h}; }
  }

  lemma AskKeeps(p: Pool, holder: nat, lasting: bool, unexpired: bool)
    requires Inv(p) && (holder in p.holders ==> !p.holders[holder].Holding?)
    ensures Inv(AskStep(p, holder, lasting, unexpired))
  {
    var q := AskStep(p, holder, lasting, unexpired);
    forall c | c in q.connections ensures |HoldersOf(q.holders, c)| == |HoldersOf(p.holders, c)| {
      HoldersChange(p.holders, holder, q.holders[holder], c);
    }
  }

  lemma OfferedHolders(holders: map<nat, Stage>, after: map<nat, Stage>, c: nat)
    requires after.Keys == holders.Keys
    requires forall h :: h in holders ==> after[h].Holding? == holders[h].Holding? && (holders[h].Holding? ==> after[h] == holders[h])
    ensures HoldersOf(after, c) == HoldersOf(holders, c)
  {
  }

  lemma RetireKeeps(p: Pool, c: nat)
    requires Inv(p) && !p.closed && p.current == Some(c)
    ensures Inv(Retire(p, c).(current := None))
  {
  }

  lemma NewConnectionKeeps(p: Pool, c: nat, holders: map<nat, Stage>)
    requires Inv(p) && !p.closed && p.current.None? && c !in p.connections && holders == Offer(p.holders, c)
    ensures Inv(p.(connections := p.connections[c := Connection(0, false, 0)], live := p.live + {c}, current := Some(c),
                   renewing := false, holders := holders))
  {
    forall d ensures HoldersOf(holders, d) == HoldersOf(p.holders, d) { OfferedHolders(p.holders, holders, d); }
    assert HoldersOf(p.holders, c) == {};
  }

  lemma InstallKeeps(p: Pool, c: nat)
    requires Inv(p) && !p.closed && c !in p.connections
    ensures Inv(Install(p, c))
  {
    if p.current.Some? {
      var previous := p.current.value;
      RetireKeeps(p, previous);
      NewConnectionKeeps(Retire(p, previous).(current := None), c, Offer(p.holders, c));
    } else {
      NewConnectionKeeps(p, c, Offer(p.holders, c));
    }
  }

  lemma FallBackKeeps(p: Pool, expired: set<nat>)
    requires Inv(p)
    ensures Inv(p.(renewing := false, holders := FallBack(p.holders, expired, p.closed)))
  {
    var after := FallBack(p.holders, expired, p.closed);
    forall c ensures HoldersOf(after, c) == HoldersOf(p.holders, c) { OfferedHolders(p.holders, after, c); }
  }

  lemma TakeKeeps(p: Pool, holder: nat, lasting: bool, unexpired: bool)
    requires Inv(p) && holder in p.holders && p.holders[holder].Got?
    ensures Inv(TakeStep(p, holder, p.holders[holder].offered, lasting, unexpired))
  {
    var c := p.holders[holder].offered;
    if p.closed || !p.connections[c].retired {
      var q := TakeStep(p, holder, c, lasting, unexpired);
      forall d ensures |HoldersOf(q.holders, d)| == |HoldersOf(p.holders, d)| + if q.holders[holder] == Holding(d) then 1 else 0 {
        HoldersChange(p.holders, holder, q.holders[holder], d);
      }
    } else {
      AskKeeps(p, holder, lasting, unexpired);
    }
  }

  lemma ReleaseCounts(p: Pool, holder: nat, c: nat)
    requires CountsOk(p) && holder in p.holders && p.holders[holder] == Holding(c) && p.connections[c].users > 0
    ensures CountsOk(ReleaseStep(p, holder, c))
  {
    var q := ReleaseStep(p, holder, c);
    forall d | d in q.connections ensures q.connections[d].users == |HoldersOf(q.holders, d)| {
      HoldersChange(p.holders, holder, Released, d);
    }
  }

  lemma ReleaseOpen(p: Pool, holder: nat, c: nat)
    requires OpenOk(p) && c in p.connections && p.connections[c].users > 0
    ensures OpenOk(ReleaseStep(p, holder, c))
  {
  }

  lemma ReleaseKeeps(p: Pool, holder: nat)
    requires Inv(p) && holder in p.holders && p.holders[holder].Holding?
    ensures var c := p.holders[holder].held; p.connections[c].users > 0 && Inv(ReleaseStep(p, holder, c))
  {
    var c := p.holders[holder].held;
    assert holder in HoldersOf(p.holders, c);
    ReleaseCounts(p, holder, c);
    if !p.closed { ReleaseOpen(p, holder, c); }
  }

  lemma StepKeeps(p: Pool, a: Action)
    requires Inv(p)
    ensures Inv(Step(p, a))
  {
    match a
    case Ask(holder, lasting, unexpired) => if holder !in p.holders { AskKeeps(p, holder, lasting, unexpired); }
    case RenewalSucceeds(c) =>
      if p.renewing && c !in p.connections {
        if p.closed { FallBackKeeps(p, {}); } else { InstallKeeps(p, c); }
      }
    case RenewalFails(expired) => if p.renewing { FallBackKeeps(p, expired); }
    case Take(holder, lasting, unexpired) =>
      if holder in p.holders && p.holders[holder].Got? { TakeKeeps(p, holder, lasting, unexpired); }
    case Release(holder) =>
      if holder in p.holders && p.holders[holder].Holding? { ReleaseKeeps(p, holder); }
    case Close =>
  }

  lemma {:induction false} RunInv(actions: seq<Action>)
    ensures Inv(After(actions))
  {
    if actions != [] {
      RunInv(actions[..|actions| - 1]);
      StepKeeps(After(actions[..|actions| - 1]), actions[|actions| - 1]);
    }
  }

  // ------------------------------------------------------------ main theorems

  /** Before `close`, nobody holds a closed client, and the counts are the live holders. */
  lemma HoldersHaveOpenClients(actions: seq<Action>, h: nat)
    requires var p := After(actions); !p.closed && h in p.holders && p.holders[h].Holding?
    ensures var p := After(actions); var c := p.holders[h].held;
      && c in p.connections && p.connections[c].closes == 0
      && p.connections[c].users == |HoldersOf(p.holders, c)| > 0
  {
    RunInv(actions);
    var p := After(actions);
    assert h in HoldersOf(p.holders, p.holders[h].held);
  }

  lemma AtMostOneUnretired(actions: seq<Action>, c: nat, d: nat)
    requires var p := After(actions);
      !p.closed && c in p.connections && d in p.connections && !p.connections[c].retired && !p.connections[d].retired
    ensures c == d
  {
    RunInv(actions);
  }

  /** Before `close`, a client has been closed exactly when it is retired and without holders, and then once. */
  lemma RetiredClientsCloseOnce(actions: seq<Action>, c: nat)
    requires !After(actions).closed && c in After(actions).connections
    ensures var p := After(actions);
      && p.connections[c].closes <= 1
      && (p.connections[c].closes == 1 <==> p.connections[c].retired && HoldersOf(p.holders, c) == {})
  {
    RunInv(actions);
    var p := After(actions);
    assert |HoldersOf(p.holders, c)| == 0 <==> HoldersOf(p.holders, c) == {};
  }

  /** The step that closes a client is the release of its last holder, its retirement without holders, or `close`. */
  lemma ClosingSteps(p: Pool, a: Action, c: nat)
    requires Inv(p) && !p.closed && c in p.connections && p.connections[c].closes < Step(p, a).connections[c].closes
    ensures a.Close? || (a.Release? && HoldersOf(p.holders, c) == {a.holder}) || (a.RenewalSucceeds? && HoldersOf(p.holders, c) == {})
  {
    if a.Release? {
      assert p.connections[c].users == 1;
      assert a.holder in HoldersOf(p.holders, c);
      Singleton(HoldersOf(p.holders, c), a.holder);
    } else if a.RenewalSucceeds? {
      assert |HoldersOf(p.holders, c)| == 0;
    }
  }

  lemma Singleton(s: set<nat>, x: nat)
    requires |s| == 1 && x in s
    ensures s == {x}
  {
    assert |s - {x}| == 0;
  }

  /** `close` leaves no client open, and none is opened afterwards. */
  lemma CloseClosesEverything(actions: seq<Action>, c: nat)
    requires After(actions).closed && c in After(actions).connections
    ensures After(actions).connections[c].closes > 0
  {
    RunInv(actions);
  }

  lemma AfterOneMore(actions: seq<Action>, a: Action)
    ensures After(actions + [a]) == Step(After(actions), a)
  {
    assert (actions + [a])[..|actions|] == actions;
  }

  /** After `close`: a client that was retired and held at that moment is closed again by its last release. */
  predicate SinceClose(p: Pool, c: nat, retiredAndHeld: bool) {
    && p.closed && c in p.connections
    && (p.connections[c].retired && p.connections[c].users > 0 ==> retiredAndHeld)
    && (retiredAndHeld ==> p.connections[c].retired)
    && p.connections[c].closes == (if retiredAndHeld && p.connections[c].users == 0 then 2 else 1)
  }

  lemma StepSinceClose(p: Pool, a: Action, c: nat, retiredAndHeld: bool)
    requires SinceClose(p, c, retiredAndHeld)
    ensures SinceClose(Step(p, a), c, retiredAndHeld)
  {
  }

  lemma {:induction false} RunSinceClose(before: seq<Action>, after: seq<Action>, c: nat)
    requires !After(before).closed && c in After(before).connections
    ensures var p := After(before);
      SinceClose(After(before + [Close] + after), c, p.connections[c].retired && p.connections[c].users > 0)
  {
    if after == [] {
      RunInv(before);
      AfterOneMore(before, Close);
      assert before + [Close] + after == before + [Close];
    } else {
      var shorter, a := after[..|after| - 1], after[|after| - 1];
      RunSinceClose(before, shorter, c);
      assert before + [Close] + after == (before + [Close] + shorter) + [a];
      AfterOneMore(before + [Close] + shorter, a);
      var p := After(before);
      StepSinceClose(After(before + [Close] + shorter), a, c, p.connections[c].retired && p.connections[c].users > 0);
    }
  }

  /**
   Once the pool is closed, a client has been closed twice exactly when it was retired and held at the moment
   of `close` and its holders have released it since; every other client has been closed once.
   */
  lemma ClosedTwiceExactly(before: seq<Action>, after: seq<Action>, c: nat)
    requires !After(before).closed && c in After(before).connections
    ensures var p, q := After(before), After(before + [Close] + after);
      && c in q.connections
      && q.connections[c].closes ==
         (if p.connections[c].retired && HoldersOf(p.holders, c) != {} && HoldersOf(q.holders, c) == {} then 2 else 1)
  {
    RunSinceClose(before, after, c);
    RunInv(before);
    RunInv(before + [Close] + after);
    var p, q := After(before), After(before + [Close] + after);
    assert |HoldersOf(p.holders, c)| == 0 <==> HoldersOf(p.holders, c) == {};
    assert |HoldersOf(q.holders, c)| == 0 <==> HoldersOf(q.holders, c) == {};
  }

  // ------------------------------------------------------------------ the object

  class Connections {
    var table: map<nat, Connection>
    var live: set<nat>
    var current: Option<nat>
    var closed: bool
    var renewing: bool
    var holders: map<nat, Stage>

    constructor ()
      ensures State() == EMPTY
    {
      table, live, current, closed, renewing, holders := map[], {}, None, false, false, map[];
    }

    ghost function State(): Pool
      reads this
    {
      Pool(table, live, current, renewing, closed, holders)
    }

    method CloseOne(c: nat)
      requires c in table
      modifies this`table, this`live
      ensures State() == CloseClient(old(State()), c)
    {
      table := table[c := table[c].(closes := table[c].closes + 1)];
      live := live - {c};
    }

    method RetireOne(c: nat)
      requires c in table
      modifies this`table, this`live
      ensures State() == Retire(old(State()), c)
    {
      table := table[c := table[c].(retired := true)];
      if table[c].users == 0 { CloseOne(c); }
    }

    method InstallRenewed(c: nat)
      requires renewing && c !in table && (current.Some? ==> current.value in table)
      modifies this
      ensures State() == Step(old(State()), RenewalSucceeds(c))
    {
      renewing := false;
      if closed {
        holders := FallBack(holders, {}, true);
        return;
      }
      if current.Some? { RetireOne(current.value); }
      table := table[c := Connection(0, false, 0)];
      live := live + {c};
      current := Some(c);
      holders := Offer(holders, c);
    }

    /** The stretch of `acquire` after its await; a retired connection is asked for again. */
    method TakeOffered(h: nat, lasting: bool, unexpired: bool) returns (taken: bool)
      requires h in holders && holders[h].Got? && holders[h].offered in table
      modifies this
      ensures State() == Step(old(State()), Take(h, lasting, unexpired))
      ensures taken <==> holders[h].Holding?
    {
      var c := holders[h].offered;
      if closed {
        holders := holders[h := Failed];
        return false;
      }
      if table[c].retired {
        if current.Some? && lasting {
          holders := holders[h := Got(current.value)];
        } else {
          renewing := true;
          holders := holders[h := Asking(if unexpired then current else None)];
        }
        return false;
      }
      table := table[c := table[c].(users := table[c].users + 1)];
      holders := holders[h := Holding(c)];
      taken := true;
    }

    method ReleaseHeld(h: nat)
      requires h in holders && holders[h].Holding? && holders[h].held in table && table[holders[h].held].users > 0
      modifies this`table, this`live, this`holders
      ensures State() == Step(old(State()), Release(h))
    {
      var c := holders[h].held;
      table := table[c := table[c].(users := table[c].users - 1)];
      holders := holders[h := Released];
      if table[c].retired && table[c].users == 0 { CloseOne(c); }
    }

    method CloseEverything()
      requires live <= table.Keys
      modifies this
      ensures State() == Step(old(State()), Close)
    {
      if closed { return; }
      closed := true;
      ghost var before, all := table, live;
      var rest := live;
      while rest != {}
        invariant rest <= all && table.Keys == before.Keys
        invariant table == CloseAll(before, all - rest)
        invariant live == all && current == old(current) && closed && renewing == old(renewing) && holders == old(holders)
        decreases rest
      {
        var c :| c in rest;
        table := table[c := table[c].(closes := table[c].closes + 1)];
        rest := rest - {c};
      }
      assert all - rest == all;
      live := {};
      current := None;
    }
  }
}
