/**
 Two-way synchronization of flat directories, one path at a time. A version stands for
 the bytes of a file and its executable bit. Outside edits, requests that are delayed or
 whose answers are lost, late baseline writes and crashes are steps of their own; checking
 a request's precondition and publishing it is one step.
 */
module Sync {
  import opened Wrappers

  datatype Decision =
    | Agree
    | Conflict
    | TooLarge
    | NotEnabled
    | Upload
    | RemoveRemote
    | Download
    | RemoveLocal

  function Get(files: map<string, nat>, path: string): Option<nat> {
    if path in files then Some(files[path]) else None
  }

  function Put(files: map<string, nat>, path: string, version: Option<nat>): map<string, nat> {
    if version.Some? then files[path := version.value] else files - {path}
  }

  /** What a pass does with a path whose scanned versions are `l` and `r` and whose baseline is `b`. */
  function Decide(l: Option<nat>, r: Option<nat>, b: Option<nat>, writes: bool, tooLarge: bool): (d: Decision)
    ensures d.Upload? || d.RemoveRemote? ==> r == b && l != b
    ensures d.Download? || d.RemoveLocal? ==> l == b && r != b
    ensures d.Agree? <==> l == r
  {
    if l == r then Agree
    else if l != b && r != b then Conflict
    else if tooLarge then TooLarge
    else if l != b then
      if !writes then NotEnabled else if l.Some? then Upload else RemoveRemote
    else if r.Some? then Download
    else RemoveLocal
  }

  datatype Side = Local | Remote

  function Other(side: Side): Side {
    if side.Local? then Remote else Local
  }

  /** What the two sides hold, and every version each of them ever held. */
  datatype Directories = Directories(
    local: map<string, nat>, remote: map<string, nat>,
    heldLocal: set<(string, nat)>, heldRemote: set<(string, nat)>)
  {
    function Files(side: Side): map<string, nat> {
      if side.Local? then local else remote
    }

    function Held(side: Side): set<(string, nat)> {
      if side.Local? then heldLocal else heldRemote
    }

    function Read(side: Side, path: string): Option<nat> {
      Get(Files(side), path)
    }

    function Store(side: Side, path: string, version: Option<nat>): Directories {
      var added := if version.Some? then {(path, version.value)} else {};
      if side.Local? then Directories(Put(local, path, version), remote, heldLocal + added, heldRemote)
      else Directories(local, Put(remote, path, version), heldLocal, heldRemote + added)
    }
  }

  datatype Phase = Down | Idle | ScanningRemote | ScanningLocal | Working | Waiting(id: nat)

  /** The process: its baseline in memory, and what the current pass has scanned and not yet handled. */
  datatype Client = Client(
    phase: Phase, base: map<string, nat>, seenLocal: map<string, Option<nat>>, seenRemote: map<string, Option<nat>>)

  /** `expected` travels with the request as its precondition; `base` is the baseline it was decided from. */
  datatype Request = Request(id: nat, side: Side, path: string, expected: Option<nat>, value: Option<nat>, base: Option<nat>)

  datatype System = System(
    dirs: Directories, client: Client, saved: map<string, nat>,
    flying: seq<Request>, saving: seq<map<string, nat>>, next: nat)

  datatype ScanAction =
    | BeginPass
    | NoteRemote(path: string)
    | BeginLocalScan
    | NoteLocal(path: string)
    | BeginWork

  datatype Action =
    | Edit(side: Side, path: string, version: Option<nat>)
    | Start
    | Scan(scan: ScanAction)
    | Reconcile(path: string, writes: bool, tooLarge: bool)
    | Deliver(index: nat, answered: bool)
    | GiveUp(abandon: bool)
    | Save
    | LandSave(index: nat)
    | Crash

  function Dropped<T>(items: seq<T>, index: nat): (rest: seq<T>)
    requires index < |items|
    ensures forall x :: x in rest ==> x in items
  {
    items[..index] + items[index + 1..]
  }

  /** The remote side is scanned first; each path is observed at its own moment. */
  function ScanStep(c: Client, d: Directories, a: ScanAction): Client {
    match a
    case BeginPass => if !c.phase.Idle? then c else Client(ScanningRemote, c.base, map[], map[])
    case NoteRemote(path) =>
      if !c.phase.ScanningRemote? then c else c.(seenRemote := c.seenRemote[path := d.Read(Remote, path)])
    case BeginLocalScan => if !c.phase.ScanningRemote? then c else c.(phase := ScanningLocal)
    case NoteLocal(path) =>
      if !c.phase.ScanningLocal? then c else c.(seenLocal := c.seenLocal[path := d.Read(Local, path)])
    case BeginWork => if !c.phase.ScanningLocal? then c else c.(phase := Working)
  }

  function Send(s: System, side: Side, path: string, expected: Option<nat>, value: Option<nat>): System {
    s.(flying := s.flying + [Request(s.next, side, path, expected, value, Get(s.client.base, path))],
       client := s.client.(phase := Waiting(s.next)), next := s.next + 1)
  }

  /** Reading the content to transfer fails when the side no longer holds the scanned version. */
  function ReconcileStep(s: System, path: string, writes: bool, tooLarge: bool): System {
    var c := s.client;
    if !c.phase.Working? || path !in c.seenLocal || path !in c.seenRemote then s
    else
      var l, r, b := c.seenLocal[path], c.seenRemote[path], Get(c.base, path);
      var t := s.(client := c.(seenLocal := c.seenLocal - {path}));
      match Decide(l, r, b, writes, tooLarge)
      case Agree => t.(client := t.client.(base := Put(c.base, path, l)))
      case Upload => if s.dirs.Read(Local, path) == l then Send(t, Remote, path, r, l) else t
      case RemoveRemote => Send(t, Remote, path, r, None)
      case Download => if s.dirs.Read(Remote, path) == r then Send(t, Local, path, l, r) else t
      case RemoveLocal => Send(t, Local, path, l, None)
      case _ => t
  }

  predicate Accepted(d: Directories, r: Request) {
    d.Read(r.side, r.path) == r.expected
  }

  function Delivered(d: Directories, r: Request): Directories {
    if Accepted(d, r) then d.Store(r.side, r.path, r.value) else d
  }

  /** A refusal means that a side changed during the transfer; the pass goes on. */
  function Answered(c: Client, r: Request, accepted: bool): Client {
    if c.phase != Waiting(r.id) then c
    else c.(phase := Working, base := if accepted then Put(c.base, r.path, r.value) else c.base)
  }

  function DeliverStep(s: System, index: nat, answered: bool): System {
    if index >= |s.flying| then s
    else
      var r := s.flying[index];
      s.(dirs := Delivered(s.dirs, r), flying := Dropped(s.flying, index),
         client := if answered then Answered(s.client, r, Accepted(s.dirs, r)) else s.client)
  }

  /** A timed-out request may still be delivered later. */
  function GiveUpStep(c: Client, abandon: bool): Client {
    if c.phase.Down? then c
    else if abandon then c.(phase := Idle)
    else if c.phase.Waiting? then c.(phase := Working)
    else c
  }

  function Step(s: System, a: Action): System {
    match a
    case Edit(side, path, version) => s.(dirs := s.dirs.Store(side, path, version))
    case Start => if !s.client.phase.Down? then s else s.(client := Client(Idle, s.saved, map[], map[]))
    case Scan(scan) => s.(client := ScanStep(s.client, s.dirs, scan))
    case Reconcile(path, writes, tooLarge) => ReconcileStep(s, path, writes, tooLarge)
    case Deliver(index, answered) => DeliverStep(s, index, answered)
    case GiveUp(abandon) => s.(client := GiveUpStep(s.client, abandon))
    case Save =>
      if !s.client.phase.Working? then s
      else s.(saving := s.saving + [s.client.base], client := s.client.(phase := Idle))
    case LandSave(index) =>
      if index >= |s.saving| then s else s.(saved := s.saving[index], saving := Dropped(s.saving, index))
    case Crash => s.(client := Client(Down, map[], map[], map[]))
  }

  function Pairs(files: map<string, nat>): set<(string, nat)> {
    set path | path in files :: (path, files[path])
  }

  /** The sides start with what they hold; nothing has been synchronized. */
  function Init(local: map<string, nat>, remote: map<string, nat>): System {
    System(Directories(local, remote, Pairs(local), Pairs(remote)), Client(Down, map[], map[], map[]), map[], [], [], 0)
  }

  function After(local: map<string, nat>, remote: map<string, nat>, actions: seq<Action>): System {
    if actions == [] then Init(local, remote)
    else Step(After(local, remote, actions[..|actions| - 1]), actions[|actions| - 1])
  }

  // ---------------------------------------------------------------- invariant

  ghost predicate Shared(d: Directories, path: string, version: nat) {
    (path, version) in d.heldLocal && (path, version) in d.heldRemote
  }

  ghost predicate AllShared(d: Directories, base: map<string, nat>) {
    forall path :: path in base ==> Shared(d, path, base[path])
  }

  ghost predicate HeldNow(d: Directories) {
    && (forall path :: path in d.local ==> (path, d.local[path]) in d.heldLocal)
    && (forall path :: path in d.remote ==> (path, d.remote[path]) in d.heldRemote)
  }

  ghost predicate WasHeld(held: set<(string, nat)>, seen: map<string, Option<nat>>) {
    forall path :: path in seen && seen[path].Some? ==> (path, seen[path].value) in held
  }

  ghost predicate Safe(d: Directories, r: Request) {
    && r.expected == r.base
    && (r.expected.Some? ==> Shared(d, r.path, r.expected.value))
    && (r.value.Some? ==> (r.path, r.value.value) in d.Held(Other(r.side)))
  }

  ghost predicate ClientSafe(d: Directories, c: Client) {
    WasHeld(d.heldLocal, c.seenLocal) && WasHeld(d.heldRemote, c.seenRemote) && AllShared(d, c.base)
  }

  ghost predicate WireSafe(d: Directories, flying: seq<Request>, saving: seq<map<string, nat>>) {
    && (forall r :: r in flying ==> Safe(d, r))
    && (forall base :: base in saving ==> AllShared(d, base))
  }

  ghost predicate Inv(s: System) {
    HeldNow(s.dirs) && ClientSafe(s.dirs, s.client) && AllShared(s.dirs, s.saved) && WireSafe(s.dirs, s.flying, s.saving)
  }

  ghost predicate Grows(d: Directories, d': Directories) {
    d.heldLocal <= d'.heldLocal && d.heldRemote <= d'.heldRemote
  }

  lemma StoreHolds(d: Directories, side: Side, path: string, version: Option<nat>)
    requires HeldNow(d)
    ensures var d' := d.Store(side, path, version);
            HeldNow(d') && Grows(d, d') && (version.Some? ==> (path, version.value) in d'.Held(side))
  {
  }

  /** Everything that was safe stays safe when more has been held. */
  lemma GrowthKeeps(s: System, d: Directories)
    requires Inv(s) && HeldNow(d) && Grows(s.dirs, d)
    ensures Inv(s.(dirs := d))
  {
    forall r | r in s.flying ensures Safe(d, r) {
      assert Safe(s.dirs, r);
    }
  }

  lemma SendPreserves(s: System, side: Side, path: string, expected: Option<nat>, value: Option<nat>)
    requires Inv(s) && expected == Get(s.client.base, path)
    requires value.Some? ==> (path, value.value) in s.dirs.Held(Other(side))
    ensures Inv(Send(s, side, path, expected, value))
  {
  }

  lemma ReconcilePreserves(s: System, path: string, writes: bool, tooLarge: bool)
    requires Inv(s)
    ensures Inv(ReconcileStep(s, path, writes, tooLarge))
  {
    var c := s.client;
    if c.phase.Working? && path in c.seenLocal && path in c.seenRemote {
      var l, r := c.seenLocal[path], c.seenRemote[path];
      var t := s.(client := c.(seenLocal := c.seenLocal - {path}));
      assert Inv(t);
      match Decide(l, r, Get(c.base, path), writes, tooLarge)
      case Upload => SendPreserves(t, Remote, path, r, l);
      case RemoveRemote => SendPreserves(t, Remote, path, r, None);
      case Download => SendPreserves(t, Local, path, l, r);
      case RemoveLocal => SendPreserves(t, Local, path, l, None);
      case _ =>
    }
  }

  lemma DeliveredHolds(d: Directories, r: Request)
    requires HeldNow(d) && Safe(d, r)
    ensures HeldNow(Delivered(d, r)) && Grows(d, Delivered(d, r))
    ensures Accepted(d, r) && r.value.Some? ==> Shared(Delivered(d, r), r.path, r.value.value)
  {
    StoreHolds(d, r.side, r.path, r.value);
  }

  lemma DeliverPreserves(s: System, index: nat, answered: bool)
    requires Inv(s)
    ensures Inv(DeliverStep(s, index, answered)) && Grows(s.dirs, DeliverStep(s, index, answered).dirs)
  {
    if index < |s.flying| {
      var r := s.flying[index];
      DeliveredHolds(s.dirs, r);
      GrowthKeeps(s, Delivered(s.dirs, r));
    }
  }

  lemma ScanPreserves(c: Client, d: Directories, a: ScanAction)
    requires HeldNow(d) && ClientSafe(d, c)
    ensures ClientSafe(d, ScanStep(c, d, a))
  {
  }

  lemma StepPreserves(s: System, a: Action)
    requires Inv(s)
    ensures Inv(Step(s, a)) && Grows(s.dirs, Step(s, a).dirs)
  {
    match a
    case Edit(side, path, version) =>
      StoreHolds(s.dirs, side, path, version);
      GrowthKeeps(s, s.dirs.Store(side, path, version));
    case Scan(scan) => ScanPreserves(s.client, s.dirs, scan);
    case Reconcile(path, writes, tooLarge) => ReconcilePreserves(s, path, writes, tooLarge);
    case Deliver(index, answered) => DeliverPreserves(s, index, answered);
    case _ =>
  }

  lemma {:induction false} RunInv(local: map<string, nat>, remote: map<string, nat>, actions: seq<Action>)
    ensures Inv(After(local, remote, actions))
  {
    if actions != [] {
      RunInv(local, remote, actions[..|actions| - 1]);
      StepPreserves(After(local, remote, actions[..|actions| - 1]), actions[|actions| - 1]);
    }
  }

  // ------------------------------------------------------------ main theorems

  /** What a side holds is recorded, and nothing else is. */
  lemma StepHolds(s: System, a: Action, side: Side, path: string, version: nat)
    requires HeldNow(s.dirs)
    ensures var d := Step(s, a).dirs;
            (path, version) in d.Held(side) <==> (path, version) in s.dirs.Held(side) || d.Read(side, path) == Some(version)
  {
  }

  ghost predicate HeldAt(
      local: map<string, nat>, remote: map<string, nat>, actions: seq<Action>, side: Side, path: string, version: nat, n: nat)
  {
    n <= |actions| && After(local, remote, actions[..n]).dirs.Read(side, path) == Some(version)
  }

  /** The held sets are exactly the history of the directories. */
  lemma {:induction false} HeldIsHistory(
      local: map<string, nat>, remote: map<string, nat>, actions: seq<Action>, side: Side, path: string, version: nat)
    ensures (path, version) in After(local, remote, actions).dirs.Held(side) <==>
            exists n: nat :: HeldAt(local, remote, actions, side, path, version, n)
  {
    if actions == [] {
      assert actions[..0] == [];
      assert (path, version) in Pairs(local) <==> Get(local, path) == Some(version);
      assert (path, version) in Pairs(remote) <==> Get(remote, path) == Some(version);
      assert HeldAt(local, remote, actions, side, path, version, 0)
        <==> Init(local, remote).dirs.Read(side, path) == Some(version);
    } else {
      var last := |actions| - 1;
      var shorter := actions[..last];
      HeldIsHistory(local, remote, shorter, side, path, version);
      RunInv(local, remote, shorter);
      StepHolds(After(local, remote, shorter), actions[last], side, path, version);
      assert actions[..|actions|] == actions;
      assert HeldAt(local, remote, actions, side, path, version, |actions|)
        <==> After(local, remote, actions).dirs.Read(side, path) == Some(version);
      forall n: nat | n <= last
        ensures HeldAt(local, remote, shorter, side, path, version, n) <==> HeldAt(local, remote, actions, side, path, version, n)
      {
        assert shorter[..n] == actions[..n];
      }
      assert forall n: nat :: HeldAt(local, remote, actions, side, path, version, n) ==> n <= last || n == |actions|;
    }
  }

  /** Every version in a baseline, in memory or saved, was held by both sides. */
  lemma BaselinesWereShared(local: map<string, nat>, remote: map<string, nat>, actions: seq<Action>, path: string)
    ensures var s := After(local, remote, actions);
            && (path in s.client.base ==> Shared(s.dirs, path, s.client.base[path]))
            && (path in s.saved ==> Shared(s.dirs, path, s.saved[path]))
  {
    RunInv(local, remote, actions);
  }

  lemma DeliveryWritesOnePath(d: Directories, r: Request, side: Side, path: string)
    requires Delivered(d, r).Read(side, path) != d.Read(side, path)
    ensures r.side == side && r.path == path && d.Read(side, path) == r.expected && Delivered(d, r).Read(side, path) == r.value
  {
  }

  /**
   When a step of synchronization changes a path, it delivers a request that was decided from a
   baseline equal to the version it replaces; that version was held by both sides, and the new
   one was held by the other side.
   */
  lemma ChangesOnlySharedVersions(
      local: map<string, nat>, remote: map<string, nat>, actions: seq<Action>, a: Action, side: Side, path: string)
    requires !a.Edit?
    requires var s := After(local, remote, actions); Step(s, a).dirs.Read(side, path) != s.dirs.Read(side, path)
    ensures var s := After(local, remote, actions);
            var before, after := s.dirs.Read(side, path), Step(s, a).dirs.Read(side, path);
            && a.Deliver? && a.index < |s.flying|
            && s.flying[a.index].side == side && s.flying[a.index].path == path && s.flying[a.index].base == before
            && (before.Some? ==> Shared(s.dirs, path, before.value))
            && (after.Some? ==> (path, after.value) in s.dirs.Held(Other(side)))
  {
    RunInv(local, remote, actions);
    var s := After(local, remote, actions);
    DeliveryWritesOnePath(s.dirs, s.flying[a.index], side, path);
    assert Safe(s.dirs, s.flying[a.index]);
  }

  /** A version that the other side never held survives everything except outside edits of its own path. */
  lemma {:induction false} LoneVersionSurvives(
      local: map<string, nat>, remote: map<string, nat>, before: seq<Action>, after: seq<Action>,
      side: Side, path: string, version: nat)
    requires After(local, remote, before).dirs.Read(side, path) == Some(version)
    requires (path, version) !in After(local, remote, before + after).dirs.Held(Other(side))
    requires forall a :: a in after ==> !(a.Edit? && a.side == side && a.path == path)
    ensures After(local, remote, before + after).dirs.Read(side, path) == Some(version)
  {
    if after == [] {
      assert before + after == before;
    } else {
      var shorter, a, all := after[..|after| - 1], after[|after| - 1], before + after;
      assert all[..|all| - 1] == before + shorter && all[|all| - 1] == a;
      assert a in after;
      var s := After(local, remote, before + shorter);
      RunInv(local, remote, before + shorter);
      StepPreserves(s, a);
      LoneVersionSurvives(local, remote, before, shorter, side, path, version);
      if !a.Edit? && Step(s, a).dirs.Read(side, path) != s.dirs.Read(side, path) {
        ChangesOnlySharedVersions(local, remote, before + shorter, a, side, path);
      }
    }
  }
}
