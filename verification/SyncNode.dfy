/**
 A synchronization pass as the object that runs it, while nobody else edits either side.
 Module `Sync` treats the interleavings with outside edits, lost answers and crashes.
 */
module SyncNode {
  import opened Wrappers
  import opened Sync

  const MAX_SYNC_FILE_BYTES: nat := 16777216

  datatype SyncError = CaseCollision | SyncConflict | FileTooLarge | WritesNotEnabled

  datatype State = Syncing | Synced | InConflict | InError

  /** `sent` lists the paths for which a write or a removal was requested. */
  datatype Report = Report(conflicts: seq<string>, failure: Option<SyncError>, changed: bool, sent: seq<string>)

  /** The three versions of one path. */
  datatype Triple = Triple(l: Option<nat>, r: Option<nat>, b: Option<nat>)

  predicate InSync(t: Triple) {
    t.l == t.r == t.b
  }

  /** The decisions that request a write or a removal. */
  predicate Transfers(d: Decision) {
    d.Upload? || d.RemoveRemote? || d.Download? || d.RemoveLocal?
  }

  predicate Fails(d: Decision) {
    d.TooLarge? || d.NotEnabled?
  }

  lemma EmptyWithoutMembers(items: seq<string>)
    ensures items == [] <==> forall x :: x !in items
  {
    if items != [] { assert items[0] in items; }
  }

  /** One side, with the precondition check of its server. */
  class Directory {
    var files: map<string, nat>

    constructor (files: map<string, nat>)
      ensures this.files == files
    {
      this.files := files;
    }

    method Apply(path: string, expected: Option<nat>, value: Option<nat>) returns (accepted: bool)
      modifies this
      ensures accepted <==> Get(old(files), path) == expected && (value.None? ==> expected.Some?)
      ensures files == if accepted then Put(old(files), path, value) else old(files)
    {
      var matches := if path in files then expected == Some(files[path]) else expected == None;
      if value.None? {
        if expected.None? || !matches { return false; }
        files := map p | p in files && p != path :: files[p];
      } else {
        if !matches { return false; }
        files := files[path := value.value];
      }
      accepted := true;
    }
  }

  class SyncNode {
    const local: Directory
    const remote: Directory
    const excluded: string -> bool
    const alias: string -> string
    const size: nat -> nat
    const writes: bool
    var base: map<string, nat>
    var state: State
    var shown: seq<string>

    constructor (local: Directory, remote: Directory, excluded: string -> bool, alias: string -> string,
                 size: nat -> nat, writes: bool, base: map<string, nat>)
      requires local != remote
      ensures this.local == local && this.remote == remote && this.base == base
      ensures this.excluded == excluded && this.alias == alias && this.size == size && this.writes == writes
    {
      this.local, this.remote, this.excluded, this.alias := local, remote, excluded, alias;
      this.size, this.writes, this.base, this.state, this.shown := size, writes, base, Syncing, [];
    }

    ghost function At(path: string): Triple
      reads this, local, remote
    {
      Triple(Get(local.files, path), Get(remote.files, path), Get(base, path))
    }

    predicate TooBig(l: Option<nat>, r: Option<nat>) {
      (l.Some? && size(l.value) > MAX_SYNC_FILE_BYTES) || (r.Some? && size(r.value) > MAX_SYNC_FILE_BYTES)
    }

    function Plan(t: Triple): Decision {
      Decide(t.l, t.r, t.b, writes, TooBig(t.l, t.r))
    }

    predicate Collides(names: set<string>) {
      exists a, b :: a in names && b in names && a != b && alias(a) == alias(b)
    }

    predicate Rejected()
      reads local, remote
    {
      || Collides(remote.files.Keys)
      || Collides(set path | path in local.files.Keys + remote.files.Keys && !excluded(path))
    }

    /** What a completed pass does to one path. */
    ghost predicate Handled(before: Triple, after: Triple, path: string) {
      if excluded(path) then after == before
      else
        match Plan(before)
        case Agree => InSync(after) && after.l == before.l
        case Upload => InSync(after) && after.l == before.l
        case RemoveRemote => InSync(after) && after.l == before.l
        case Download => InSync(after) && after.l == before.r
        case RemoveLocal => InSync(after) && after.l == before.r
        case _ => after == before
    }

    method Forget(name: string)
      modifies this`base
      ensures base == Put(old(base), name, None)
    {
      base := map p | p in base && p != name :: base[p];
    }

    /** One path of a pass. The versions in `t` come from the scans, so a transfer may be refused. */
    method Reconcile(name: string, t: Triple) returns (decision: Decision, accepted: bool)
      requires local != remote && !excluded(name) && t.b == Get(base, name)
      modifies this`base, local, remote
      ensures decision == Plan(t)
      ensures t == old(At(name)) ==> accepted && Handled(t, At(name), name)
      ensures forall other :: other != name ==> At(other) == old(At(other))
    {
      decision := Plan(t);
      accepted := true;
      match decision
      case Agree =>
        if t.l.Some? { base := base[name := t.l.value]; } else { Forget(name); }
      case Upload =>
        accepted := remote.Apply(name, t.r, t.l);
        if accepted { base := base[name := t.l.value]; }
      case RemoveRemote =>
        accepted := remote.Apply(name, t.r, None);
        if accepted { Forget(name); }
      case Download =>
        accepted := local.Apply(name, t.l, t.r);
        if accepted { base := base[name := t.r.value]; }
      case RemoveLocal =>
        accepted := local.Apply(name, t.l, None);
        if accepted { Forget(name); }
      case _ =>
    }

    /**
     One pass. Excluded paths are untouched. A planned transfer leaves the three versions equal to
     the one that had changed; conflicts, oversized files and disallowed uploads keep all three
     values. Nothing is refused, and a collision of aliases stops the pass before it changes anything.
     */
    method Pass() returns (result: Result<Report, SyncError>)
      requires local != remote
      modifies this`base, local, remote
      ensures result.Err? <==> old(Rejected())
      ensures result.Err? ==> result.error.CaseCollision? && forall path :: At(path) == old(At(path))
      ensures result.Ok? ==> forall path :: Handled(old(At(path)), At(path), path)
      ensures result.Ok? ==> forall path :: path in result.value.conflicts <==> !excluded(path) && Plan(old(At(path))).Conflict?
      ensures result.Ok? ==> forall path :: path in result.value.sent <==> !excluded(path) && Transfers(Plan(old(At(path))))
      ensures result.Ok? ==> (result.value.failure.Some? <==> exists path :: !excluded(path) && Fails(Plan(old(At(path)))))
      ensures result.Ok? && result.value.failure.Some? ==> result.value.failure.value in {FileTooLarge, WritesNotEnabled}
      ensures result.Ok? ==> !result.value.changed
    {
      var locals, remotes, bases := local.files, remote.files, base;
      if Collides(remotes.Keys) || Collides(set path | path in locals.Keys + remotes.Keys && !excluded(path)) {
        return Err(CaseCollision);
      }
      var conflicts, sent, changed := [], [], false;
      var failure := None;
      var rest := set path | path in bases.Keys + locals.Keys + remotes.Keys && !excluded(path);
      while rest != {}
        invariant forall path :: path in rest ==> !excluded(path)
        invariant forall path :: path in rest || excluded(path) ==> At(path) == old(At(path))
        invariant forall path :: path !in rest ==> Handled(old(At(path)), At(path), path)
        invariant forall path :: path in conflicts <==> path !in rest && !excluded(path) && Plan(old(At(path))).Conflict?
        invariant forall path :: path in sent <==> path !in rest && !excluded(path) && Transfers(Plan(old(At(path))))
        invariant failure.Some? <==> exists path :: path !in rest && !excluded(path) && Fails(Plan(old(At(path))))
        invariant failure.Some? ==> failure.value in {FileTooLarge, WritesNotEnabled}
        invariant !changed
        decreases rest
      {
        var name :| name in rest;
        var t := Triple(Get(locals, name), Get(remotes, name), Get(base, name));
        var decision, accepted := Reconcile(name, t);
        rest := rest - {name};
        if decision.Conflict? { conflicts := conflicts + [name]; }
        if decision.TooLarge? && failure.None? { failure := Some(FileTooLarge); }
        if decision.NotEnabled? && failure.None? { failure := Some(WritesNotEnabled); }
        if Transfers(decision) {
          sent := sent + [name];
          if !accepted { changed := true; }
        }
      }
      result := Ok(Report(conflicts, failure, changed, sent));
    }

    /** A handled path is in sync, or it is exactly as before and will be planned in the same way again. */
    lemma HandledTwice(before: Triple, after: Triple, path: string)
      requires Handled(before, after, path) && !excluded(path)
      ensures !Transfers(Plan(after))
      ensures Plan(after).Conflict? <==> Plan(before).Conflict?
      ensures Fails(Plan(after)) <==> Fails(Plan(before))
      ensures InSync(after) <==> !Plan(before).Conflict? && !Fails(Plan(before))
    {
    }

    /** No two names that either side may come to hold remotely share an alias. */
    predicate NoAliases()
      reads local, remote
    {
      !Collides(set path | path in local.files.Keys + remote.files.Keys && (!excluded(path) || path in remote.files))
    }

    /**
     Two passes in a row: the first makes the three versions equal on every path outside its
     conflicts, whose values it keeps; the second transfers nothing and reports the same conflicts.
     */
    method PassTwice() returns (first: Report, second: Report)
      requires local != remote && NoAliases()
      requires writes && forall path :: !TooBig(At(path).l, At(path).r)
      modifies this`base, local, remote
      ensures forall path :: !excluded(path) && path !in first.conflicts ==> InSync(At(path))
      ensures forall path :: path in first.conflicts ==> At(path) == old(At(path)) && !InSync(At(path))
      ensures forall path :: excluded(path) ==> At(path) == old(At(path))
      ensures second.sent == [] && second.failure.None?
      ensures forall path :: path in second.conflicts <==> path in first.conflicts
    {
      var result := Pass();
      first := result.value;
      assert forall path :: Handled(old(At(path)), At(path), path);
      forall path | !excluded(path)
        ensures !Transfers(Plan(At(path))) && !Fails(Plan(At(path)))
        ensures Plan(At(path)).Conflict? <==> path in first.conflicts
        ensures InSync(At(path)) <==> path !in first.conflicts
      {
        HandledTwice(old(At(path)), At(path), path);
      }
      assert !Rejected() by {
        ghost var names := old(set path | path in local.files.Keys + remote.files.Keys && (!excluded(path) || path in remote.files));
        forall path | path in remote.files || (path in local.files && !excluded(path)) ensures path in names {
          assert Handled(old(At(path)), At(path), path);
          assert At(path).l == Get(local.files, path) && At(path).r == Get(remote.files, path);
          assert old(At(path)) == Triple(old(Get(local.files, path)), old(Get(remote.files, path)), old(Get(base, path)));
        }
      }
      label between:
      result := Pass();
      second := result.value;
      forall path
        ensures path !in second.sent
        ensures !excluded(path) ==> !Fails(Plan(old@between(At(path))))
      {
        assert path in second.sent <==> !excluded(path) && Transfers(Plan(old@between(At(path))));
      }
      EmptyWithoutMembers(second.sent);
    }

    /**
     One cycle. Nothing is refused, so its retries are not needed. It succeeds exactly when the
     three versions agree on every path, and its status tells the three outcomes apart.
     */
    method Cycle() returns (result: Result<(), SyncError>)
      requires local != remote
      modifies this, local, remote
      ensures result.Ok? <==> !old(Rejected()) && forall path :: !excluded(path) ==> InSync(At(path))
      ensures result == Err(SyncConflict) <==> !old(Rejected()) && exists path :: !excluded(path) && Plan(old(At(path))).Conflict?
      ensures result == Err(CaseCollision) <==> old(Rejected())
      ensures state == if result.Ok? then Synced else if result.error.SyncConflict? then InConflict else InError
      ensures forall path :: path in shown <==> !old(Rejected()) && !excluded(path) && Plan(old(At(path))).Conflict?
    {
      state := Syncing;
      var outcome := Pass();
      if outcome.Err? {
        state, shown := InError, [];
        return Err(outcome.error);
      }
      var report := outcome.value;
      forall path | !excluded(path)
        ensures InSync(At(path)) <==> !Plan(old(At(path))).Conflict? && !Fails(Plan(old(At(path))))
      {
        assert Handled(old(At(path)), At(path), path);
        HandledTwice(old(At(path)), At(path), path);
      }
      shown := report.conflicts;
      if report.conflicts != [] {
        assert report.conflicts[0] in report.conflicts;
        state := InConflict;
        return Err(SyncConflict);
      }
      if report.failure.Some? {
        state := InError;
        return Err(report.failure.value);
      }
      state := Synced;
      result := Ok(());
    }
  }
}
