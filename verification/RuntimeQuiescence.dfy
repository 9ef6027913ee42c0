/** Generations and the waiters for them. `idle` is what the owner's predicate reports at that moment. */
module RuntimeQuiescence {
  import opened Wrappers

  datatype Waiter = Waiter(id: nat, minimum: nat)

  /** A resolved waiter and the generation it was told. */
  datatype Woken = Woken(waiter: Waiter, generation: nat)

  datatype Quiet = Quiet(generation: nat, observed: map<string, nat>, waiters: seq<Waiter>, woken: seq<Woken>)

  const SILENT := Quiet(0, map[], [], [])

  function Observe(q: Quiet, id: string): Quiet {
    if id in q.observed then q
    else q.(generation := q.generation + 1, observed := q.observed[id := q.generation + 1])
  }

  function StillWaiting(waiters: seq<Waiter>, generation: nat): seq<Waiter> {
    if waiters == [] then []
    else (if generation < waiters[0].minimum then [waiters[0]] else []) + StillWaiting(waiters[1..], generation)
  }

  function WokenBy(waiters: seq<Waiter>, generation: nat): seq<Woken> {
    if waiters == [] then []
    else (if generation < waiters[0].minimum then [] else [Woken(waiters[0], generation)]) + WokenBy(waiters[1..], generation)
  }

  function Changed(q: Quiet, idle: bool): Quiet {
    if !idle then q
    else q.(waiters := StillWaiting(q.waiters, q.generation), woken := q.woken + WokenBy(q.waiters, q.generation))
  }

  function Wait(q: Quiet, w: Waiter, idle: bool): Quiet {
    if q.generation >= w.minimum && idle then q.(woken := q.woken + [Woken(w, q.generation)])
    else q.(waiters := q.waiters + [w])
  }

  function Forget(waiters: seq<Waiter>, id: nat): seq<Waiter> {
    if waiters == [] then [] else (if waiters[0].id == id then [] else [waiters[0]]) + Forget(waiters[1..], id)
  }

  lemma {:induction false} StillWaitingMembers(waiters: seq<Waiter>, generation: nat)
    ensures forall w :: w in StillWaiting(waiters, generation) <==> w in waiters && generation < w.minimum
  {
    if waiters != [] {
      assert waiters == [waiters[0]] + waiters[1..];
      StillWaitingMembers(waiters[1..], generation);
    }
  }

  lemma {:induction false} WokenByMembers(waiters: seq<Waiter>, generation: nat)
    ensures forall x :: x in WokenBy(waiters, generation) <==> x.generation == generation && x.waiter in waiters && x.waiter.minimum <= generation
  {
    if waiters != [] {
      assert waiters == [waiters[0]] + waiters[1..];
      WokenByMembers(waiters[1..], generation);
    }
  }

  lemma {:induction false} ForgetMembers(waiters: seq<Waiter>, id: nat)
    ensures forall w :: w in Forget(waiters, id) <==> w in waiters && w.id != id
  {
    if waiters != [] {
      assert waiters == [waiters[0]] + waiters[1..];
      ForgetMembers(waiters[1..], id);
    }
  }

  class Quiescence {
    var currentGeneration: nat
    var messageGenerations: map<string, nat>
    var waiters: seq<Waiter>
    ghost var woken: seq<Woken>

    constructor ()
      ensures State() == SILENT
    {
      currentGeneration, messageGenerations, waiters, woken := 0, map[], [], [];
    }

    ghost function State(): Quiet
      reads this
    {
      Quiet(currentGeneration, messageGenerations, waiters, woken)
    }

    /** A known message keeps its generation; a new one opens the next. */
    method ObserveMessage(id: string) returns (generation: nat)
      modifies this`currentGeneration, this`messageGenerations
      ensures State() == Observe(old(State()), id)
      ensures generation == State().observed[id]
    {
      if id in messageGenerations { return messageGenerations[id]; }
      currentGeneration := currentGeneration + 1;
      messageGenerations := messageGenerations[id := currentGeneration];
      generation := currentGeneration;
    }

    /** Resolves the waiters whose generation has been reached, in registration order. */
    method NotifyChanged(idle: bool)
      modifies this`waiters, this`woken
      ensures State() == Changed(old(State()), idle)
    {
      if !idle { return; }
      var all := waiters;
      var kept := [];
      var i := 0;
      while i < |all|
        invariant 0 <= i <= |all|
        invariant kept + StillWaiting(all[i..], currentGeneration) == StillWaiting(all, currentGeneration)
        invariant woken + WokenBy(all[i..], currentGeneration) == old(woken) + WokenBy(all, currentGeneration)
        invariant waiters == all && currentGeneration == old(currentGeneration) && messageGenerations == old(messageGenerations)
      {
        var w := all[i];
        assert all[i..] == [w] + all[i + 1..];
        if currentGeneration < w.minimum {
          kept := kept + [w];
        } else {
          woken := woken + [Woken(w, currentGeneration)];
        }
        i := i + 1;
      }
      waiters := kept;
    }

    method WaitForQuiescence(w: Waiter, idle: bool) returns (resolved: bool)
      modifies this`waiters, this`woken
      ensures State() == Wait(old(State()), w, idle)
      ensures resolved <==> idle && w.minimum <= currentGeneration
    {
      if currentGeneration >= w.minimum && idle {
        woken := woken + [Woken(w, currentGeneration)];
        return true;
      }
      waiters := waiters + [w];
      resolved := false;
    }
  }
}
