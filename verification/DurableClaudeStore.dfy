/**
 The store as the object the runtime uses, and the flush loop that publishes its
 outbox. `DurableClaudeStore` serializes its operations, so each method is one whole
 operation; the interleavings and crashes inside an operation are steps of `ClaudeStore`.
 The outcome of a durable write, what it contains besides by size, and how many sends the
 platform accepts before it aborts the flush, are parameters.
 */
module DurableClaudeStore {
  import opened Wrappers
  import opened ClaudeState
  import opened ClaudeStore

  datatype StoreError = NotOpen | Fenced | RevisionExhausted | PublicationCapacity | ViewTooLarge | FileTooLarge | MutationThrew | WriteFailed

  /** The state file: a whole JSON document, replaced atomically by a rename. */
  class StateFile {
    var content: Option<State>

    constructor ()
      ensures content == None
    {
      content := None;
    }
  }

  class DurableStore {
    const file: StateFile
    var fenced: bool
    var current: Option<State>

    constructor (file: StateFile)
      ensures this.file == file && !fenced && current == None
    {
      this.file := file;
      fenced := false;
      current := None;
    }

    ghost function Abstract(): Store
      reads this, file
    {
      Store(file.content, current, fenced, None)
    }

    /** Reads the file once, unless it is too large; a missing file starts a fresh state. */
    method Open(conversationId: nat) returns (result: Result<(), StoreError>)
      modifies this`current
      ensures var before := StoreSystem(old(Abstract()), FlushIdle, [], {}, NO_SIZES);
              Abstract() == Step(before, ClaudeStore.Open(conversationId)).store
      ensures result.Err? <==> old(current).None? && !Opens(old(file.content))
      ensures result.Ok? ==> current.Some?
    {
      if current.Some? { return Ok(()); }
      if file.content.None? {
        current := Some(FreshState(conversationId));
      } else {
        if FileBytes(file.content.value) > STATE_MAX_BYTES { return Err(FileTooLarge); }
        current := file.content;
      }
      result := Ok(());
    }

    /** `persist`: memory follows only a write that succeeded; any failure fences the store. */
    method Persist(state: State, outcome: WriteOutcome) returns (result: Result<(), StoreError>)
      requires current.Some?
      modifies this`fenced, this`current, file
      ensures result == (if outcome.Stored? then Ok(()) else Err(WriteFailed))
      ensures var writing := StoreSystem(old(Abstract()).(writing := Some(state)), FlushIdle, [], {}, NO_SIZES);
              Abstract() == Step(writing, Finish(outcome)).store
    {
      if !outcome.Lost? { file.content := Some(state); }
      if !outcome.Stored? {
        fenced := true;
        return Err(WriteFailed);
      }
      current := Some(state);
      result := Ok(());
    }

    /**
     One commit: `mutated` is what the callback made of the current body, None when it threw.
     A rejected draft changes nothing, a written one is durable exactly when the call succeeds
     or the failure was ambiguous.
     */
    method Commit(mutated: Option<Body>, events: seq<Event>, sizes: Sizes, outcome: WriteOutcome) returns (result: Result<(), StoreError>)
      modifies this`fenced, this`current, file
      ensures var idle := StoreSystem(old(Abstract()), FlushIdle, [], {}, sizes);
              Abstract() == if mutated.None? then old(Abstract())
                            else Step(Step(idle, Begin(mutated.value, events)), Finish(outcome)).store
      ensures result.Ok? ==> mutated.Some? && current.Some? && file.content == current
                             && current.value.revision == old(current).value.revision + 1
      ensures result.Err? && !result.error.WriteFailed? ==> Abstract() == old(Abstract())
      ensures result.Err? && result.error.WriteFailed? ==> fenced && current == old(current)
    {
      if current.None? { return Err(NotOpen); }
      if fenced { return Err(Fenced); }
      if mutated.None? { return Err(MutationThrew); }
      var state := current.value;
      var revision := state.revision + 1;
      if revision > MAX_SAFE_INTEGER { return Err(RevisionExhausted); }
      if |state.outbox| >= MAX_PUBLICATIONS { return Err(PublicationCapacity); }
      if !ViewFits(revision, mutated.value, sizes.usage) { return Err(ViewTooLarge); }
      result := Persist(State(revision, mutated.value, state.outbox + [Publish(revision, mutated.value, events)], sizes), outcome);
    }

    /** `filter`: what an acknowledgment leaves in the outbox. */
    static method Unacknowledged(outbox: seq<Publication>, revision: nat) returns (kept: seq<Publication>)
      ensures kept == DropAcknowledged(outbox, revision)
    {
      kept := [];
      for i := 0 to |outbox|
        invariant kept + DropAcknowledged(outbox[i..], revision) == DropAcknowledged(outbox, revision)
      {
        assert outbox[i..] == [outbox[i]] + outbox[i + 1..];
        if outbox[i].revision > revision { kept := kept + [outbox[i]]; }
      }
    }

    method Acknowledge(revision: nat, sizes: Sizes, outcome: WriteOutcome) returns (result: Result<(), StoreError>)
      modifies this`fenced, this`current, file
      ensures old(CanBegin(Abstract())) ==>
                var idle := StoreSystem(old(Abstract()), AckQueued(revision), [], {}, sizes);
                Abstract() == Step(Step(idle, BeginAck), Finish(outcome)).store
                && result.Ok? == outcome.Stored?
      ensures !old(CanBegin(Abstract())) ==> result.Err? && Abstract() == old(Abstract())
    {
      if current.None? { return Err(NotOpen); }
      if fenced { return Err(Fenced); }
      var state := current.value;
      var kept := Unacknowledged(state.outbox, revision);
      result := Persist(state.(outbox := kept, sizes := state.sizes.(other := sizes.other)), outcome);
    }
  }

  /** Every part of the publications in a batch, in the order a flush sends them. */
  function AllParts(batch: seq<Publication>): seq<Sent> {
    if batch == [] then [] else AllParts(batch[..|batch| - 1]) + PartsOf(batch[|batch| - 1], Parts(batch[|batch| - 1]))
  }

  function PartsOf(p: Publication, count: nat): seq<Sent> {
    seq(count, k requires 0 <= k < count => Sent(p, k))
  }

  /** Output and view writers of one activation; they refuse everything once aborted. */
  class Output {
    var sent: seq<Sent>
    var budget: nat

    constructor (budget: nat)
      ensures sent == [] && this.budget == budget
    {
      sent := [];
      this.budget := budget;
    }

    method Send(item: Sent) returns (ok: bool)
      modifies this
      ensures ok == (old(budget) > 0)
      ensures ok ==> sent == old(sent) + [item] && budget == old(budget) - 1
      ensures !ok ==> sent == old(sent) && budget == 0
    {
      if budget == 0 { return false; }
      sent := sent + [item];
      budget := budget - 1;
      ok := true;
    }
  }

  lemma AllPartsPrefix(batch: seq<Publication>, i: nat)
    requires i < |batch|
    ensures AllParts(batch[..i + 1]) == AllParts(batch[..i]) + PartsOf(batch[i], Parts(batch[i]))
  {
    assert batch[..i + 1][..i] == batch[..i];
  }

  /** The publishing loop body: every part of each publication in the batch, in order. */
  method PublishBatch(batch: seq<Publication>, output: Output) returns (ok: bool)
    modifies output
    ensures ok ==> output.sent == old(output.sent) + AllParts(batch)
    ensures old(output.sent) <= output.sent
    ensures output.budget <= old(output.budget)
  {
    var i := 0;
    assert batch[..0] == [];
    while i < |batch|
      invariant 0 <= i <= |batch|
      invariant output.sent == old(output.sent) + AllParts(batch[..i])
      invariant output.budget <= old(output.budget)
    {
      var p := batch[i];
      var k := 0;
      while k < Parts(p)
        invariant 0 <= k <= Parts(p)
        invariant output.sent == old(output.sent) + AllParts(batch[..i]) + PartsOf(p, k)
        invariant output.budget <= old(output.budget)
      {
        ok := output.Send(Sent(p, k));
        if !ok { return false; }
        assert PartsOf(p, k + 1) == PartsOf(p, k) + [Sent(p, k)];
        k := k + 1;
      }
      AllPartsPrefix(batch, i);
      i := i + 1;
    }
    assert batch[..|batch|] == batch;
    ok := true;
  }

  /**
   `flush` without interference: the whole outbox is sent once, in order, and acknowledged in
   one write. When it succeeds the outbox is empty; when it fails nothing left the outbox
   unless all of it was sent.
   */
  method FlushOutbox(store: DurableStore, output: Output, sizes: Sizes, outcome: WriteOutcome) returns (ok: bool)
    requires store.current.Some? && WellFormed(store.current.value)
    modifies store`fenced, store`current, store.file, output
    ensures ok ==> store.current.Some?
    ensures ok ==> store.current.value.(sizes := old(store.current.value.sizes)) == old(store.current.value).(outbox := [])
    ensures ok ==> output.sent == old(output.sent) + AllParts(old(store.current.value.outbox))
    ensures store.file.content != old(store.file.content) ==>
              output.sent == old(output.sent) + AllParts(old(store.current.value.outbox))
  {
    var outbox := store.current.value.outbox;
    if outbox == [] { return true; }
    ok := PublishBatch(outbox, output);
    if !ok { return false; }
    var last := outbox[|outbox| - 1].revision;
    AcknowledgingTheLastEmpties(outbox, last);
    var result := store.Acknowledge(last, sizes, outcome);
    ok := result.Ok?;
  }

  lemma EmptyWithoutMembers(outbox: seq<Publication>)
    ensures outbox == [] <==> forall p :: p !in outbox
  {
    if outbox != [] { assert outbox[0] in outbox; }
  }

  lemma AcknowledgingTheLastEmpties(outbox: seq<Publication>, revision: nat)
    requires Increasing(outbox) && outbox != [] && revision == outbox[|outbox| - 1].revision
    ensures DropAcknowledged(outbox, revision) == []
  {
    DropAcknowledgedMembers(outbox, revision);
    EmptyWithoutMembers(DropAcknowledged(outbox, revision));
  }
}
