/**
 The write-ahead state file and its outbox. A run of the store is a sequence of
 atomic steps: opening the file, starting and finishing durable writes whose
 outcome may be ambiguous, sending the parts of publications, acknowledging
 them, and crashing at any point. `history` and `sent` are never read by the
 steps; they record what was ever durable and what ever went out.
 */
module ClaudeStore {
  import opened Wrappers
  import opened ClaudeState

  /** `Ambiguous` is a failed write whose rename had landed. */
  datatype WriteOutcome = Stored | Lost | Ambiguous

  /** One committed file, the copy in memory, the fence, and the write in progress. */
  datatype Store = Store(disk: Option<State>, current: Option<State>, fenced: bool, writing: Option<State>)

  datatype Flush =
    | FlushIdle
    | Sending(batch: seq<Publication>, index: nat, part: nat)
    | AckQueued(revision: nat)
    | AckWriting(revision: nat)

  /** Part `k` of a publication: its events in order, then its change, then its view commit. */
  datatype Sent = Sent(publication: Publication, part: nat)

  datatype StoreSystem = StoreSystem(
    store: Store, flush: Flush, sent: seq<Sent>, history: set<Publication>, sizes: Sizes)

  datatype StoreAction =
    | Open(conversationId: nat)
    | Begin(body: Body, events: seq<Event>)
    | BeginAck
    | Finish(outcome: WriteOutcome)
    | Discard
    | Crash(landed: bool)
    | StartFlush
    | SendPart
    | AbortFlush
    | Weigh(sizes: Sizes)    // what the next write contains besides, by size

  function Parts(p: Publication): nat {
    |p.events| + 2
  }

  /** The draft a commit persists, or None when it is rejected before any write. */
  function CommitDraft(s: State, body: Body, events: seq<Event>, sizes: Sizes): Option<State> {
    if s.revision + 1 > MAX_SAFE_INTEGER || |s.outbox| >= MAX_PUBLICATIONS || !ViewFits(s.revision + 1, body, sizes.usage) then None
    else Some(State(s.revision + 1, body, s.outbox + [Publish(s.revision + 1, body, events)], sizes))
  }

  function DropAcknowledged(outbox: seq<Publication>, revision: nat): seq<Publication> {
    if outbox == [] then []
    else (if outbox[0].revision > revision then [outbox[0]] else []) + DropAcknowledged(outbox[1..], revision)
  }

  function AckDraft(s: State, revision: nat, sizes: Sizes): State {
    s.(outbox := DropAcknowledged(s.outbox, revision), sizes := s.sizes.(other := sizes.other))
  }

  function PublicationsOf(s: Option<State>): set<Publication> {
    if s.None? then {} else set p | p in s.value.outbox
  }

  predicate CanBegin(s: Store) {
    s.current.Some? && !s.fenced && s.writing.None?
  }

  /** A file over the limit is not read; writing knows no limit. */
  predicate Opens(disk: Option<State>) {
    disk.Some? ==> FileBytes(disk.value) <= STATE_MAX_BYTES
  }

  function Loaded(disk: Option<State>, conversationId: nat): State {
    if disk.Some? then disk.value else FreshState(conversationId)
  }

  function Closed(disk: Option<State>): Store {
    Store(disk, None, false, None)
  }

  function Step(s: StoreSystem, a: StoreAction): StoreSystem {
    var store := s.store;
    match a
    case Open(conversationId) =>
      if store.current.Some? || !Opens(store.disk) then s
      else s.(store := store.(current := Some(Loaded(store.disk, conversationId))), sizes := Loaded(store.disk, conversationId).sizes)
    case Begin(body, events) =>
      if !CanBegin(store) then s
      else
        var draft := CommitDraft(store.current.value, body, events, s.sizes);
        if draft.None? then s else s.(store := store.(writing := draft))
    case BeginAck =>
      if !CanBegin(store) || !s.flush.AckQueued? then s
      else s.(store := store.(writing := Some(AckDraft(store.current.value, s.flush.revision, s.sizes))),
              flush := AckWriting(s.flush.revision))
    case Finish(outcome) =>
      if store.writing.None? then s
      else
        var next := store.writing;
        var disk := if outcome.Lost? then store.disk else next;
        s.(store := Store(disk, if outcome.Stored? then next else store.current, store.fenced || !outcome.Stored?, None),
           flush := if s.flush.AckWriting? then FlushIdle else s.flush,
           history := s.history + PublicationsOf(disk))
    case Discard =>
      // A failed initialization abandons its store object; the next attempt reads the file again.
      if store.writing.Some? then s else s.(store := Closed(store.disk), flush := FlushIdle)
    case Crash(landed) =>
      var disk := if landed && store.writing.Some? then store.writing else store.disk;
      s.(store := Closed(disk), flush := FlushIdle, history := s.history + PublicationsOf(disk))
    case StartFlush =>
      if store.current.None? || !s.flush.FlushIdle? || store.current.value.outbox == [] then s
      else s.(flush := Sending(store.current.value.outbox, 0, 0))
    case SendPart =>
      if !s.flush.Sending? || s.flush.index >= |s.flush.batch| then s
      else
        var p := s.flush.batch[s.flush.index];
        s.(sent := s.sent + [Sent(p, s.flush.part)],
           flush := if s.flush.part + 1 < Parts(p) then s.flush.(part := s.flush.part + 1)
                    else if s.flush.index + 1 < |s.flush.batch| then Sending(s.flush.batch, s.flush.index + 1, 0)
                    else AckQueued(p.revision))
    case AbortFlush =>
      if s.flush.AckWriting? then s else s.(flush := FlushIdle)
    case Weigh(sizes) => s.(sizes := sizes)
  }

  function Init(): StoreSystem {
    StoreSystem(Closed(None), FlushIdle, [], {}, NO_SIZES)
  }

  function After(actions: seq<StoreAction>): StoreSystem {
    if actions == [] then Init() else Step(After(actions[..|actions| - 1]), actions[|actions| - 1])
  }

  // ---------------------------------------------------------------- invariant

  /** Every part of `p` went out. */
  ghost predicate Complete(p: Publication, sent: seq<Sent>) {
    forall k :: 0 <= k < Parts(p) ==> Sent(p, k) in sent
  }

  ghost predicate Increasing(outbox: seq<Publication>) {
    forall i, j :: 0 <= i < j < |outbox| ==> outbox[i].revision < outbox[j].revision
  }

  ghost predicate WellFormed(s: State) {
    && s.revision <= MAX_SAFE_INTEGER
    && |s.outbox| <= MAX_PUBLICATIONS
    && Increasing(s.outbox)
    && forall i :: 0 <= i < |s.outbox| ==> s.outbox[i].revision <= s.revision && s.outbox[i].view.revision == s.outbox[i].revision
  }

  ghost predicate AllWellFormed(store: Store) {
    && (store.disk.Some? ==> WellFormed(store.disk.value))
    && (store.current.Some? ==> WellFormed(store.current.value))
    && (store.writing.Some? ==> WellFormed(store.writing.value))
  }

  function DiskRevision(store: Store): nat {
    if store.disk.Some? then store.disk.value.revision else 0
  }

  /** Memory mirrors the file, or no file exists and memory is the fresh state. */
  ghost predicate Mirrors(store: Store)
    requires store.current.Some?
  {
    || store.disk == store.current
    || (store.disk.None? && store.current.value.revision == 0 && store.current.value.outbox == [])
  }

  /** A commit appends one publication at the next revision. */
  ghost predicate Appends(s: State, next: State) {
    && next.revision == s.revision + 1
    && |next.outbox| == |s.outbox| + 1
    && next.outbox[..|s.outbox|] == s.outbox
    && next.outbox[|s.outbox|].revision == next.revision
  }

  /** An acknowledgment drops publications that were sent completely. */
  ghost predicate Drops(s: State, next: State, sent: seq<Sent>) {
    && next.revision == s.revision
    && (forall p :: p in next.outbox ==> p in s.outbox)
    && (forall p :: p in s.outbox && p !in next.outbox ==> Complete(p, sent))
  }

  ghost predicate Follows(s: State, next: State, sent: seq<Sent>) {
    Appends(s, next) || Drops(s, next, sent)
  }

  ghost predicate MemoryTracksDisk(s: StoreSystem) {
    var store := s.store;
    && (store.current.None? ==> store.writing.None? && !store.fenced && s.flush.FlushIdle?)
    && (store.current.Some? && !store.fenced ==> Mirrors(store))
    && (store.writing.Some? ==> !store.fenced && Follows(store.current.value, store.writing.value, s.sent))
    && (store.fenced && !Mirrors(store) ==> store.disk.Some? && Follows(store.current.value, store.disk.value, s.sent))
    && (s.flush.AckWriting? ==> store.writing.Some?)
    && (store.writing.Some? && !s.flush.AckWriting? ==> Appends(store.current.value, store.writing.value))
  }

  ghost predicate HistoryTracksDisk(s: StoreSystem) {
    && PublicationsOf(s.store.disk) <= s.history
    && (forall p :: p in s.history ==> p.revision <= DiskRevision(s.store) && p.view.revision == p.revision)
    && (forall p, q :: p in s.history && q in s.history && p.revision == q.revision ==> p == q)
    && (forall k :: 0 <= k < |s.sent| ==> s.sent[k].publication in s.history)
  }

  /** What has left an outbox was sent completely. */
  ghost predicate NothingDropped(s: StoreSystem) {
    && (forall p :: p in s.history && p !in PublicationsOf(s.store.disk) ==> Complete(p, s.sent))
    && (s.store.current.Some? ==>
          && PublicationsOf(s.store.current) <= s.history
          && forall p :: p in s.history && p !in PublicationsOf(s.store.current) && p.revision <= s.store.current.value.revision ==> Complete(p, s.sent))
  }

  ghost predicate FlushTracksOutbox(s: StoreSystem) {
    match s.flush
    case FlushIdle => true
    case Sending(batch, index, part) =>
      && s.store.current.Some?
      && 0 < |batch| <= |s.store.current.value.outbox|
      && batch == s.store.current.value.outbox[..|batch|]
      && index < |batch| && part < Parts(batch[index])
      && (forall i :: 0 <= i < index ==> Complete(batch[i], s.sent))
      && (forall k :: 0 <= k < part ==> Sent(batch[index], k) in s.sent)
    case AckQueued(revision) =>
      && s.store.current.Some?
      && revision <= s.store.current.value.revision
      && forall p :: p in s.store.current.value.outbox && p.revision <= revision ==> Complete(p, s.sent)
    case AckWriting(revision) => true
  }

  /** Parts go out in revision order: whatever was durable below the revision being sent had gone out already. */
  ghost predicate SentInOrder(s: StoreSystem) {
    forall k, q :: 0 <= k < |s.sent| && q in s.history && q.revision < s.sent[k].publication.revision ==> Complete(q, s.sent[..k])
  }

  ghost predicate Inv(s: StoreSystem) {
    && AllWellFormed(s.store)
    && MemoryTracksDisk(s)
    && HistoryTracksDisk(s)
    && NothingDropped(s)
    && FlushTracksOutbox(s)
    && SentInOrder(s)
  }

  // ------------------------------------------------------------------- proofs

  lemma {:induction false} DropAcknowledgedMembers(outbox: seq<Publication>, revision: nat)
    ensures var kept := DropAcknowledged(outbox, revision);
            |kept| <= |outbox| && forall p :: p in kept <==> p in outbox && p.revision > revision
  {
    if outbox != [] {
      DropAcknowledgedMembers(outbox[1..], revision);
      assert outbox == [outbox[0]] + outbox[1..];
    }
  }

  lemma {:induction false} DropAcknowledgedIncreasing(outbox: seq<Publication>, revision: nat)
    requires Increasing(outbox)
    ensures Increasing(DropAcknowledged(outbox, revision))
  {
    if outbox != [] {
      var tail := outbox[1..];
      DropAcknowledgedIncreasing(tail, revision);
      DropAcknowledgedMembers(tail, revision);
      var kept := DropAcknowledged(tail, revision);
      forall j | 0 <= j < |kept| ensures outbox[0].revision < kept[j].revision {
        assert kept[j] in tail;
      }
    }
  }

  lemma CommitDraftWellFormed(s: State, body: Body, events: seq<Event>, sizes: Sizes)
    requires WellFormed(s) && CommitDraft(s, body, events, sizes).Some?
    ensures var next := CommitDraft(s, body, events, sizes).value;
            WellFormed(next) && Appends(s, next)
  {
    var next := CommitDraft(s, body, events, sizes).value;
    assert next.outbox[..|s.outbox|] == s.outbox;
  }

  lemma AckDraftFollows(s: State, revision: nat, sizes: Sizes, sent: seq<Sent>)
    requires WellFormed(s)
    requires forall p :: p in s.outbox && p.revision <= revision ==> Complete(p, sent)
    ensures var next := AckDraft(s, revision, sizes); WellFormed(next) && Drops(s, next, sent)
  {
    DropAcknowledgedMembers(s.outbox, revision);
    DropAcknowledgedIncreasing(s.outbox, revision);
    var next := AckDraft(s, revision, sizes);
    forall i | 0 <= i < |next.outbox|
      ensures next.outbox[i].revision <= next.revision && next.outbox[i].view.revision == next.outbox[i].revision
    {
      assert next.outbox[i] in s.outbox;
    }
  }

  lemma BeginCommitPreserves(s: StoreSystem, body: Body, events: seq<Event>)
    requires Inv(s)
    ensures Inv(Step(s, Begin(body, events)))
  {
    if CanBegin(s.store) && CommitDraft(s.store.current.value, body, events, s.sizes).Some? {
      CommitDraftWellFormed(s.store.current.value, body, events, s.sizes);
    }
  }

  lemma BeginAckPreserves(s: StoreSystem)
    requires Inv(s)
    ensures Inv(Step(s, BeginAck))
  {
    if CanBegin(s.store) && s.flush.AckQueued? {
      AckDraftFollows(s.store.current.value, s.flush.revision, s.sizes, s.sent);
    }
  }

  lemma OpenPreserves(s: StoreSystem, conversationId: nat)
    requires Inv(s)
    ensures Inv(Step(s, Open(conversationId)))
  {
  }

  /** What a write adds to the outbox is new; what it takes away was sent. */
  lemma LandingPublications(s: StoreSystem, next: State)
    requires s.store.current.Some? && s.store.writing == Some(next) && MemoryTracksDisk(s) && NothingDropped(s)
    ensures forall p :: p in next.outbox && p !in s.history ==> p.revision == next.revision == DiskRevision(s.store) + 1
    ensures next.revision >= DiskRevision(s.store) == s.store.current.value.revision
    ensures forall p :: p in s.history && p.revision <= s.store.current.value.revision && p !in next.outbox ==> Complete(p, s.sent)
  {
    var current := s.store.current.value;
    if Appends(current, next) {
      assert next.outbox == current.outbox + [next.outbox[|current.outbox|]];
    }
  }

  /** A write lands: the file moves to a state that follows memory. */
  lemma LandingKeepsHistory(s: StoreSystem, next: State)
    requires Inv(s) && s.store.writing == Some(next)
    ensures var landed := s.(store := s.store.(disk := Some(next), writing := None),
                             history := s.history + PublicationsOf(Some(next)),
                             flush := if s.flush.AckWriting? then FlushIdle else s.flush);
            HistoryTracksDisk(landed) && SentInOrder(landed)
            && (forall p :: p in landed.history && p !in PublicationsOf(landed.store.disk) ==> Complete(p, landed.sent))
            && (forall p :: p in landed.history && p.revision <= s.store.current.value.revision ==> p in s.history)
  {
    LandingPublications(s, next);
  }

  lemma StoredKeepsFlush(s: StoreSystem)
    requires s.store.writing.Some? && s.store.current.Some? && AllWellFormed(s.store) && FlushTracksOutbox(s)
    requires !s.flush.AckWriting? && Appends(s.store.current.value, s.store.writing.value)
    ensures FlushTracksOutbox(Step(s, Finish(Stored)))
  {
    var current, next := s.store.current.value, s.store.writing.value;
    assert next.outbox == current.outbox + [next.outbox[|current.outbox|]];
    if s.flush.Sending? {
      assert s.flush.batch == next.outbox[..|s.flush.batch|];
    }
  }

  lemma StoredPreserves(s: StoreSystem)
    requires Inv(s) && s.store.writing.Some?
    ensures Inv(Step(s, Finish(Stored)))
  {
    var t := Step(s, Finish(Stored));
    LandingKeepsHistory(s, s.store.writing.value);
    assert t.store.disk == t.store.current == s.store.writing;
    if !s.flush.AckWriting? { StoredKeepsFlush(s); }
    assert AllWellFormed(t.store) && MemoryTracksDisk(t);
  }

  lemma LostPreserves(s: StoreSystem)
    requires Inv(s) && s.store.writing.Some?
    ensures Inv(Step(s, Finish(Lost)))
  {
    var t := Step(s, Finish(Lost));
    assert PublicationsOf(s.store.disk) + s.history == s.history;
    assert t == s.(store := t.store, flush := t.flush) && t.store.disk == s.store.disk && t.store.current == s.store.current;
  }

  lemma FailedPreserves(s: StoreSystem, outcome: WriteOutcome)
    requires Inv(s) && s.store.writing.Some? && !outcome.Stored?
    ensures Inv(Step(s, Finish(outcome)))
  {
    if outcome.Lost? {
      LostPreserves(s);
    } else {
      var t := Step(s, Finish(outcome));
      LandingKeepsHistory(s, s.store.writing.value);
      assert NothingDropped(t);
    }
  }

  lemma CrashPreserves(s: StoreSystem, landed: bool)
    requires Inv(s)
    ensures Inv(Step(s, Crash(landed)))
  {
    if landed && s.store.writing.Some? {
      LandingKeepsHistory(s, s.store.writing.value);
    } else {
      assert PublicationsOf(s.store.disk) + s.history == s.history;
    }
  }

  /** Everything durable below the publication being sent has gone out. */
  lemma SendingIsInOrder(s: StoreSystem, q: Publication)
    requires Inv(s) && s.flush.Sending?
    requires q in s.history && q.revision < s.flush.batch[s.flush.index].revision
    ensures Complete(q, s.sent)
  {
    var outbox, index := s.store.current.value.outbox, s.flush.index;
    assert outbox[index] == s.flush.batch[index];
    if q in outbox {
      var j :| 0 <= j < |outbox| && outbox[j] == q;
      assert j < index;
      assert s.flush.batch[j] == q;
    }
  }

  lemma SendPreservesOrder(s: StoreSystem)
    requires Inv(s) && s.flush.Sending?
    ensures var t := Step(s, SendPart); HistoryTracksDisk(t) && SentInOrder(t)
  {
    var t, p := Step(s, SendPart), s.flush.batch[s.flush.index];
    assert p in s.history by { assert s.store.current.value.outbox[s.flush.index] == p; }
    forall k, q | 0 <= k < |t.sent| && q in t.history && q.revision < t.sent[k].publication.revision
      ensures Complete(q, t.sent[..k])
    {
      if k < |s.sent| {
        assert t.sent[..k] == s.sent[..k];
      } else {
        assert t.sent[..k] == s.sent;
        SendingIsInOrder(s, q);
      }
    }
  }

  lemma CompleteAfterMore(p: Publication, sent: seq<Sent>, last: Sent)
    requires forall k :: 0 <= k < Parts(p) ==> Sent(p, k) in sent || Sent(p, k) == last
    ensures Complete(p, sent + [last])
  {
  }

  lemma SendPreservesFlush(s: StoreSystem)
    requires AllWellFormed(s.store) && FlushTracksOutbox(s) && s.flush.Sending?
    ensures FlushTracksOutbox(Step(s, SendPart))
  {
    var t, p := Step(s, SendPart), s.flush.batch[s.flush.index];
    var batch, index, last := s.flush.batch, s.flush.index, Sent(p, s.flush.part);
    forall i | 0 <= i < index ensures Complete(batch[i], t.sent) {
      CompleteAfterMore(batch[i], s.sent, last);
    }
    if s.flush.part + 1 == Parts(p) {
      CompleteAfterMore(p, s.sent, last);
      if index + 1 == |batch| {
        LastSendCompletes(s, t.sent);
        assert s.store.current.value.outbox[index] == p;
      }
    } else {
      forall k | 0 <= k < s.flush.part + 1 ensures Sent(p, k) in t.sent {
        assert Sent(p, k) in s.sent || Sent(p, k) == last;
      }
    }
  }

  lemma LastSendCompletes(s: StoreSystem, sent: seq<Sent>)
    requires AllWellFormed(s.store) && FlushTracksOutbox(s) && s.flush.Sending? && s.flush.index + 1 == |s.flush.batch|
    requires forall i :: 0 <= i < |s.flush.batch| ==> Complete(s.flush.batch[i], sent)
    ensures forall q :: q in s.store.current.value.outbox && q.revision <= s.flush.batch[s.flush.index].revision ==> Complete(q, sent)
  {
    var outbox, batch, index := s.store.current.value.outbox, s.flush.batch, s.flush.index;
    assert outbox[index] == batch[index];
    forall q | q in outbox && q.revision <= batch[index].revision ensures Complete(q, sent) {
      var j :| 0 <= j < |outbox| && outbox[j] == q;
      assert j <= index;
      assert batch[j] == q;
    }
  }

  lemma SendPreserves(s: StoreSystem)
    requires Inv(s)
    ensures Inv(Step(s, SendPart))
  {
    if s.flush.Sending? {
      SendPreservesOrder(s);
      SendPreservesFlush(s);
    }
  }

  lemma StepPreserves(s: StoreSystem, a: StoreAction)
    requires Inv(s)
    ensures Inv(Step(s, a))
  {
    match a
    case Finish(outcome) =>
      if s.store.writing.Some? {
        if outcome.Stored? { StoredPreserves(s); } else { FailedPreserves(s, outcome); }
      }
    case Crash(landed) => CrashPreserves(s, landed);
    case SendPart => SendPreserves(s);
    case Open(conversationId) => OpenPreserves(s, conversationId);
    case Begin(body, events) => BeginCommitPreserves(s, body, events);
    case BeginAck => BeginAckPreserves(s);
    case Discard =>
    case StartFlush =>
    case AbortFlush =>
    case Weigh(sizes) =>
  }

  /** The invariant holds after every run of commits, ambiguous writes, crashes, reopenings and sends. */
  lemma {:induction false} RunInv(actions: seq<StoreAction>)
    ensures Inv(After(actions))
  {
    if actions != [] {
      RunInv(actions[..|actions| - 1]);
      StepPreserves(After(actions[..|actions| - 1]), actions[|actions| - 1]);
    }
  }

  // ------------------------------------------------------------ main theorems

  /** No two different publications are ever sent under one revision. */
  lemma OnePublicationPerRevision(actions: seq<StoreAction>, i: nat, j: nat)
    requires i < |After(actions).sent| && j < |After(actions).sent|
    requires After(actions).sent[i].publication.revision == After(actions).sent[j].publication.revision
    ensures After(actions).sent[i].publication == After(actions).sent[j].publication
  {
    RunInv(actions);
  }

  predicate Grown(s: StoreSystem, t: StoreSystem) {
    s.history <= t.history && DiskRevision(s.store) <= DiskRevision(t.store) && s.sent <= t.sent
  }

  lemma StepGrows(s: StoreSystem, a: StoreAction)
    requires Inv(s)
    ensures Grown(s, Step(s, a))
  {
  }

  lemma GrownAlong(s: StoreSystem, t: StoreSystem, u: StoreSystem)
    requires Grown(s, t) && Grown(t, u)
    ensures Grown(s, u)
  {
  }

  lemma AfterAppend(actions: seq<StoreAction>, a: StoreAction)
    ensures After(actions + [a]) == Step(After(actions), a)
  {
    assert (actions + [a])[..|actions|] == actions;
  }

  lemma {:induction false} HistoryGrows(before: seq<StoreAction>, after: seq<StoreAction>)
    ensures After(before).history <= After(before + after).history
    ensures DiskRevision(After(before).store) <= DiskRevision(After(before + after).store)
    ensures After(before).sent <= After(before + after).sent
  {
    if after == [] {
      assert before + after == before;
    } else {
      var shorter, a := after[..|after| - 1], after[|after| - 1];
      HistoryGrows(before, shorter);
      assert before + after == (before + shorter) + [a];
      RunInv(before + shorter);
      AfterAppend(before + shorter, a);
      StepGrows(After(before + shorter), a);
      GrownAlong(After(before), After(before + shorter), After(before + after));
    }
  }

  /** A publication leaves the durable outbox only after its events, its change and its view commit all went out. */
  lemma DroppedOnlyWhenSent(before: seq<StoreAction>, after: seq<StoreAction>, p: Publication)
    requires p in PublicationsOf(After(before).store.disk)
    requires p !in PublicationsOf(After(before + after).store.disk)
    ensures Complete(p, After(before + after).sent)
  {
    RunInv(before);
    RunInv(before + after);
    HistoryGrows(before, after);
  }

  /** Before any part of a publication goes out, every durable publication of a lower revision went out completely. */
  lemma SentInRevisionOrder(before: seq<StoreAction>, after: seq<StoreAction>, p: Publication, k: nat)
    requires p in PublicationsOf(After(before).store.disk)
    requires k < |After(before + after).sent| && p.revision < After(before + after).sent[k].publication.revision
    ensures Complete(p, After(before + after).sent[..k])
  {
    RunInv(before);
    RunInv(before + after);
    HistoryGrows(before, after);
  }

  /**
   After any run, whatever is read back passes the checks that `decode` makes on the revision
   and the outbox. Whether the file is read at all is a matter of its size: see `Opens`.
   */
  lemma DiskDecodes(actions: seq<StoreAction>)
    ensures var disk := After(actions).store.disk; disk.Some? ==> WellFormed(disk.value)
  {
    RunInv(actions);
  }
}
