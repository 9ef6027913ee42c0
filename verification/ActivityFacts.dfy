/** What the activity scheduler keeps in every interleaving. */
module ActivityFacts {
  import opened Wrappers
  import opened Activity

  // ---------------------------------------------------------------- where a submission is

  /** The places of submissions: queued, holding the slot or flushing, or told by the log. */
  datatype Places = Places(queued: seq<Work>, holding: set<Work>, next: nat, log: seq<Mark>)

  ghost predicate Once(log: seq<Mark>) {
    forall i, j :: 0 <= i < j < |log| ==> log[i] != log[j]
  }

  ghost predicate KeysOk(p: Places) {
    && (forall i, j :: 0 <= i < j < |p.queued| ==> p.queued[i].key < p.queued[j].key)
    && (forall w :: Accepted(w) in p.log ==> w.key < p.next)
    && (forall w, v :: Accepted(w) in p.log && Accepted(v) in p.log && w.key == v.key ==> w == v)
  }

  /** What happens to an activity between its launch and its end. */
  predicate IsNote(m: Mark) {
    m.HookStarted? || m.HookEnded? || m.WorkEnded?
  }

  ghost predicate PlacesOk(p: Places) {
    && (forall w :: w in p.queued <==> Accepted(w) in p.log && Launched(w) !in p.log && Rejected(w) !in p.log)
    && (forall w :: w in p.holding <==> Launched(w) in p.log && Finished(w) !in p.log)
    && (forall w :: Launched(w) in p.log ==> Accepted(w) in p.log && Rejected(w) !in p.log)
    && (forall w :: Rejected(w) in p.log ==> Accepted(w) in p.log)
    && (forall w :: Finished(w) in p.log ==> Launched(w) in p.log)
    && (forall m :: m in p.log && IsNote(m) ==> Launched(m.work) in p.log)
  }

  /** `a` must leave the queue before `b` may be launched. */
  predicate Outranks(a: Work, b: Work) {
    (a.priority && !b.priority) || (a.priority == b.priority && a.key < b.key)
  }

  ghost predicate LeftBefore(log: seq<Mark>, a: Work, end: nat) {
    exists k :: 0 <= k < end && k < |log| && (log[k] == Launched(a) || log[k] == Rejected(a))
  }

  /** Launches are priority-first and first-in first-out within a priority. */
  ghost predicate InOrder(log: seq<Mark>) {
    forall i, j :: 0 <= i < j < |log| && log[i].Accepted? && log[j].Launched? && Outranks(log[i].work, log[j].work) ==>
      LeftBefore(log, log[i].work, j)
  }

  ghost predicate Sound(p: Places) {
    Once(p.log) && KeysOk(p) && PlacesOk(p) && InOrder(p.log)
  }

  lemma OnceExtends(log: seq<Mark>, m: Mark)
    requires Once(log) && m !in log
    ensures Once(log + [m])
  {
  }

  lemma InOrderExtends(log: seq<Mark>, m: Mark)
    requires InOrder(log)
    requires m.Launched? ==> forall a :: Accepted(a) in log && Outranks(a, m.work) ==> Launched(a) in log || Rejected(a) in log
    ensures InOrder(log + [m])
  {
    var more := log + [m];
    forall i, j | 0 <= i < j < |more| && more[i].Accepted? && more[j].Launched? && Outranks(more[i].work, more[j].work)
      ensures LeftBefore(more, more[i].work, j)
    {
      var a := more[i].work;
      if j < |log| {
        assert log[i] == more[i] && log[j] == more[j];
        var k :| 0 <= k < j && k < |log| && (log[k] == Launched(a) || log[k] == Rejected(a));
        assert more[k] == log[k];
      } else {
        assert log[i] == Accepted(a);
        var k :| 0 <= k < |log| && (log[k] == Launched(a) || log[k] == Rejected(a));
        assert more[k] == log[k];
      }
    }
  }

  function AcceptedInto(p: Places, w: Work): Places {
    Places(p.queued + [w], p.holding, p.next + 1, p.log + [Accepted(w)])
  }

  function LaunchedFrom(p: Places, index: nat): Places
    requires index < |p.queued|
  {
    var w := p.queued[index];
    Places(Without(p.queued, index), p.holding + {w}, p.next, p.log + [Launched(w)])
  }

  function RejectedFrom(p: Places, index: nat): Places
    requires index < |p.queued|
  {
    Places(Without(p.queued, index), p.holding, p.next, p.log + [Rejected(p.queued[index])])
  }

  lemma WithoutMembers(queued: seq<Work>, index: nat)
    requires index < |queued| && forall i, j :: 0 <= i < j < |queued| ==> queued[i].key < queued[j].key
    ensures var rest := Without(queued, index);
            && (forall w :: w in rest <==> w in queued && w != queued[index])
            && (forall i, j :: 0 <= i < j < |rest| ==> rest[i].key < rest[j].key)
  {
    var rest := Without(queued, index);
    forall w | w in queued && w != queued[index] ensures w in rest {
      var i :| 0 <= i < |queued| && queued[i] == w;
      assert if i < index then rest[i] == w else rest[i - 1] == w;
    }
  }

  lemma AcceptKeys(p: Places, w: Work)
    requires KeysOk(p) && PlacesOk(p) && w.key == p.next
    ensures KeysOk(AcceptedInto(p, w))
  {
    forall i | 0 <= i < |p.queued| ensures p.queued[i].key < w.key {
      assert p.queued[i] in p.queued;
    }
  }

  lemma AcceptPlaces(p: Places, w: Work)
    requires PlacesOk(p) && Accepted(w) !in p.log
    ensures PlacesOk(AcceptedInto(p, w))
  {
  }

  lemma AcceptSound(p: Places, w: Work)
    requires Sound(p) && w.key == p.next
    ensures Sound(AcceptedInto(p, w))
  {
    OnceExtends(p.log, Accepted(w));
    InOrderExtends(p.log, Accepted(w));
    AcceptKeys(p, w);
    AcceptPlaces(p, w);
  }

  lemma LaunchPlaces(p: Places, index: nat)
    requires PlacesOk(p) && KeysOk(p) && index < |p.queued|
    requires forall w :: w in Without(p.queued, index) <==> w in p.queued && w != p.queued[index]
    ensures PlacesOk(LaunchedFrom(p, index)) && KeysOk(LaunchedFrom(p, index))
  {
    assert p.queued[index] in p.queued;
    WithoutMembers(p.queued, index);
  }

  lemma LaunchSound(p: Places, index: nat)
    requires Sound(p) && index < |p.queued|
    requires forall a :: a in p.queued ==> !Outranks(a, p.queued[index])
    ensures Sound(LaunchedFrom(p, index))
  {
    var w := p.queued[index];
    assert w in p.queued;
    OnceExtends(p.log, Launched(w));
    InOrderExtends(p.log, Launched(w));
    WithoutMembers(p.queued, index);
    LaunchPlaces(p, index);
  }

  lemma RejectPlaces(p: Places, index: nat)
    requires PlacesOk(p) && index < |p.queued|
    requires forall w :: w in Without(p.queued, index) <==> w in p.queued && w != p.queued[index]
    ensures PlacesOk(RejectedFrom(p, index))
  {
    assert p.queued[index] in p.queued;
  }

  lemma RejectSound(p: Places, index: nat)
    requires Sound(p) && index < |p.queued|
    ensures Sound(RejectedFrom(p, index))
  {
    var w := p.queued[index];
    assert w in p.queued;
    OnceExtends(p.log, Rejected(w));
    InOrderExtends(p.log, Rejected(w));
    WithoutMembers(p.queued, index);
    RejectPlaces(p, index);
  }

  /** Rejecting the work of one message, from position `from` on, newest first. */
  function RejectedAfter(p: Places, message: nat, from: nat): Places
    requires from <= |p.queued|
  {
    p.(queued := p.queued[..from] + Keep(p.queued[from..], message), log := p.log + Rejections(p.queued[from..], message))
  }

  lemma RejectOneMore(p: Places, message: nat, from: nat)
    requires from < |p.queued|
    ensures var later := RejectedAfter(p, message, from + 1);
      && from < |later.queued|
      && RejectedAfter(p, message, from) ==
         if p.queued[from].message == message then RejectedFrom(later, from) else later
  {
    var q := p.queued;
    var later := RejectedAfter(p, message, from + 1);
    assert q[from..][1..] == q[from + 1..];
    assert later.queued == q[..from] + [q[from]] + Keep(q[from + 1..], message);
    if q[from].message == message {
      assert Without(later.queued, from) == q[..from] + Keep(q[from..], message);
      assert later.log + [Rejected(q[from])] == p.log + Rejections(q[from..], message);
    } else {
      assert q[..from] + Keep(q[from..], message) == later.queued;
      assert Rejections(q[from..], message) == Rejections(q[from + 1..], message) + [];
    }
  }

  lemma RejectNone(p: Places, message: nat)
    ensures RejectedAfter(p, message, |p.queued|) == p
  {
    var q := p.queued;
    assert q[..|q|] + Keep(q[|q|..], message) == q && p.log + Rejections(q[|q|..], message) == p.log;
  }

  lemma {:induction false} RejectAllSound(p: Places, message: nat, from: nat)
    requires Sound(p) && from <= |p.queued|
    ensures Sound(RejectedAfter(p, message, from))
    decreases |p.queued| - from
  {
    if from == |p.queued| {
      RejectNone(p, message);
    } else {
      RejectAllSound(p, message, from + 1);
      RejectOneMore(p, message, from);
      if p.queued[from].message == message { RejectSound(RejectedAfter(p, message, from + 1), from); }
    }
  }

  lemma NoteSound(p: Places, m: Mark)
    requires Sound(p) && IsNote(m) && m.work in p.holding && m !in p.log
    ensures Sound(p.(log := p.log + [m]))
  {
    OnceExtends(p.log, m);
    InOrderExtends(p.log, m);
  }

  lemma FinishSound(p: Places, w: Work)
    requires Sound(p) && w in p.holding
    ensures Sound(p.(holding := p.holding - {w}, log := p.log + [Finished(w)]))
  {
    OnceExtends(p.log, Finished(w));
    InOrderExtends(p.log, Finished(w));
  }

  // -------------------------------------------------------------------- the scheduler

  function Works(flushing: seq<Active>): set<Work> {
    set a | a in flushing :: a.work
  }

  function Holding(s: Scheduler): set<Work> {
    (if s.current.Some? then {s.current.value.work} else {}) + Works(s.flushing)
  }

  function PlacesOf(s: Scheduler): Places {
    Places(s.queued, Holding(s), s.next, s.log)
  }

  ghost predicate SlotsOk(s: Scheduler) {
    && (forall a :: a in s.flushing ==> a.settled)
    && (forall i, j :: 0 <= i < j < |s.flushing| ==> s.flushing[i].work != s.flushing[j].work)
    && (s.current.Some? ==> s.current.value.work !in Works(s.flushing))
  }

  ghost predicate Before(log: seq<Mark>, m: Mark, n: Mark) {
    exists i, j :: 0 <= i < j < |log| && log[i] == m && log[j] == n
  }

  /** The flags of an activity against the log; a hook is awaited if it started before the work ended. */
  ghost predicate HookOk(log: seq<Mark>, a: Active) {
    var started, ended, settled := HookStarted(a.work), HookEnded(a.work), WorkEnded(a.work);
    && a.cancelled == a.aborted
    && (started in log ==> a.cancelled)
    && (a.hookRunning <==> started in log && ended !in log)
    && (ended in log ==> started in log)
    && (a.settled <==> settled in log)
    && (a.hookAwaited ==> started in log && a.settled)
    && (a.settled && a.hookRunning ==> (a.hookAwaited <==> Before(log, started, settled)))
  }

  lemma BeforeExtends(log: seq<Mark>, m: Mark, n: Mark, more: seq<Mark>)
    requires n !in more
    ensures Before(log + more, m, n) <==> Before(log, m, n)
  {
    var all := log + more;
    if Before(log, m, n) {
      var i, j :| 0 <= i < j < |log| && log[i] == m && log[j] == n;
      assert all[i] == m && all[j] == n;
    }
    if Before(all, m, n) {
      var i, j :| 0 <= i < j < |all| && all[i] == m && all[j] == n;
      assert forall k :: |log| <= k < |all| ==> all[k] in more;
      assert log[i] == m && log[j] == n;
    }
  }

  /** Marks that are not notes about an activity leave its flags true. */
  lemma HookOkExtends(log: seq<Mark>, a: Active, more: seq<Mark>)
    requires HookOk(log, a) && forall m :: m in more ==> !IsNote(m) || m.work != a.work
    ensures HookOk(log + more, a)
  {
    BeforeExtends(log, HookStarted(a.work), WorkEnded(a.work), more);
  }

  lemma HooksOkExtends(s: Scheduler, more: seq<Mark>)
    requires HooksOk(s) && forall m :: m in more ==> !IsNote(m)
    ensures HooksOk(s.(log := s.log + more))
  {
    if s.current.Some? { HookOkExtends(s.log, s.current.value, more); }
    forall a | a in s.flushing ensures HookOk(s.log + more, a) { HookOkExtends(s.log, a, more); }
  }

  ghost predicate HooksOk(s: Scheduler) {
    && (s.current.Some? ==> HookOk(s.log, s.current.value))
    && (forall a :: a in s.flushing ==> HookOk(s.log, a))
  }

  ghost predicate DrainPending(s: Scheduler) {
    s.current.None? && s.queued != [] ==> s.drains > 0
  }

  ghost predicate Inv(s: Scheduler) {
    Sound(PlacesOf(s)) && SlotsOk(s) && HooksOk(s) && DrainPending(s)
  }

  lemma PickIsFirst(queued: seq<Work>)
    requires queued != [] && forall i, j :: 0 <= i < j < |queued| ==> queued[i].key < queued[j].key
    ensures forall a :: a in queued ==> !Outranks(a, queued[Pick(queued)])
  {
  }

  lemma DrainKeeps(s: Scheduler)
    requires Sound(PlacesOf(s)) && SlotsOk(s) && HooksOk(s)
    ensures Inv(Drain(s))
  {
    if s.current.None? && s.queued != [] {
      var p, index := PlacesOf(s), Pick(s.queued);
      var w := s.queued[index];
      assert w in p.queued;
      PickIsFirst(s.queued);
      LaunchSound(p, index);
      HooksOkExtends(s, [Launched(w)]);
      assert forall m :: m in s.log && IsNote(m) ==> m.work != w;
      var t := Drain(s);
      assert Holding(t) == Holding(s) + {w};
      assert PlacesOf(t) == LaunchedFrom(p, index);
    }
  }

  lemma StartPlaces(s: Scheduler, message: nat)
    requires s.current.None? && s.queued == []
    ensures PlacesOf(Step(s, Start(message))) == LaunchedFrom(AcceptedInto(PlacesOf(s), Work(s.next, message, false)), 0)
  {
    var w := Work(s.next, message, false);
    var q := AcceptedInto(PlacesOf(s), w);
    assert Without(q.queued, 0) == [];
    assert Holding(Step(s, Start(message))) == Holding(s) + {w};
  }

  /** A submission that starts at once holds the slot next to what is still flushing. */
  lemma StartSlots(s: Scheduler, message: nat)
    requires s.current.None? && s.queued == [] && SlotsOk(s) && HooksOk(s) && KeysOk(PlacesOf(s)) && PlacesOk(PlacesOf(s))
    ensures var t := Step(s, Start(message)); SlotsOk(t) && HooksOk(t) && DrainPending(t)
  {
    var w := Work(s.next, message, false);
    var p := PlacesOf(s);
    assert Accepted(w) !in p.log;
    assert Launched(w) !in p.log;
    assert w !in p.holding && forall m :: m in p.log && IsNote(m) ==> m.work != w;
    HooksOkExtends(s, [Accepted(w)]);
    HooksOkExtends(s.(log := s.log + [Accepted(w)]), [Launched(w)]);
  }

  lemma StartKeeps(s: Scheduler, message: nat)
    requires Inv(s)
    ensures Inv(Step(s, Start(message)))
  {
    if s.current.None? && s.queued == [] {
      var w := Work(s.next, message, false);
      AcceptSound(PlacesOf(s), w);
      LaunchSound(AcceptedInto(PlacesOf(s), w), 0);
      StartPlaces(s, message);
      StartSlots(s, message);
    }
  }

  lemma QueueKeeps(s: Scheduler, message: nat, priority: bool)
    requires Inv(s)
    ensures Inv(Step(s, Queue(message, priority)))
  {
    if |s.queued| < MAX_QUEUED {
      var w := Work(s.next, message, priority);
      AcceptSound(PlacesOf(s), w);
      HooksOkExtends(s, [Accepted(w)]);
      assert PlacesOf(Step(s, Queue(message, priority))) == AcceptedInto(PlacesOf(s), w);
    }
  }

  lemma WorksAborted(flushing: seq<Active>, target: Target)
    ensures Works(AbortFlushing(flushing, target)) == Works(flushing)
  {
    var aborted := AbortFlushing(flushing, target);
    forall a | a in flushing ensures a.work in Works(aborted) {
      var i :| 0 <= i < |flushing| && flushing[i] == a;
      assert aborted[i] in aborted && aborted[i].work == a.work;
    }
    forall b | b in aborted ensures b.work in Works(flushing) {
      var i :| 0 <= i < |aborted| && aborted[i] == b;
      assert flushing[i] in flushing && flushing[i].work == b.work;
    }
  }

  lemma AbortFlushingSlots(s: Scheduler, target: Target)
    requires SlotsOk(s) && HooksOk(s)
    ensures var t := s.(flushing := AbortFlushing(s.flushing, target)); SlotsOk(t) && HooksOk(t)
  {
    var aborted := AbortFlushing(s.flushing, target);
    WorksAborted(s.flushing, target);
    forall b | b in aborted ensures b.settled && HookOk(s.log, b) {
      var i :| 0 <= i < |aborted| && aborted[i] == b;
      assert s.flushing[i] in s.flushing;
    }
  }

  lemma AbortFlushingKeeps(s: Scheduler, target: Target)
    requires Inv(s)
    ensures Inv(s.(flushing := AbortFlushing(s.flushing, target)))
  {
    AbortFlushingSlots(s, target);
    WorksAborted(s.flushing, target);
    assert PlacesOf(s.(flushing := AbortFlushing(s.flushing, target))) == PlacesOf(s);
  }

  /** The flags of the others stay true when one activity is noted. */
  lemma NoteKeepsOthers(s: Scheduler, m: Mark)
    requires HooksOk(s) && SlotsOk(s)
    ensures forall a :: a in s.flushing && a.work != m.work ==> HookOk(s.log + [m], a)
    ensures s.current.Some? && s.current.value.work != m.work ==> HookOk(s.log + [m], s.current.value)
  {
    forall a | a in s.flushing && a.work != m.work ensures HookOk(s.log + [m], a) { HookOkExtends(s.log, a, [m]); }
    if s.current.Some? && s.current.value.work != m.work { HookOkExtends(s.log, s.current.value, [m]); }
  }

  lemma BeforeLast(log: seq<Mark>, m: Mark, n: Mark)
    requires m != n
    ensures m in log ==> Before(log + [n], m, n)
    ensures m !in log ==> !Before(log + [n], m, n)
  {
    if m in log {
      var i :| 0 <= i < |log| && log[i] == m;
      assert (log + [n])[i] == m && (log + [n])[|log|] == n;
    }
  }

  /** A hook that starts in the slot. */
  lemma HookStarts(log: seq<Mark>, a: Active)
    requires HookOk(log, a) && !a.cancelled
    ensures HookOk(log + [HookStarted(a.work)], Aborted(a, true))
  {
    BeforeExtends(log, HookStarted(a.work), WorkEnded(a.work), [HookStarted(a.work)]);
  }

  /** The activity in the slot is noted, and its flags follow. */
  lemma NoteKeeps(s: Scheduler, m: Mark, b: Active)
    requires Inv(s) && s.current.Some? && IsNote(m) && m !in s.log
    requires m.work == b.work == s.current.value.work && HookOk(s.log + [m], b)
    ensures Inv(s.(current := Some(b), log := s.log + [m]))
  {
    NoteSound(PlacesOf(s), m);
    NoteKeepsOthers(s, m);
    assert forall c :: c in s.flushing ==> c.work in Works(s.flushing);
    assert PlacesOf(s.(current := Some(b), log := s.log + [m])) == PlacesOf(s).(log := s.log + [m]);
  }

  lemma AbortCurrentKeeps(s: Scheduler)
    requires Inv(s)
    ensures Inv(AbortCurrent(s))
  {
    if s.current.Some? {
      var a := s.current.value;
      if !a.cancelled {
        HookStarts(s.log, a);
        NoteKeeps(s, HookStarted(a.work), Aborted(a, true));
      } else {
        assert PlacesOf(AbortCurrent(s)) == PlacesOf(s);
      }
    }
  }

  /** The hook that runs when the work ends is the one that will be awaited. */
  lemma WorkEndsFlags(log: seq<Mark>, a: Active)
    requires HookOk(log, a) && !a.settled
    ensures HookOk(log + [WorkEnded(a.work)], a.(settled := true, hookAwaited := a.hookRunning))
  {
    BeforeLast(log, HookStarted(a.work), WorkEnded(a.work));
  }

  lemma WorkEndsKeeps(s: Scheduler)
    requires Inv(s) && s.current.Some?
    ensures Inv(SlotStep(s, s.current.value, WorkEnds))
  {
    var a := s.current.value;
    if !a.settled {
      WorkEndsFlags(s.log, a);
      NoteKeeps(s, WorkEnded(a.work), a.(settled := true, hookAwaited := a.hookRunning));
    }
  }

  lemma RejectQueuedKeeps(s: Scheduler, message: nat)
    requires Inv(s)
    ensures Inv(s.(queued := Keep(s.queued, message), log := s.log + Rejections(s.queued, message)))
  {
    var t := s.(queued := Keep(s.queued, message), log := s.log + Rejections(s.queued, message));
    RejectAllSound(PlacesOf(s), message, 0);
    assert s.queued[0..] == s.queued && s.queued[..0] + Keep(s.queued, message) == Keep(s.queued, message);
    assert PlacesOf(t) == RejectedAfter(PlacesOf(s), message, 0);
    RejectionsAreRejections(s.queued, message);
    HooksOkExtends(s, Rejections(s.queued, message));
  }

  lemma CancelMessageKeeps(s: Scheduler, message: nat)
    requires Inv(s)
    ensures Inv(CancelMessageStep(s, message))
  {
    var t := s.(queued := Keep(s.queued, message), log := s.log + Rejections(s.queued, message));
    RejectQueuedKeeps(s, message);
    AbortCurrentKeeps(t);
    AbortFlushingKeeps(if s.current.Some? && s.current.value.work.message == message then AbortCurrent(t) else t, ByMessage(message));
  }

  lemma {:induction false} RejectionsAreRejections(queued: seq<Work>, message: nat)
    ensures forall m :: m in Rejections(queued, message) ==> m.Rejected?
    ensures Keep(queued, message) != [] ==> queued != []
  {
    if queued != [] { RejectionsAreRejections(queued[1..], message); }
  }

  lemma SlotKeeps(s: Scheduler, action: Action)
    requires Inv(s) && s.current.Some? && !action.Release?
    ensures Inv(SlotStep(s, s.current.value, action))
  {
    if action.Expire? {
      AbortCurrentKeeps(s);
    } else if action.WorkEnds? {
      WorkEndsKeeps(s);
    } else {
      assert PlacesOf(SlotStep(s, s.current.value, action)) == PlacesOf(s);
    }
  }

  lemma WorksAdded(flushing: seq<Active>, a: Active)
    ensures Works(flushing + [a]) == Works(flushing) + {a.work}
  {
    assert forall b :: b in flushing + [a] <==> b in flushing || b == a;
  }

  lemma ReleasedSlots(s: Scheduler)
    requires s.current.Some? && s.current.value.settled && SlotsOk(s) && HooksOk(s)
    ensures var t := s.(flushing := s.flushing + [s.current.value], current := None);
      SlotsOk(t) && HooksOk(t) && PlacesOf(t) == PlacesOf(s)
  {
    var a := s.current.value;
    WorksAdded(s.flushing, a);
    forall i | 0 <= i < |s.flushing| ensures s.flushing[i].work != a.work {
      assert s.flushing[i] in s.flushing;
    }
  }

  lemma ReleaseKeeps(s: Scheduler, graceElapsed: bool)
    requires Inv(s) && s.current.Some? && MayRelease(s.current.value, graceElapsed)
    ensures Inv(Step(s, Release(graceElapsed)))
  {
    var u := s.(flushing := s.flushing + [s.current.value], current := None);
    ReleasedSlots(s);
    DrainKeeps(u);
    assert Step(s, Release(graceElapsed)) == Drain(u);
  }

  lemma ReplaceFlushing(s: Scheduler, index: nat, a: Active)
    requires Inv(s) && index < |s.flushing| && a.work == s.flushing[index].work && a.settled && HookOk(s.log, a)
    ensures Inv(s.(flushing := s.flushing[index := a]))
  {
    var flushing := s.flushing[index := a];
    WorksReplaced(s.flushing, index, a);
    assert PlacesOf(s.(flushing := flushing)) == PlacesOf(s);
  }

  lemma WorksReplaced(flushing: seq<Active>, index: nat, a: Active)
    requires index < |flushing| && a.work == flushing[index].work
    ensures Works(flushing[index := a]) == Works(flushing)
  {
    var after := flushing[index := a];
    forall b | b in flushing ensures b.work in Works(after) {
      var i :| 0 <= i < |flushing| && flushing[i] == b;
      assert after[i] in after && after[i].work == b.work;
    }
    forall b | b in after ensures b.work in Works(flushing) {
      var i :| 0 <= i < |after| && after[i] == b;
      assert flushing[i] in flushing && flushing[i].work == after[i].work;
    }
  }

  lemma FlushedHookSlots(s: Scheduler, index: nat)
    requires SlotsOk(s) && HooksOk(s) && index < |s.flushing| && s.flushing[index].hookRunning
    ensures var a := s.flushing[index];
      var t := s.(flushing := s.flushing[index := a.(hookRunning := false)], log := s.log + [HookEnded(a.work)]);
      SlotsOk(t) && HooksOk(t)
  {
    var a := s.flushing[index];
    var b, m := a.(hookRunning := false), HookEnded(a.work);
    assert a in s.flushing && a.work in Works(s.flushing);
    NoteKeepsOthers(s, m);
    WorksReplaced(s.flushing, index, b);
    var flushing := s.flushing[index := b];
    forall c | c in flushing ensures c.settled && HookOk(s.log + [m], c) {
      var i :| 0 <= i < |flushing| && flushing[i] == c;
      if i != index { assert s.flushing[i] == c && c in s.flushing && c.work != a.work; }
    }
  }

  lemma FlushedHookEnds(s: Scheduler, index: nat)
    requires Inv(s) && index < |s.flushing| && s.flushing[index].hookRunning
    ensures var a := s.flushing[index];
      Inv(s.(flushing := s.flushing[index := a.(hookRunning := false)], log := s.log + [HookEnded(a.work)]))
  {
    var a := s.flushing[index];
    assert a in s.flushing && a.work in Works(s.flushing);
    FlushedHookSlots(s, index);
    WorksReplaced(s.flushing, index, a.(hookRunning := false));
    NoteSound(PlacesOf(s), HookEnded(a.work));
    assert PlacesOf(s.(flushing := s.flushing[index := a.(hookRunning := false)], log := s.log + [HookEnded(a.work)]))
      == PlacesOf(s).(log := s.log + [HookEnded(a.work)]);
  }

  lemma WorksWithout(flushing: seq<Active>, index: nat)
    requires index < |flushing|
    requires forall i, j :: 0 <= i < j < |flushing| ==> flushing[i].work != flushing[j].work
    ensures Works(Without(flushing, index)) == Works(flushing) - {flushing[index].work}
  {
    var rest := Without(flushing, index);
    forall b | b in flushing && b.work != flushing[index].work ensures b in rest {
      var i :| 0 <= i < |flushing| && flushing[i] == b;
      assert (if i < index then rest[i] else rest[i - 1]) == b;
    }
    forall b | b in rest ensures b in flushing && b.work != flushing[index].work {
      var i :| 0 <= i < |rest| && rest[i] == b;
      assert flushing[if i < index then i else i + 1] == b;
    }
  }

  lemma FlushedSlots(s: Scheduler, index: nat)
    requires SlotsOk(s) && HooksOk(s) && DrainPending(s) && index < |s.flushing|
    ensures var t := s.(flushing := Without(s.flushing, index), log := s.log + [Finished(s.flushing[index].work)]);
      SlotsOk(t) && HooksOk(t) && DrainPending(t)
  {
    WorksWithout(s.flushing, index);
    HooksOkExtends(s, [Finished(s.flushing[index].work)]);
  }

  lemma FlushedKeeps(s: Scheduler, index: nat)
    requires Inv(s) && index < |s.flushing|
    ensures Inv(s.(flushing := Without(s.flushing, index), log := s.log + [Finished(s.flushing[index].work)]))
  {
    var a := s.flushing[index];
    var t := s.(flushing := Without(s.flushing, index), log := s.log + [Finished(a.work)]);
    assert a in s.flushing;
    FlushedSlots(s, index);
    WorksWithout(s.flushing, index);
    FinishSound(PlacesOf(s), a.work);
    assert PlacesOf(t) == PlacesOf(s).(holding := PlacesOf(s).holding - {a.work}, log := s.log + [Finished(a.work)]);
  }

  lemma FlushKeeps(s: Scheduler, index: nat, action: Action)
    requires Inv(s) && index < |s.flushing|
    ensures Inv(FlushStep(s, index, action))
  {
    var a := s.flushing[index];
    assert a in s.flushing;
    if action.FlushOne? {
      if a.followups > 0 { ReplaceFlushing(s, index, a.(followups := a.followups - 1)); }
    } else if action.Flushed? {
      FlushedKeeps(s, index);
    } else if action.HookEnds? {
      if a.hookRunning { FlushedHookEnds(s, index); }
    }
  }

  lemma HookEndsFlags(log: seq<Mark>, a: Active)
    requires HookOk(log, a) && a.hookRunning
    ensures HookOk(log + [HookEnded(a.work)], a.(hookRunning := false))
  {
    BeforeExtends(log, HookStarted(a.work), WorkEnded(a.work), [HookEnded(a.work)]);
  }

  lemma HookEndsKeeps(s: Scheduler)
    requires Inv(s) && s.current.Some?
    ensures Inv(EndHook(s))
  {
    var a := s.current.value;
    if a.hookRunning {
      HookEndsFlags(s.log, a);
      NoteKeeps(s, HookEnded(a.work), a.(hookRunning := false));
    }
  }

  lemma CancelKeeps(s: Scheduler, target: Option<nat>)
    requires Inv(s)
    ensures Inv(CancelStep(s, target))
  {
    if target.None? || (s.current.Some? && s.current.value.work.key == target.value) { AbortCurrentKeeps(s); }
    else { AbortFlushingKeeps(s, ByKey(target.value)); }
  }

  lemma HookEndsCases(s: Scheduler, key: nat)
    ensures var t, index := Step(s, HookEnds(key)), FlushingIndex(s.flushing, key);
      || t == s
      || (s.current.Some? && t == EndHook(s))
      || (index.Some? && t == FlushStep(s, index.value, HookEnds(key)))
  {
  }

  lemma HookEndsStep(s: Scheduler, key: nat)
    requires Inv(s)
    ensures Inv(Step(s, HookEnds(key)))
  {
    HookEndsCases(s, key);
    var index := FlushingIndex(s.flushing, key);
    if s.current.Some? { HookEndsKeeps(s); }
    if index.Some? { FlushKeeps(s, index.value, HookEnds(key)); }
  }

  lemma FlushStepKeeps(s: Scheduler, action: Action)
    requires Inv(s) && (action.FlushOne? || action.Flushed?)
    ensures Inv(Step(s, action))
  {
    var index := FlushingIndex(s.flushing, action.key);
    if index.Some? {
      FlushKeeps(s, index.value, action);
      assert Step(s, action) == FlushStep(s, index.value, action);
    }
  }

  lemma CurrentKeeps(s: Scheduler, action: Action)
    requires Inv(s) && s.current.Some?
    ensures Inv(SlotStep(s, s.current.value, action))
  {
    if action.Release? {
      if MayRelease(s.current.value, action.graceElapsed) { ReleaseKeeps(s, action.graceElapsed); }
    } else {
      SlotKeeps(s, action);
    }
  }

  lemma RunDrainKeeps(s: Scheduler)
    requires Inv(s)
    ensures Inv(Step(s, RunDrain))
  {
    if s.drains > 0 {
      assert PlacesOf(s.(drains := s.drains - 1)) == PlacesOf(s);
      DrainKeeps(s.(drains := s.drains - 1));
    }
  }

  lemma StepKeeps(s: Scheduler, action: Action)
    requires Inv(s)
    ensures Inv(Step(s, action))
  {
    if action.Start? {
      StartKeeps(s, action.message);
    } else if action.Queue? {
      QueueKeeps(s, action.message, action.priority);
    } else if action.RunDrain? {
      RunDrainKeeps(s);
    } else if action.Cancel? {
      CancelKeeps(s, action.target);
    } else if action.CancelMessage? {
      CancelMessageKeeps(s, action.message);
    } else if action.HookEnds? {
      HookEndsStep(s, action.key);
    } else if action.FlushOne? || action.Flushed? {
      FlushStepKeeps(s, action);
    } else if s.current.Some? {
      CurrentKeeps(s, action);
    }
  }

  lemma {:induction false} RunInv(actions: seq<Action>)
    ensures Inv(After(actions))
  {
    if actions != [] {
      RunInv(actions[..|actions| - 1]);
      StepKeeps(After(actions[..|actions| - 1]), actions[|actions| - 1]);
    }
  }
}
