/** The idle predicate of the runtime is truthful and loses no wake-up, over every run. */
module RuntimeAdapterTheorems {
  import opened Wrappers
  import opened RuntimeQuiescence
  import opened RuntimeAdapter
  import Mailbox
  import Activity
  import ActivityFacts

  /** Idle, and every waiter still registered waits for a later generation. */
  ghost predicate NoStranded(s: Runtime) {
    Idle(s) ==> forall w :: w in s.quiet.waiters ==> s.quiet.generation < w.minimum
  }

  ghost predicate PartsOk(s: Runtime) {
    Mailbox.Inv(s.mailbox) && ActivityFacts.Inv(s.activity)
  }

  /** A new generation without work behind it: the refusal, or an entry ID the mailbox already knows. */
  predicate Silent(s: Runtime, a: Action) {
    match a
    case Refuse(id) => id !in s.quiet.observed
    case Message(id) => id !in s.quiet.observed && Mailbox.Known(s.mailbox, id)
    case Recover(recovery, id) => recovery !in s.recoveries && id !in s.quiet.observed && Mailbox.Known(s.mailbox, recovery)
    case _ => false
  }

  lemma NotifySettles(s: Runtime)
    ensures NoStranded(Notify(s))
  {
    StillWaitingMembers(s.quiet.waiters, s.quiet.generation);
  }

  lemma ReceiveKeeps(s: Runtime, observed: string, entry: string)
    requires NoStranded(s)
    requires Mailbox.Known(s.mailbox, entry) ==> observed in s.quiet.observed
    ensures NoStranded(Receive(s, observed, entry))
  {
  }

  /** A receive while something else is still counted cannot strand a waiter. */
  lemma BusyReceive(s: Runtime, observed: string, entry: string)
    requires !Idle(s.(mailbox := Mailbox.EMPTY))
    ensures !Idle(Receive(s, observed, entry))
  {
  }

  lemma SilentActKeepsBusy(before: Activity.Scheduler, act: Activity.Action)
    requires !Reports(before, act, Activity.Step(before, act))
    ensures Activity.IsIdle(Activity.Step(before, act)) ==> Activity.IsIdle(before)
  {
    var after := Activity.Step(before, act);
    match act
    case HookEnds(key) =>
    case FlushOne(key) =>
    case RunDrain =>
    case _ =>
  }

  lemma ActKeeps(s: Runtime, act: Activity.Action)
    requires NoStranded(s)
    ensures NoStranded(ActStep(s, act))
  {
    var t := s.(activity := Activity.Step(s.activity, act));
    if Reports(s.activity, act, t.activity) { NotifySettles(t); } else { SilentActKeepsBusy(s.activity, act); }
  }

  lemma MailKeeps(s: Runtime, mail: Mailbox.Action)
    requires NoStranded(s)
    ensures NoStranded(MailStep(s, mail))
  {
    if mail.Settle? { NotifySettles(s.(mailbox := Mailbox.Step(s.mailbox, mail))); }
  }

  lemma OperationKeeps(s: Runtime, a: Action)
    requires NoStranded(s)
    ensures NoStranded(OperationStep(s, a))
  {
    match a
    case StartOperation(id) => NotifySettles(s.(operations := s.operations[id := Operation(true, 0)]));
    case EndOperation(id) => NotifySettles(s.(operations := s.operations - {id}));
    case FlushOperation(id, followup) =>
      if id in s.operations && !s.operations[id].open && s.operations[id].followups > 0 {
        var t := s.(operations := s.operations[id := Operation(false, s.operations[id].followups - 1)]);
        assert id in t.operations;
        BusyReceive(t, followup, followup);
      }
    case DropOperationFollowup(id) =>
    case _ =>
  }

  lemma FlushActivityKeeps(s: Runtime, key: nat, id: string)
    requires NoStranded(s)
    ensures NoStranded(Step(s, FlushActivity(key, id)))
  {
    var index := Activity.FlushingIndex(s.activity.flushing, key);
    if index.Some? && s.activity.flushing[index.value].followups > 0 {
      var t := s.(activity := Activity.Step(s.activity, Activity.FlushOne(key)));
      assert |t.activity.flushing| == |s.activity.flushing|;
      BusyReceive(t, id, id);
    }
  }

  lemma DropKeeps(s: Runtime, key: nat)
    requires NoStranded(s)
    ensures NoStranded(Step(s, DropActivityFollowup(key)))
  {
    var index := Activity.FlushingIndex(s.activity.flushing, key);
    if index.Some? && s.activity.flushing[index.value].followups > 0 {
      assert |Activity.Step(s.activity, Activity.FlushOne(key)).flushing| == |s.activity.flushing|;
    }
  }

  lemma StepKeepsWakeUps(s: Runtime, a: Action)
    requires NoStranded(s) && !Silent(s, a)
    ensures NoStranded(Step(s, a))
  {
    match a
    case Message(id) => ReceiveKeeps(s, id, id);
    case Recover(recovery, id) => if recovery !in s.recoveries { ReceiveKeeps(s, id, recovery); }
    case ControlDone => if s.controls > 0 { NotifySettles(s.(controls := s.controls - 1)); }
    case Mail(mail) => MailKeeps(s, mail);
    case Act(act) => ActKeeps(s, act);
    case FlushActivity(key, id) => FlushActivityKeeps(s, key, id);
    case DropActivityFollowup(key) => DropKeeps(s, key);
    case StopWaiting(id) => ForgetMembers(s.quiet.waiters, id);
    case WaitFor(waiter) =>
    case Control(id) =>
    case Refuse(id) =>
    case _ => OperationKeeps(s, a);
  }

  lemma ReceiveParts(s: Runtime, observed: string, entry: string)
    requires PartsOk(s)
    ensures PartsOk(Receive(s, observed, entry))
  {
    Mailbox.StepKeeps(s.mailbox, Mailbox.Enqueue(entry));
  }

  /** Which parts a step may change. */
  lemma FlushActivityCases(s: Runtime, key: nat, id: string)
    ensures var t := Step(s, FlushActivity(key, id));
      t == s || t == Receive(s.(activity := Activity.Step(s.activity, Activity.FlushOne(key))), id, id)
  {
  }

  lemma FlushActivityParts(s: Runtime, key: nat, id: string)
    requires PartsOk(s)
    ensures PartsOk(Step(s, FlushActivity(key, id)))
  {
    FlushActivityCases(s, key, id);
    ActivityFacts.StepKeeps(s.activity, Activity.FlushOne(key));
    ReceiveParts(s.(activity := Activity.Step(s.activity, Activity.FlushOne(key))), id, id);
  }

  lemma FlushOperationParts(s: Runtime, id: string, followup: string)
    requires PartsOk(s)
    ensures PartsOk(Step(s, FlushOperation(id, followup)))
  {
    var t := Step(s, FlushOperation(id, followup));
    assert t.activity == s.activity;
    assert t.mailbox == s.mailbox || t.mailbox == Mailbox.Step(s.mailbox, Mailbox.Enqueue(followup));
    Mailbox.StepKeeps(s.mailbox, Mailbox.Enqueue(followup));
  }

  lemma OtherCases(s: Runtime, a: Action)
    requires !a.Message? && !a.Recover? && !a.Mail? && !a.Act? && !a.FlushActivity? && !a.FlushOperation?
    requires !a.DropActivityFollowup?
    ensures Step(s, a).mailbox == s.mailbox && Step(s, a).activity == s.activity
  {
  }

  lemma MailAndActCases(s: Runtime, mail: Mailbox.Action, act: Activity.Action)
    ensures var t := Step(s, Mail(mail));
      t.activity == s.activity && (t.mailbox == s.mailbox || t.mailbox == Mailbox.Step(s.mailbox, mail))
    ensures var t := Step(s, Act(act));
      t.mailbox == s.mailbox && (t.activity == s.activity || t.activity == Activity.Step(s.activity, act))
  {
  }

  lemma RecoverParts(s: Runtime, recovery: string, id: string)
    requires PartsOk(s)
    ensures PartsOk(Step(s, Recover(recovery, id)))
  {
    ReceiveParts(s, id, recovery);
  }

  lemma StepKeepsParts(s: Runtime, a: Action)
    requires PartsOk(s)
    ensures PartsOk(Step(s, a))
  {
    match a
    case Message(id) => ReceiveParts(s, id, id);
    case Recover(recovery, id) => RecoverParts(s, recovery, id);
    case Mail(mail) =>
      MailAndActCases(s, mail, Activity.RunDrain);
      Mailbox.StepKeeps(s.mailbox, mail);
    case Act(act) =>
      MailAndActCases(s, Mailbox.RunDrain, act);
      ActivityFacts.StepKeeps(s.activity, act);
    case FlushActivity(key, id) => FlushActivityParts(s, key, id);
    case DropActivityFollowup(key) => ActivityFacts.StepKeeps(s.activity, Activity.FlushOne(key));
    case FlushOperation(id, followup) => FlushOperationParts(s, id, followup);
    case _ => OtherCases(s, a);
  }

  lemma {:induction false} RunParts(actions: seq<Action>)
    ensures PartsOk(After(actions))
  {
    if actions != [] {
      RunParts(actions[..|actions| - 1]);
      StepKeepsParts(After(actions[..|actions| - 1]), actions[|actions| - 1]);
    }
  }

  // ------------------------------------------------------------ main theorems

  /**
   Whenever the runtime reports idle, every message ever admitted has settled, every accepted
   activity has finished or was rejected with its follow-ups handed over, and no harness
   operation or control remains.
   */
  lemma IdleIsTruthful(actions: seq<Action>, e: Mailbox.Entry, w: Activity.Work)
    requires Idle(After(actions))
    ensures var s := After(actions);
      && (e in s.mailbox.all ==> e in s.mailbox.settled)
      && s.mailbox.queue == [] && !s.mailbox.handling.Busy?
      && (Activity.Accepted(w) in s.activity.log ==> Activity.Finished(w) in s.activity.log || Activity.Rejected(w) in s.activity.log)
      && s.operations == map[] && s.controls == 0
  {
    RunParts(actions);
    var s := After(actions);
    Mailbox.LiveConserves(s.mailbox);
    assert Mailbox.Live(s.mailbox) == multiset{};
    assert multiset(s.mailbox.settled) == multiset(s.mailbox.all);
    assert e in multiset(s.mailbox.all) <==> e in multiset(s.mailbox.settled);
    var p := ActivityFacts.PlacesOf(s.activity);
    assert p.queued == [] && p.holding == {};
    assert w !in p.queued && w !in p.holding;
  }

  /** No wake-up is lost: after any run without a silent generation, an idle runtime has no waiter it should have woken. */
  lemma {:induction false} NoLostWakeUp(actions: seq<Action>)
    requires forall n :: 0 <= n < |actions| ==> !Silent(After(actions[..n]), actions[n])
    ensures NoStranded(After(actions))
  {
    if actions != [] {
      var shorter := actions[..|actions| - 1];
      forall n | 0 <= n < |shorter| ensures !Silent(After(shorter[..n]), shorter[n]) {
        assert shorter[..n] == actions[..n] && shorter[n] == actions[n];
      }
      NoLostWakeUp(shorter);
      StepKeepsWakeUps(After(shorter), actions[|actions| - 1]);
    }
  }

  /** A step strands a waiter exactly when it opens a silent generation, while idle, that a waiter was waiting for. */
  lemma StrandsExactly(s: Runtime, a: Action)
    requires NoStranded(s)
    ensures !NoStranded(Step(s, a)) <==>
      Silent(s, a) && Idle(s) && exists w :: w in s.quiet.waiters && w.minimum == s.quiet.generation + 1
  {
    if !Silent(s, a) {
      StepKeepsWakeUps(s, a);
    } else {
      var t := Step(s, a);
      assert t.quiet.generation == s.quiet.generation + 1 && t.quiet.waiters == s.quiet.waiters;
      assert Idle(t) <==> Idle(s);
      if Idle(s) && exists w :: w in s.quiet.waiters && w.minimum == s.quiet.generation + 1 {
        var w :| w in s.quiet.waiters && w.minimum == s.quiet.generation + 1;
        assert w in t.quiet.waiters;
      }
    }
  }

  /** The refusal of a reserved Session does strand a waiter for the generation it opens. */
  lemma RefusalStrands()
    ensures !NoStranded(After([WaitFor(Waiter(0, 1)), Refuse("m")]))
  {
    var w := Waiter(0, 1);
    var actions := [WaitFor(w), Refuse("m")];
    assert actions[..1] == [WaitFor(w)] && actions[..1][..0] == [];
    assert After([WaitFor(w)]) == Step(START, WaitFor(w));
    var s := After(actions);
    assert s == Step(Step(START, WaitFor(w)), Refuse("m"));
    assert s.quiet.waiters == [w];
    assert w in s.quiet.waiters;
  }

  /** A registered waiter stays registered until it is woken, or gives up. */
  lemma WaitersAreKeptOrWoken(s: Runtime, a: Action, w: Waiter)
    requires w in s.quiet.waiters && a != StopWaiting(w.id)
    ensures var t := Step(s, a);
      w in t.quiet.waiters || (Idle(t) && w.minimum <= t.quiet.generation && Woken(w, t.quiet.generation) in t.quiet.woken)
  {
    var t := Step(s, a);
    if a.StopWaiting? {
      ForgetMembers(s.quiet.waiters, a.waiterId);
    } else {
      StillWaitingMembers(s.quiet.waiters, s.quiet.generation);
      WokenByMembers(s.quiet.waiters, s.quiet.generation);
    }
  }

  /** Whoever is woken is woken by an idle runtime that has reached its generation. */
  lemma WokenOnlyWhenIdle(s: Runtime, a: Action, x: Woken)
    requires x !in s.quiet.woken && x in Step(s, a).quiet.woken
    ensures Idle(Step(s, a)) && x.generation == Step(s, a).quiet.generation && x.waiter.minimum <= x.generation
  {
    WokenByMembers(s.quiet.waiters, s.quiet.generation);
  }
}
