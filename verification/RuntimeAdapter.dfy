/**
 One Session runtime incarnation: message intake, activities, harness operations, controls,
 recoveries, and the idle predicate over all of them. Every step ends with the call of
 `changed` that the source makes there, and with no other.
 */
module RuntimeAdapter {
  import opened Wrappers
  import opened RuntimeQuiescence
  import Mailbox
  import Activity

  const MAX_HARNESS_OPERATIONS: nat := 256

  /** A harness operation and the follow-up messages it has buffered. */
  datatype Operation = Operation(open: bool, followups: nat)

  datatype Runtime = Runtime(
    mailbox: Mailbox.Box, activity: Activity.Scheduler, operations: map<string, Operation>, controls: nat,
    recoveries: set<string>, quiet: Quiet)

  datatype Action =
    | Message(id: string)
    | Control(id: string)
    | Refuse(id: string)
    | Recover(recovery: string, id: string)
    | ControlDone
    | Mail(mail: Mailbox.Action)
    | Act(act: Activity.Action)
    | FlushActivity(key: nat, id: string)
    | DropActivityFollowup(key: nat)
    | StartOperation(id: string)
    | BufferFollowup(id: string)
    | CloseOperation(id: string)
    | FlushOperation(id: string, followup: string)
    | DropOperationFollowup(id: string)
    | EndOperation(id: string)
    | WaitFor(waiter: Waiter)
    | StopWaiting(waiterId: nat)

  const START := Runtime(Mailbox.EMPTY, Activity.IDLE, map[], 0, {}, SILENT)

  predicate Idle(s: Runtime) {
    Mailbox.IsIdle(s.mailbox) && Activity.IsIdle(s.activity) && s.operations == map[] && s.controls == 0
  }

  function Notify(s: Runtime): Runtime {
    s.(quiet := Changed(s.quiet, Idle(s)))
  }

  /** `receive` for one message ID: a generation, then a mailbox entry. */
  function Receive(s: Runtime, observed: string, entry: string): Runtime {
    s.(quiet := Observe(s.quiet, observed), mailbox := Mailbox.Step(s.mailbox, Mailbox.Enqueue(entry)))
  }

  /** The scheduler steps after which it reports a change. */
  predicate Reports(before: Activity.Scheduler, act: Activity.Action, after: Activity.Scheduler) {
    match act
    case Start(_) => after != before
    case Queue(_, _) => after != before
    case RunDrain => after.log != before.log
    case Cancel(_) => after != before
    case CancelMessage(_) => after != before
    case Expire => after != before
    case Release(_) => after != before
    case Flushed(_) => after != before
    case _ => false
  }

  function ActStep(s: Runtime, act: Activity.Action): Runtime {
    var t := s.(activity := Activity.Step(s.activity, act));
    if Reports(s.activity, act, t.activity) then Notify(t) else t
  }

  function MailStep(s: Runtime, mail: Mailbox.Action): Runtime {
    if mail.Enqueue? then s
    else
      var t := s.(mailbox := Mailbox.Step(s.mailbox, mail));
      if mail.Settle? then Notify(t) else t
  }

  function OperationStep(s: Runtime, a: Action): Runtime {
    match a
    case StartOperation(id) =>
      // Only a running handler hands work to the harness.
      if !s.mailbox.handling.Busy? || s.mailbox.handling.entry.id != id || |s.operations| >= MAX_HARNESS_OPERATIONS then s
      else Notify(s.(operations := s.operations[id := Operation(true, 0)]))
    case BufferFollowup(id) =>
      if id !in s.operations || !s.operations[id].open || s.operations[id].followups >= Activity.MAX_QUEUED then s
      else s.(operations := s.operations[id := Operation(true, s.operations[id].followups + 1)])
    case CloseOperation(id) =>
      if id !in s.operations then s else s.(operations := s.operations[id := s.operations[id].(open := false)])
    case FlushOperation(id, followup) =>
      if id !in s.operations || s.operations[id].open || s.operations[id].followups == 0 then s
      else
        Receive(s.(operations := s.operations[id := Operation(false, s.operations[id].followups - 1)]), followup, followup)
    case DropOperationFollowup(id) =>
      // The message intake refused it; the flush goes on with the next one.
      if id !in s.operations || s.operations[id].open || s.operations[id].followups == 0 then s
      else s.(operations := s.operations[id := Operation(false, s.operations[id].followups - 1)])
    case EndOperation(id) =>
      if id !in s.operations || s.operations[id] != Operation(false, 0) then s
      else Notify(s.(operations := s.operations - {id}))
    case _ => s
  }

  function Step(s: Runtime, a: Action): Runtime {
    match a
    case Message(id) => Receive(s, id, id)
    case Control(id) => s.(quiet := Observe(s.quiet, id), controls := s.controls + 1)
    case Refuse(id) => s.(quiet := Observe(s.quiet, id))
    case Recover(recovery, id) =>
      if recovery in s.recoveries then s else Receive(s, id, recovery).(recoveries := s.recoveries + {recovery})
    case ControlDone => if s.controls == 0 then s else Notify(s.(controls := s.controls - 1))
    case Mail(mail) => MailStep(s, mail)
    case Act(act) => if act.FlushOne? then s else ActStep(s, act)
    case FlushActivity(key, id) =>
      var index := Activity.FlushingIndex(s.activity.flushing, key);
      if index.None? || s.activity.flushing[index.value].followups == 0 then s
      else Receive(s.(activity := Activity.Step(s.activity, Activity.FlushOne(key))), id, id)
    case DropActivityFollowup(key) =>
      var index := Activity.FlushingIndex(s.activity.flushing, key);
      if index.None? || s.activity.flushing[index.value].followups == 0 then s
      else s.(activity := Activity.Step(s.activity, Activity.FlushOne(key)))
    case WaitFor(waiter) => s.(quiet := Wait(s.quiet, waiter, Idle(s)))
    case StopWaiting(id) => s.(quiet := s.quiet.(waiters := Forget(s.quiet.waiters, id)))
    case _ => OperationStep(s, a)
  }

  function After(actions: seq<Action>): Runtime {
    if actions == [] then START else Step(After(actions[..|actions| - 1]), actions[|actions| - 1])
  }
}
