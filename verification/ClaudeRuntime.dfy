/**
 The durable Claude runtime as a transition system. Every stretch of the source between
 two awaits is one step. The tasks that can be suspended at the same time are the Message
 handler (the mailbox runs one handler at a time), the activity that owns the live run, the
 observer of native events, the delta timer, the cancel hook and the publisher. Their
 commits wait in the FIFO operation chain of the store. `written`, `used` and `log` are
 history: the native IDs whose bytes reached a native stream, all native IDs ever made,
 and the native events observed, in order and across restarts. `foreign` holds the echoed
 IDs that belong to no input.
 */
module ClaudeRuntime {
  import opened Wrappers
  import opened ClaudeState
  import opened ClaudeCallbacks
  import opened ClaudeCallbackFacts
  import Lines
  import S = ClaudeStore

  const RUN_MAX_INPUTS: nat := 32
  const APP_SETTINGS: nat := 0

  datatype Task = Handler | Activity | Observer | Timer | Canceller | Publisher

  /** One delivery in progress: the input as `deliver` or `start` captured it. */
  datatype Delivery = Delivery(run: nat, id: string, nativeId: nat, settings: nat)

  datatype Op =
    | Initialize(seed: Option<(nat, bool)>, nextRun: nat)
    | AdmitInput(id: string, text: string, run: nat, settings: nat, fingerprint: nat, toRun: bool)
    | ClaimInput(delivery: Delivery)
    | ReleaseInput(delivery: Delivery, nextRun: nat)
    | StartFirst(delivery: Delivery)
    | ObserveBatch(run: nat, batch: seq<NativeEvent>)
    | FinaliseRun(run: nat, first: string, outcome: Outcome, code: string)
    | MarkRun(run: nat)
    | CancelControl(requested: Option<nat>, dormant: Option<string>, control: Control)
    | ResetControl(conversationId: nat, control: Control)

  datatype Next =
    | ThenDeliver(run: nat, id: string, settings: nat)
    | ThenRetry(id: string, run: nat)
    | ThenStart
    | ThenNothing
    | ThenLoop
    | ThenClose

  /** Where a task is suspended. */
  datatype Pc =
    | Idle
    | Queued(op: Op)                                              // its commit waits in the operation chain
    | Writing(op: Op, attempted: bool, nativeId: nat, accepting: bool)  // its draft is being persisted
    | Publishing(next: Next)                                      // awaiting a flush
    | AwaitReady(run: nat, id: string, settings: nat)             // awaiting the run's stream
    | Sending(delivery: Delivery, first: bool)                    // holds the right to hand this native ID over
    | Launched(delivery: Delivery)                                // the activity has not reached its first commit
    | Looping
    | Draining                                                    // awaiting `stream.done`
    | Settling(failed: bool)
    | Closing                                                     // the activity slot is not free yet

  datatype ActiveRun = ActiveRun(id: nat, first: string, settings: nat, ready: bool, open: bool, aborted: bool)

  datatype SendOutcome = Wrote | Broke(wrote: bool) | Refused

  datatype System = System(
    core: S.StoreSystem, queue: seq<Task>, writer: Option<Task>, initialised: bool,
    h: Pc, a: Pc, o: Pc, t: Pc, c: Pc, rest: seq<string>, active: Option<ActiveRun>,
    written: seq<nat>, used: set<nat>, foreign: set<nat>, log: Log)

  datatype Action =
    | Crash(landed: bool)
    | Weigh(sizes: Sizes)
    | Open(conversationId: nat, seed: Option<(nat, bool)>, nextRun: nat)
    | BeginHead(nativeId: nat, accepting: bool)
    | FinishWrite(write: S.WriteOutcome)
    | StartFlush
    | SendPart
    | AbortFlush
    | HandlerStart
    | HandlerAdmit(id: string, text: string, run: nat, settings: nat, fingerprint: nat)
    | HandlerRetry(id: string, fingerprint: nat)
    | HandlerCancel(message: nat, selected: Option<string>)
    | HandlerReset(message: nat, conversationId: nat)
    | HandlerResume(ok: bool)
    | HandlerReady(ok: bool)
    | HandlerSend(send: SendOutcome, nextRun: nat)
    | ActivitySkipped
    | ActivityLaunch
    | ActivitySend(send: SendOutcome, nextRun: nat)
    | ActivityNext
    | ActivityResume(ok: bool)
    | ActivityDrained(ok: bool)
    | ActivitySettle(outcome: Outcome, code: string)
    | ActivityClosed
    | ObserveEvents(timer: bool, run: nat, batch: seq<NativeEvent>)
    | CancelHook
    | StreamCloses

  // ------------------------------------------------------------------ helpers

  function Init(): System {
    System(S.Init(), [], None, false, Idle, Idle, Idle, Idle, Idle, [], None, [], {}, {}, [])
  }

  function PcOf(s: System, task: Task): Pc {
    match task
    case Handler => s.h
    case Activity => s.a
    case Observer => s.o
    case Timer => s.t
    case Canceller => s.c
    case Publisher => Idle
  }

  function SetPc(s: System, task: Task, pc: Pc): System {
    match task
    case Handler => s.(h := pc)
    case Activity => s.(a := pc)
    case Observer => s.(o := pc)
    case Timer => s.(t := pc)
    case Canceller => s.(c := pc)
    case Publisher => s
  }

  function Enqueue(s: System, task: Task, op: Op): System {
    SetPc(s, task, Queued(op)).(queue := s.queue + [task])
  }

  predicate IsOpen(s: System) {
    s.core.store.current.Some?
  }

  function Current(s: System): Body
    requires IsOpen(s)
  {
    s.core.store.current.value.body
  }

  predicate HandlerFree(s: System) {
    IsOpen(s) && s.initialised && s.h.Idle?
  }

  predicate StreamOpen(s: System) {
    s.active.Some? && s.active.value.ready && s.active.value.open
  }

  function Abort(s: System): System {
    if s.active.None? then s else s.(active := Some(s.active.value.(aborted := true, open := false)))
  }

  function Close(s: System): System {
    if s.active.None? then s else s.(active := Some(s.active.value.(open := false)))
  }

  predicate Aborted(s: System) {
    s.active.Some? && s.active.value.aborted
  }

  function FindAccepted(messages: seq<Input>): (index: Option<nat>)
    ensures index.Some? ==> index.value < |messages| && messages[index.value].status == Accepted
  {
    FindFrom(messages, 0, (m: Input) => m.status == Accepted)
  }

  function CountRun(messages: seq<Input>, run: nat): nat {
    if messages == [] then 0
    else CountRun(messages[..|messages| - 1], run) + if messages[|messages| - 1].runId == run then 1 else 0
  }

  function AcceptedOfRun(messages: seq<Input>, run: nat): seq<string> {
    if messages == [] then []
    else AcceptedOfRun(messages[..|messages| - 1], run)
         + if messages[|messages| - 1].runId == run && messages[|messages| - 1].status == Accepted then [messages[|messages| - 1].id] else []
  }

  // ------------------------------------------------- the operation chain

  function Mutate(op: Op, state: State, nativeId: nat, accepting: bool): Option<Body> {
    var b := state.body;
    match op
    case Initialize(seed, nextRun) => Some(Recover(b, state.revision == 0, seed, nextRun))
    case AdmitInput(id, text, run, settings, fingerprint, _) =>
      Some(Admit(b, Input(id, text, nativeId, run, Accepted, Some(settings), fingerprint, "")))
    case ClaimInput(d) => Claim(b, d.id)
    case ReleaseInput(d, nextRun) => Release(b, d.run, d.id, nextRun, d.settings)
    case StartFirst(d) => StartRun(b, d.run, d.id)
    case ObserveBatch(run, batch) => Observe(b, run, batch, accepting)
    case FinaliseRun(run, _, outcome, code) => Some(Finalise(b, run, outcome, code))
    case MarkRun(run) => Some(MarkCancelling(b, run))
    case CancelControl(requested, dormant, control) => CancelWork(b, requested, dormant, control)
    case ResetControl(conversationId, control) => Some(ResetSession(b, conversationId, control))
  }

  function EventsOf(op: Op): seq<Event> {
    match op
    case ObserveBatch(run, batch) => seq(|batch|, i requires 0 <= i < |batch| => ClaudeEvent(run, batch[i], None))
    case FinaliseRun(_, first, _, code) => if code == "authentication_required" then [AuthRequired(first)] else []
    case _ => []
  }

  /** The commit of `task` was rejected or its write failed. */
  function Fail(s: System, task: Task, op: Op): System {
    match task
    case Handler =>
      if op.Initialize? then s.(core := S.Step(s.core, S.Discard), h := Idle) else s.(h := Idle)
    case Activity => if op.FinaliseRun? then s.(a := Closing) else s.(a := Settling(true))
    case Observer => s.(o := Idle)
    case Timer => Abort(s.(t := Idle))
    case Canceller => Abort(s.(c := Idle))
    case Publisher => s.(core := S.Step(s.core, S.AbortFlush))
  }

  /** The commit of `task` is durable. */
  function Done(s: System, task: Task, op: Op, attempted: bool): System {
    match task
    case Handler => HandlerDone(s, op, attempted)
    case Activity => ActivityDone(s, op, attempted)
    case Observer => s.(o := Idle)
    case Timer => s.(t := Idle)
    case Canceller => Abort(s.(c := Idle))
    case Publisher => s
  }

  function HandlerDone(s: System, op: Op, attempted: bool): System {
    match op
    case Initialize(_, _) => s.(initialised := true, h := Idle)
    case AdmitInput(id, _, run, settings, _, toRun) => s.(h := Publishing(if toRun then ThenDeliver(run, id, settings) else ThenStart))
    case ClaimInput(d) => s.(h := if attempted then Sending(d, false) else Idle)
    case CancelControl(requested, _, _) =>
      var t := s.(h := Publishing(ThenNothing));
      if requested.Some? && s.active.Some? && s.active.value.id == requested.value then Abort(t) else t
    case _ => s.(h := Publishing(ThenNothing))
  }

  function ActivityDone(s: System, op: Op, attempted: bool): System {
    match op
    case StartFirst(d) =>
      s.(a := Sending(d, true),
         active := if s.active.Some? then Some(s.active.value.(ready := true, open := !s.active.value.aborted)) else None)
    case ClaimInput(d) => s.(a := if attempted then Sending(d, false) else Looping)
    case ReleaseInput(_, _) => s.(a := Publishing(ThenLoop))
    case FinaliseRun(_, _, _, _) => s.(a := Publishing(ThenClose))
    case _ => s.(a := Settling(true))
  }

  predicate CanWrite(s: System, body: Option<Body>, events: seq<Event>) {
    S.CanBegin(s.core.store) && body.Some? && S.CommitDraft(s.core.store.current.value, body.value, events, s.core.sizes).Some?
  }

  function BeginOp(s: System, task: Task, op: Op, nativeId: nat, accepting: bool): System {
    var body := if IsOpen(s) then Mutate(op, s.core.store.current.value, nativeId, accepting) else None;
    if !CanWrite(s, body, EventsOf(op)) then Fail(s, task, op)
    else
      var attempted := op.ClaimInput? && ClaimAttempts(Current(s), op.delivery.id);
      SetPc(s, task, Writing(op, attempted, nativeId, accepting)).(
        core := S.Step(s.core, S.Begin(body.value, EventsOf(op))),
        writer := Some(task),
        used := if op.AdmitInput? then s.used + {nativeId} else s.used,
        log := if op.ObserveBatch? then s.log + Tag(op.run, op.batch) else s.log)
  }

  /** The head of the chain runs its callback; a fenced store, a throwing callback or a full outbox rejects it. */
  function BeginHeadStep(s: System, nativeId: nat, accepting: bool): System {
    if s.queue == [] || s.writer.Some? || nativeId in s.used + s.foreign then s
    else
      var task := s.queue[0];
      var s' := s.(queue := s.queue[1..]);
      if task.Publisher? then
        if !S.CanBegin(s.core.store) then Fail(s', Publisher, MarkRun(0))
        else s'.(core := S.Step(s.core, S.BeginAck), writer := Some(Publisher))
      else if !PcOf(s, task).Queued? then s
      else BeginOp(s', task, PcOf(s, task).op, nativeId, accepting)
  }

  /**
   A durable write completes. The activity's own hand-off after a claim needs no I/O (the stream is
   ready once the first input went through), so no write completes between the two.
   */
  function FinishWriteStep(s: System, outcome: S.WriteOutcome): System {
    if s.writer.None? || (s.a.Sending? && !s.a.first) then s
    else
      var task := s.writer.value;
      var pc := PcOf(s, task);
      var s' := s.(core := S.Step(s.core, S.Finish(outcome)), writer := None);
      if task.Publisher? then s'
      else if !pc.Writing? then s'
      else if outcome.Stored? then Done(s', task, pc.op, pc.attempted)
      else Fail(s', task, pc.op)
  }

  // ------------------------------------------------------------ handler steps

  /** `start`: takes the first accepted input when no run and no activity exist. */
  function StartNext(s: System): System
    requires IsOpen(s)
  {
    var first := FindAccepted(Current(s).messages);
    if s.active.Some? || !s.a.Idle? || first.None? then s.(h := Idle)
    else
      var m := Current(s).messages[first.value];
      var settings := if m.settings.Some? then m.settings.value else APP_SETTINGS;
      s.(h := Idle, active := Some(ActiveRun(m.runId, m.id, settings, false, false, false)),
         a := Launched(Delivery(m.runId, m.id, m.nativeId, settings)))
  }

  predicate AdmitRefused(s: System, settings: nat)
    requires IsOpen(s)
  {
    var messages := Current(s).messages;
    || (s.active.Some? && ((s.active.value.ready && !s.active.value.open) || s.active.value.aborted))
    || (s.active.None? && !s.a.Idle?)
    || (s.active.Some? && settings != s.active.value.settings)
    || (|messages| >= MAX_MESSAGES && FindTerminal(messages).None?)
    || (s.active.Some? && CountRun(messages, s.active.value.id) >= RUN_MAX_INPUTS)
  }

  /** What `trim` removes. */
  predicate IsSpace(c: char) {
    || '\t' <= c <= '\r' || c == ' ' || c == '\U{00A0}' || c == '\U{1680}' || '\U{2000}' <= c <= '\U{200A}'
    || c == '\U{2028}' || c == '\U{2029}' || c == '\U{202F}' || c == '\U{205F}' || c == '\U{3000}' || c == '\U{FEFF}'
  }

  predicate ValidText(text: string) {
    (exists c :: c in text && !IsSpace(c)) && Lines.Size(text) <= INPUT_MAX_BYTES
  }

  function HandlerAdmitStep(s: System, id: string, text: string, run: nat, settings: nat, fingerprint: nat): System {
    if !HandlerFree(s) || !ValidText(text) || FindId(Current(s).messages, id).Some? || AdmitRefused(s, settings) then s
    else Enqueue(s, Handler, AdmitInput(id, text, if s.active.Some? then s.active.value.id else run, settings, fingerprint, s.active.Some?))
  }

  function HandlerRetryStep(s: System, id: string, fingerprint: nat): System {
    if !HandlerFree(s) then s
    else
      match FindId(Current(s).messages, id)
      case None => s
      case Some(i) =>
        var m := Current(s).messages[i];
        if m.fingerprint != fingerprint then s
        else s.(h := Publishing(if m.status == Accepted then ThenRetry(id, m.runId) else ThenNothing))
  }

  function FindControl(controls: seq<Control>, message: nat): (found: Option<Control>) {
    if controls == [] then None
    else if controls[0].id == message then Some(controls[0])
    else FindControl(controls[1..], message)
  }

  /** A retried control replays its reply, repeating the abort when its run is still live. */
  function ReplayControl(s: System, previous: Control, key: string): System {
    if previous.fingerprint != key then s
    else
      var t := s.(h := Publishing(ThenNothing));
      if previous.runId.Some? && s.active.Some? && s.active.value.id == previous.runId.value then Abort(t) else t
  }

  function HandlerCancelStep(s: System, message: nat, id: Option<string>): System {
    if !HandlerFree(s) then s
    else
      var messages := Current(s).messages;
      var key := "cancel" + if id.Some? then ":" + id.value else "";
      var previous := FindControl(Current(s).controls, message);
      if previous.Some? then ReplayControl(s, previous.value, key)
      else
        var selected := if id.Some? then FindId(messages, id.value) else None;
        if id.Some? && selected.None? then s
        else
          var requested := s.active.Some? && (selected.None? || InRun(messages[selected.value], s.active.value.id));
          var dormant := !requested && selected.Some? && messages[selected.value].status == Accepted;
          var run := if requested then Some(s.active.value.id) else None;
          Enqueue(s, Handler, CancelControl(run, if dormant then id else None,
                                            Control(message, key, CancelAccepted(requested || dormant), run)))
  }

  function HandlerResetStep(s: System, message: nat, conversationId: nat): System {
    if !HandlerFree(s) then s
    else
      var previous := FindControl(Current(s).controls, message);
      if previous.Some? then ReplayControl(s, previous.value, "reset")
      else if s.active.Some? || !s.a.Idle? then s
      else Enqueue(s, Handler, ResetControl(conversationId, Control(message, "reset", SessionReset(conversationId), None)))
  }

  function HandlerResumeStep(s: System, ok: bool): System {
    if !IsOpen(s) || !s.h.Publishing? then s
    else if !ok then s.(h := Idle)
    else
      match s.h.next
      case ThenDeliver(run, id, settings) => s.(h := AwaitReady(run, id, settings))
      case ThenRetry(id, run) =>
        if s.active.Some? then s.(h := if s.active.value.id == run then AwaitReady(run, id, s.active.value.settings) else Idle)
        else StartNext(s)
      case ThenStart => StartNext(s)
      case _ => s.(h := Idle)
  }

  /** `deliver` after `run.ready`; a live run must have resolved it. */
  function HandlerReadyStep(s: System, ok: bool): System {
    if !IsOpen(s) || !s.h.AwaitReady? then s
    else if !ok then s.(h := Idle)
    else if s.active.Some? && !s.active.value.ready then s
    else
      match FindId(Current(s).messages, s.h.id)
      case None => s.(h := Idle)
      case Some(i) =>
        var m := Current(s).messages[i];
        if m.status != Accepted then s.(h := Idle)
        else Enqueue(s, Handler, ClaimInput(Delivery(s.h.run, s.h.id, m.nativeId, s.h.settings)))
  }

  /**
   `send` resolves, breaks, or is refused because the stream has closed. A refused input is given back;
   when the run was aborted the refusal breaks the delivery like any other error.
   */
  function HandlerSendStep(s: System, outcome: SendOutcome, nextRun: nat): System {
    if !s.h.Sending? then s
    else
      var d := s.h.delivery;
      match outcome
      case Wrote => if !StreamOpen(s) then s else s.(h := Publishing(ThenNothing), written := s.written + [d.nativeId])
      case Broke(wrote) => Abort(s.(h := Idle, written := if wrote then s.written + [d.nativeId] else s.written))
      case Refused => if StreamOpen(s) || Aborted(s) then s else Enqueue(s, Handler, ReleaseInput(d, nextRun))
  }

  // ----------------------------------------------------------- activity steps

  function ActivitySendStep(s: System, outcome: SendOutcome, nextRun: nat): System {
    if !s.a.Sending? || !IsOpen(s) then s
    else
      var d := s.a.delivery;
      match outcome
      case Wrote =>
        if !StreamOpen(s) then s
        else
          var t := s.(written := s.written + [d.nativeId]);
          if s.a.first then t.(a := Looping, rest := AcceptedOfRun(Current(s).messages, d.run))
          else t.(a := Publishing(ThenLoop))
      case Broke(wrote) =>
        var t := s.(a := Settling(true), written := if wrote then s.written + [d.nativeId] else s.written);
        if s.a.first then Close(t) else Abort(t)
      case Refused =>
        if StreamOpen(s) then s
        else if s.a.first then s.(a := Settling(true))
        else if Aborted(s) then s
        else Enqueue(s, Activity, ReleaseInput(d, nextRun))
  }

  function ActivityNextStep(s: System): System {
    if !s.a.Looping? || !IsOpen(s) || s.active.None? then s
    else if s.rest == [] then s.(a := Draining)
    else
      var id, t := s.rest[0], s.(rest := s.rest[1..]);
      match FindId(Current(s).messages, id)
      case None => t.(a := Settling(true))
      case Some(i) =>
        var m := Current(s).messages[i];
        if m.status != Accepted then t
        else Enqueue(t, Activity, ClaimInput(Delivery(s.active.value.id, id, m.nativeId, s.active.value.settings)))
  }

  function ActivityLaunchStep(s: System): System {
    if !s.a.Launched? || s.active.None? then s
    else if s.active.value.aborted then s.(a := Settling(true))
    else Enqueue(s, Activity, StartFirst(s.a.delivery))
  }

  function ActivityResumeStep(s: System, ok: bool): System {
    if !s.a.Publishing? then s
    else if s.a.next.ThenClose? then s.(a := Closing, active := None)
    else s.(a := if ok then Looping else Settling(true))
  }

  /** The codes that the catch clause can give to a run. */
  const ERROR_CODES: set<string> :=
    {"native_resume_unavailable", "authentication_required", "native_outcome_unknown", "native_execution_failed"}

  /** `done` has settled. */
  function ActivityDrainedStep(s: System, ok: bool): System {
    if !s.a.Draining? then s else Close(s.(a := Settling(!ok)))
  }

  function ActivitySettleStep(s: System, outcome: Outcome, code: string): System {
    if !s.a.Settling? || s.active.None? || (s.a.failed == outcome.OutcomeCompleted?) || (s.a.failed && code !in ERROR_CODES) then s
    else Enqueue(Close(s), Activity, FinaliseRun(s.active.value.id, s.active.value.first, outcome, if s.a.failed then code else ""))
  }

  function ObserveStep(s: System, timer: bool, run: nat, batch: seq<NativeEvent>): System {
    var task := if timer then Timer else Observer;
    if !s.initialised || !PcOf(s, task).Idle? || batch == [] || !EchoesWritten(s, batch) then s
    else Enqueue(s, task, ObserveBatch(run, batch)).(foreign := s.foreign + (Echoes(batch) - set n | n in s.written))
  }

  function Step(s: System, action: Action): System {
    match action
    case Crash(landed) =>
      System(S.Step(s.core, S.Crash(landed)), [], None, false, Idle, Idle, Idle, Idle, Idle, [], None, s.written, s.used, s.foreign, s.log)
    case Open(conversationId, seed, nextRun) =>
      if IsOpen(s) || !S.Opens(s.core.store.disk) then s
      else Enqueue(s.(core := S.Step(s.core, S.Open(conversationId))), Handler, Initialize(seed, nextRun))
    // Recovery leaves the token usage as it is in the file.
    case Weigh(sizes) => if !s.initialised then s else s.(core := S.Step(s.core, S.Weigh(sizes)))
    case BeginHead(nativeId, accepting) => BeginHeadStep(s, nativeId, accepting)
    case FinishWrite(outcome) => FinishWriteStep(s, outcome)
    case StartFlush => if !s.initialised then s else s.(core := S.Step(s.core, S.StartFlush))
    case SendPart =>
      if !s.core.flush.Sending? then s
      else
        var core := S.Step(s.core, S.SendPart);
        s.(core := core, queue := if core.flush.AckQueued? then s.queue + [Publisher] else s.queue)
    case AbortFlush => if !s.core.flush.Sending? then s else s.(core := S.Step(s.core, S.AbortFlush))
    case HandlerStart => if !HandlerFree(s) then s else s.(h := Publishing(ThenStart))
    case HandlerAdmit(id, text, run, settings, fingerprint) => HandlerAdmitStep(s, id, text, run, settings, fingerprint)
    case HandlerRetry(id, fingerprint) => HandlerRetryStep(s, id, fingerprint)
    case HandlerCancel(message, id) => HandlerCancelStep(s, message, id)
    case HandlerReset(message, conversationId) => HandlerResetStep(s, message, conversationId)
    case HandlerResume(ok) => HandlerResumeStep(s, ok)
    case HandlerReady(ok) => HandlerReadyStep(s, ok)
    case HandlerSend(outcome, nextRun) => HandlerSendStep(s, outcome, nextRun)
    case ActivitySkipped => if !s.a.Launched? then s else s.(a := Closing)
    case ActivityLaunch => ActivityLaunchStep(s)
    case ActivitySend(outcome, nextRun) => ActivitySendStep(s, outcome, nextRun)
    case ActivityNext => ActivityNextStep(s)
    case ActivityResume(ok) => ActivityResumeStep(s, ok)
    case ActivityDrained(ok) => ActivityDrainedStep(s, ok)
    case ActivitySettle(outcome, code) => ActivitySettleStep(s, outcome, code)
    case ActivityClosed => if !s.a.Closing? then s else s.(a := Idle)
    case ObserveEvents(timer, run, batch) => ObserveStep(s, timer, run, batch)
    case CancelHook => if !s.c.Idle? || s.active.None? then s else Enqueue(s, Canceller, MarkRun(s.active.value.id))
    case StreamCloses => Close(s)
  }

  function Echoes(batch: seq<NativeEvent>): set<nat> {
    set e | e in batch && e.UserEcho? :: e.uuid
  }

  /** The native process echoes only inputs it was given; other `user` events carry IDs that no input has. */
  predicate EchoesWritten(s: System, batch: seq<NativeEvent>) {
    forall n :: n in Echoes(batch) ==> n in s.written || n !in s.used
  }

  function After(actions: seq<Action>): System {
    if actions == [] then Init() else Step(After(actions[..|actions| - 1]), actions[|actions| - 1])
  }
}
