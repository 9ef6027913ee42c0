/**
 The callbacks that the runtime commits, as functions on the durable body. A callback
 that throws is None; the store then rejects the commit without writing anything.
 Module `ClaudeDraft` runs the same callbacks in place.
 */
module ClaudeCallbacks {
  import opened Wrappers
  import opened ClaudeState

  datatype Outcome = OutcomeCompleted | OutcomeFailed | OutcomeCancelled | OutcomeInterrupted

  predicate Pending(m: Input) {
    m.status == Delivering || m.status == Running
  }

  predicate Terminal(m: Input) {
    !Pending(m) && m.status != Accepted
  }

  function FindId(messages: seq<Input>, id: string): (index: Option<nat>)
    ensures index.Some? ==> index.value < |messages| && messages[index.value].id == id
    ensures index.Some? ==> forall i :: 0 <= i < index.value ==> messages[i].id != id
    ensures index.None? <==> forall i :: 0 <= i < |messages| ==> messages[i].id != id
  {
    FindFrom(messages, 0, (m: Input) => m.id == id)
  }

  function FindTerminal(messages: seq<Input>): (index: Option<nat>)
    ensures index.Some? ==> index.value < |messages| && Terminal(messages[index.value])
    ensures index.None? <==> forall i :: 0 <= i < |messages| ==> !Terminal(messages[i])
  {
    FindFrom(messages, 0, (m: Input) => Terminal(m))
  }

  /** `findIndex` from a position. */
  function FindFrom(messages: seq<Input>, from: nat, test: Input -> bool): (index: Option<nat>)
    requires from <= |messages|
    ensures index.Some? ==> from <= index.value < |messages| && test(messages[index.value])
    ensures index.Some? ==> forall i :: from <= i < index.value ==> !test(messages[i])
    ensures index.None? ==> forall i :: from <= i < |messages| ==> !test(messages[i])
    decreases |messages| - from
  {
    if from == |messages| then None
    else if test(messages[from]) then Some(from)
    else FindFrom(messages, from + 1, test)
  }

  function Each(messages: seq<Input>, change: Input -> Input): (changed: seq<Input>)
    ensures |changed| == |messages|
    ensures forall i :: 0 <= i < |messages| ==> changed[i] == change(messages[i])
  {
    seq(|messages|, i requires 0 <= i < |messages| => change(messages[i]))
  }

  function IsRun(run: Option<Run>, id: nat): bool {
    run.Some? && run.value.id == id
  }

  // --------------------------------------------------------------- initialize

  function RecoverInput(m: Input, run: Option<Run>, wasCancelled: bool, nextRun: nat): Input {
    if m.status == Accepted then m.(runId := nextRun)
    else
      var settled := if !Pending(m) then m
                     else m.(status := if wasCancelled && IsRun(run, m.runId) then Cancelled else Interrupted,
                             reason := "native_outcome_unknown");
      settled.(settings := None)
  }

  function RecoverRun(run: Option<Run>): Option<Run> {
    if run.Some? && run.value.status in {RunRunning, RunFinishing, RunCancelling} then
      Some(run.value.(status := if run.value.status == RunCancelling then RunCancelled else RunInterrupted,
                      error := "native_outcome_unknown"))
    else run
  }

  /** `seed` is the native conversation to adopt when the file is new: its ID and whether it can be resumed. */
  function Recover(b: Body, isNew: bool, seed: Option<(nat, bool)>, nextRun: nat): Body {
    var wasCancelled := b.run.Some? && b.run.value.status == RunCancelling;
    Body(
      if isNew && seed.Some? then seed.value.0 else b.conversationId,
      if isNew && seed.Some? then seed.value.1 else b.nativeStarted,
      Each(b.messages, m => RecoverInput(m, b.run, wasCancelled, nextRun)),
      RecoverRun(b.run),
      b.controls)
  }

  // --------------------------------------------------------------- admitInput

  /** Makes room by evicting the oldest finished input; `splice(-1, 1)` removes the last one when none is finished. */
  function Evict(messages: seq<Input>): seq<Input> {
    if |messages| < MAX_MESSAGES then messages
    else
      match FindTerminal(messages)
      case Some(i) => messages[..i] + messages[i + 1..]
      case None => messages[..|messages| - 1]
  }

  function Admit(b: Body, input: Input): Body {
    b.(messages := Evict(b.messages) + [input],
       run := if IsRun(b.run, input.runId) then Some(b.run.value.(inputIds := b.run.value.inputIds + [input.id])) else b.run)
  }

  // ------------------------------------------------------------------ deliver

  /** accepted -> delivering; a missing input throws, any other status leaves the body alone. */
  function Claim(b: Body, id: string): Option<Body> {
    match FindId(b.messages, id)
    case None => None
    case Some(i) =>
      var m := b.messages[i];
      if m.status != Accepted then Some(b)
      else Some(b.(messages := b.messages[i := m.(status := Delivering, settings := None)]))
  }

  predicate ClaimAttempts(b: Body, id: string) {
    var i := FindId(b.messages, id);
    i.Some? && b.messages[i.value].status == Accepted
  }

  /** Nothing was written: the input is detached from the finishing run and stays deliverable. */
  function Release(b: Body, run: nat, id: string, nextRun: nat, settings: nat): Option<Body> {
    match FindId(b.messages, id)
    case None => None
    case Some(i) =>
      Some(b.(messages := b.messages[i := b.messages[i].(status := Accepted, runId := nextRun, settings := Some(settings))],
              run := if IsRun(b.run, run) then Some(b.run.value.(inputIds := Without(b.run.value.inputIds, id))) else b.run))
  }

  function Without(ids: seq<string>, id: string): seq<string> {
    if ids == [] then [] else (if ids[0] == id then [] else [ids[0]]) + Without(ids[1..], id)
  }

  // -------------------------------------------------------------------- start

  predicate InRun(m: Input, run: nat) {
    m.runId == run && (Pending(m) || m.status == Accepted)
  }

  function RunInputs(messages: seq<Input>, run: nat): seq<string> {
    if messages == [] then []
    else RunInputs(messages[..|messages| - 1], run)
         + if InRun(messages[|messages| - 1], run) then [messages[|messages| - 1].id] else []
  }

  /** Records the first attempted delivery before a process is constructed; the status is not checked again. */
  function StartRun(b: Body, run: nat, first: string): Option<Body> {
    match FindId(b.messages, first)
    case None => None
    case Some(i) =>
      var messages := b.messages[i := b.messages[i].(status := Delivering, settings := None)];
      Some(b.(messages := messages, run := Some(Run(run, RunInputs(messages, run), RunRunning, ""))))
  }

  function FinaliseInput(m: Input, run: nat, outcome: Outcome, code: string): Input {
    if !InRun(m, run) then m
    else m.(status := if outcome.OutcomeCancelled? then Cancelled
                      else if code == "authentication_required" || code == "native_resume_unavailable" then Failed
                      else Interrupted,
            reason := if code == "" then "native_outcome_unknown" else code,
            settings := None)
  }

  function OutcomeStatus(outcome: Outcome): RunStatus {
    match outcome
    case OutcomeCompleted => RunCompleted
    case OutcomeFailed => RunFailed
    case OutcomeCancelled => RunCancelled
    case OutcomeInterrupted => RunInterrupted
  }

  /** `code` is empty when the run ended without an error. */
  function Finalise(b: Body, run: nat, outcome: Outcome, code: string): Body {
    b.(messages := Each(b.messages, m => FinaliseInput(m, run, outcome, code)),
       run := if IsRun(b.run, run)
              then Some(b.run.value.(status := OutcomeStatus(outcome), error := if code == "" then b.run.value.error else code))
              else b.run)
  }

  function MarkCancelling(b: Body, run: nat): Body {
    b.(run := if IsRun(b.run, run) then Some(b.run.value.(status := RunCancelling)) else b.run)
  }

  // ------------------------------------------------------------ commitObserved

  /** Native IDs are distinct, so marking each match is marking the first one. */
  function EchoInput(m: Input, run: nat, uuid: nat): Input {
    if m.runId == run && m.nativeId == uuid && m.status == Delivering then m.(status := Running) else m
  }

  function ResultInput(m: Input, run: nat, isError: bool): Input {
    if m.runId == run && m.status == Running
    then m.(status := if isError then Failed else Completed, settings := None) else m
  }

  /** One observed event. `accepting` is what the run's stream reports while the callback runs. */
  function ObserveOne(b: Body, run: nat, event: NativeEvent, accepting: bool): Option<Body> {
    if b.run.None? then None
    else
      match event
      case SystemInit(sessionId) => if sessionId != b.conversationId then None else Some(b)
      case UserEcho(uuid) =>
        Some(b.(messages := Each(b.messages, m => EchoInput(m, run, uuid)),
                nativeStarted := b.nativeStarted || exists m :: m in b.messages && m.runId == run && m.nativeId == uuid))
      case ResultEvent(isError) =>
        Some(b.(messages := Each(b.messages, m => ResultInput(m, run, isError)),
                run := if !accepting && b.run.value.status == RunRunning then Some(b.run.value.(status := RunFinishing)) else b.run))
      case OtherEvent(_) => Some(b)
  }

  function Observe(b: Body, run: nat, batch: seq<NativeEvent>, accepting: bool): Option<Body> {
    if batch == [] then Some(b)
    else
      match Observe(b, run, batch[..|batch| - 1], accepting)
      case None => None
      case Some(b') => ObserveOne(b', run, batch[|batch| - 1], accepting)
  }

  // ----------------------------------------------------------- cancel and reset

  function PushControl(controls: seq<Control>, control: Control): seq<Control> {
    (if |controls| >= MAX_CONTROLS then controls[1..] else controls) + [control]
  }

  function ResetInput(m: Input): Input {
    if m.status == Accepted then m.(status := Cancelled, reason := "session_reset", settings := None) else m
  }

  function ResetSession(b: Body, conversationId: nat, control: Control): Body {
    Body(conversationId, false, Each(b.messages, m => ResetInput(m)), None, PushControl(b.controls, control))
  }

  /** `requested` is the live run to cancel, `dormant` an input whose run has not started. */
  function CancelWork(b: Body, requested: Option<nat>, dormant: Option<string>, control: Control): Option<Body> {
    var marked := if requested.Some? then MarkCancelling(b, requested.value) else b;
    var controls := PushControl(b.controls, control);
    if dormant.None? then Some(marked.(controls := controls))
    else
      match FindId(b.messages, dormant.value)
      case None => None
      case Some(i) =>
        var m := b.messages[i].(status := Cancelled, reason := "cancelled_before_start", settings := None);
        Some(marked.(messages := b.messages[i := m], controls := controls))
  }
}
