/**
 The durable state of one Claude Session: the inputs it has admitted, the run in
 progress, and an outbox of publications that have not been acknowledged yet.
 Identifiers made by `randomUUID` are natural numbers; settings and fingerprints
 are opaque numbers.
 */
module ClaudeState {
  import opened Wrappers
  import Lines

  const MAX_MESSAGES: nat := 1000
  const MAX_CONTROLS: nat := 1000
  const MAX_PUBLICATIONS: nat := 256
  const MAX_SAFE_INTEGER: nat := 9007199254740991
  const VIEW_ITEMS: nat := 32
  const STATE_MAX_BYTES: nat := 67108864
  const VIEW_MAX_BYTES: nat := 49152
  const INPUT_MAX_BYTES: nat := 32768

  datatype InputStatus = Accepted | Delivering | Running | Completed | Failed | Cancelled | Interrupted

  datatype Input = Input(
    id: string, text: string, nativeId: nat, runId: nat, status: InputStatus,
    settings: Option<nat>, fingerprint: nat, reason: string)

  datatype RunStatus = RunRunning | RunFinishing | RunCancelling
                     | RunCompleted | RunFailed | RunCancelled | RunInterrupted

  datatype Run = Run(id: nat, inputIds: seq<string>, status: RunStatus, error: string)

  datatype Reply = CancelAccepted(requested: bool) | SessionReset(conversationId: nat)

  datatype Control = Control(id: nat, fingerprint: string, reply: Reply, runId: Option<nat>)

  /** Everything a commit callback may change. */
  datatype Body = Body(
    conversationId: nat, nativeStarted: bool, messages: seq<Input>, run: Option<Run>, controls: seq<Control>)

  /** Events of the native process, as far as the runtime reacts to them. */
  datatype NativeEvent =
    | SystemInit(sessionId: nat)
    | UserEcho(uuid: nat)
    | ResultEvent(isError: bool)
    | OtherEvent(payload: nat)

  /** Session events; only native events carry the revision that published them. */
  datatype Event =
    | ClaudeEvent(run: nat, event: NativeEvent, revision: Option<nat>)
    | AuthRequired(id: string)

  datatype ViewInput = ViewInput(id: string, runId: nat, text: string, status: InputStatus, reason: string)

  datatype View = View(revision: nat, conversationId: nat, inputs: seq<ViewInput>, run: Option<Run>, truncated: bool)

  datatype Publication = Publication(revision: nat, view: View, events: seq<Event>)

  /**
   What this model does not represent of a state, by its size: `other` is the serialized size of
   everything but the texts of the inputs, `usage` that of the token usage in the view.
   */
  datatype Sizes = Sizes(other: nat, usage: nat)

  datatype State = State(revision: nat, body: Body, outbox: seq<Publication>, sizes: Sizes)

  function LastItems<T>(items: seq<T>, count: nat): (last: seq<T>)
    ensures |last| <= count && |last| <= |items| && last == items[|items| - |last|..]
    ensures |last| == count || last == items
  {
    if |items| <= count then items else items[|items| - count..]
  }

  function ViewOf(m: Input): ViewInput {
    ViewInput(m.id, m.runId, m.text, m.status, m.reason)
  }

  /** The published projection, before the byte budget that module `ClaudeView` applies. */
  function Project(revision: nat, body: Body): View {
    var last := LastItems(body.messages, VIEW_ITEMS);
    View(revision, body.conversationId, seq(|last|, i requires 0 <= i < |last| => ViewOf(last[i])),
         body.run, |body.messages| > VIEW_ITEMS)
  }

  function Stamp(e: Event, revision: nat): Event {
    match e
    case ClaudeEvent(run, event, _) => ClaudeEvent(run, event, Some(revision))
    case AuthRequired(_) => e
  }

  function StampAll(events: seq<Event>, revision: nat): seq<Event> {
    seq(|events|, i requires 0 <= i < |events| => Stamp(events[i], revision))
  }

  function Publish(revision: nat, body: Body, events: seq<Event>): Publication {
    Publication(revision, Project(revision, body), StampAll(events, revision))
  }

  const EMPTY_BODY := Body(0, false, [], None, [])

  /** The state a store starts from when no file exists. */
  function FreshState(conversationId: nat): State {
    State(0, EMPTY_BODY.(conversationId := conversationId), [], NO_SIZES)
  }

  const NO_SIZES := Sizes(0, 0)

  // ----------------------------------------------------------- serialized sizes

  /** One character inside a JSON string. */
  function JsonCharBytes(c: char): nat {
    if c == '\"' || c == '\\' || c == '\n' || c == '\r' || c == '\t' || c == '\U{0008}' || c == '\U{000C}' then 2
    else if c < ' ' then 6
    else Lines.CharSize(c)
  }

  function JsonBytes(text: string): nat {
    if text == "" then 0 else JsonBytes(text[..|text| - 1]) + JsonCharBytes(text[|text| - 1])
  }

  function TextsBytes(messages: seq<Input>): nat {
    if messages == [] then 0 else TextsBytes(messages[..|messages| - 1]) + JsonBytes(messages[|messages| - 1].text)
  }

  function FileBytes(s: State): nat {
    TextsBytes(s.body.messages) + s.sizes.other
  }

  function Digits(n: nat): nat {
    if n < 10 then 1 else Digits(n / 10) + 1
  }

  /** The IDs of a run as a JSON list without its brackets; they need no escapes. */
  function IdsBytes(ids: seq<string>): nat {
    if ids == [] then 0 else if |ids| == 1 then |ids[0]| + 2 else |ids[0]| + 3 + IdsBytes(ids[1..])
  }

  function StatusBytes(status: RunStatus): nat {
    match status
    case RunRunning => 7
    case RunFinishing => 9
    case RunCancelling => 10
    case RunCompleted => 9
    case RunFailed => 6
    case RunCancelled => 9
    case RunInterrupted => 11
  }

  function RunBytes(run: Option<Run>): nat {
    match run
    case None => 4
    case Some(r) => 71 + IdsBytes(r.inputIds) + StatusBytes(r.status) + if r.error == "" then 0 else 11 + |r.error|
  }

  /** The view without any inputs and entries, up to the literal of `truncated`. */
  function EmptyViewBytes(revision: nat, run: Option<Run>, usage: nat): nat {
    126 + Digits(revision) + RunBytes(run) + usage
  }

  /** The projection can be brought within its budget, if need be without inputs and entries. */
  predicate ViewFits(revision: nat, body: Body, usage: nat) {
    EmptyViewBytes(revision, body.run, usage) + (if body.messages == [] then 5 else 4) <= VIEW_MAX_BYTES
  }

  /** What `decode` requires of a version 2 file that this model represents. */
  ghost predicate Decodes(s: State) {
    && s.revision <= MAX_SAFE_INTEGER
    && |s.body.messages| <= MAX_MESSAGES
    && |s.body.controls| <= MAX_CONTROLS
    && |s.outbox| <= MAX_PUBLICATIONS
    && forall i :: 0 <= i < |s.outbox| ==> s.outbox[i].revision <= s.revision && s.outbox[i].view.revision == s.outbox[i].revision
  }
}
