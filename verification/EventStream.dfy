/**
 The frame loop over the lines of a server-sent event stream. Whether a document is JSON, and
 the event that it and the frame's ID describe, are parameters.
 */
module EventStream {
  import opened Wrappers
  import opened Lines
  import opened LineReaders

  datatype Cursor = Cursor(streamId: string, sequence: nat)

  datatype Event = Event(cursor: Cursor, payload: nat)

  /** `Failure` is the error document a server sends as its last event. */
  datatype StreamError = InvalidStream | StreamReset | Failure(document: string)

  datatype Reading = Reading(parses: string -> bool, event: (string, string) -> Option<Event>)

  /** The frame being read, the last cursor, what was yielded, and why the stream ended early. */
  datatype Frames = Frames(
    id: string, eventType: string, data: seq<string>, frameBytes: nat,
    previous: Option<Cursor>, yielded: seq<Event>, error: Option<StreamError>)

  function Begin(cursor: Option<Cursor>): Frames {
    Frames("", "", [], 0, cursor, [], None)
  }

  function FieldName(text: string): string {
    match IndexOf(text, ':', 0)
    case None => text
    case Some(colon) => text[..colon]
  }

  /** The value after the colon, without one leading space. */
  function FieldValue(text: string): string {
    match IndexOf(text, ':', 0)
    case None => ""
    case Some(colon) =>
      var value := text[colon + 1..];
      if value != "" && value[0] == ' ' then value[1..] else value
  }

  function JoinLines(data: seq<string>): string {
    if data == [] then "" else if |data| == 1 then data[0] else data[0] + "\n" + JoinLines(data[1..])
  }

  function Fail(s: Frames, error: StreamError): Frames {
    s.(error := Some(error))
  }

  function Cleared(s: Frames): Frames {
    s.(id := "", eventType := "", data := [], frameBytes := 0)
  }

  function Dispatch(s: Frames, read: Reading): Frames {
    var document := JoinLines(s.data);
    if !read.parses(document) then Fail(s, InvalidStream)
    else if s.eventType == "error" then Fail(s, Failure(document))
    else if s.eventType != "" && s.eventType != "message" then Fail(s, InvalidStream)
    else
      match read.event(document, s.id)
      case None => Fail(s, InvalidStream)
      case Some(event) =>
        if s.previous.Some? && s.previous.value.streamId != event.cursor.streamId then Fail(s, StreamReset)
        else if s.previous.Some? && event.cursor.sequence <= s.previous.value.sequence then Fail(s, InvalidStream)
        else Cleared(s.(previous := Some(event.cursor), yielded := s.yielded + [event]))
  }

  function TakeField(s: Frames, line: Line, limit: nat): Frames {
    var field, value := FieldName(line.text), FieldValue(line.text);
    if field != "id" && field != "event" && field != "data" then s
    else if s.frameBytes + line.bytes > limit then Fail(s, InvalidStream)
    else
      var t := s.(frameBytes := s.frameBytes + line.bytes);
      if field == "data" then t.(data := t.data + [value])
      else if field == "event" then t.(eventType := value)
      else if '\0' in value then t
      else t.(id := value)
  }

  function Take(s: Frames, line: Line, limit: nat, read: Reading): Frames {
    if s.error.Some? then s
    else if line.text == "" then if s.data == [] then Cleared(s) else Dispatch(s, read)
    else if line.text[0] == ':' then s
    else TakeField(s, line, limit)
  }

  function TakeAll(s: Frames, lines: seq<Line>, limit: nat, read: Reading): Frames {
    if lines == [] then s else Take(TakeAll(s, lines[..|lines| - 1], limit, read), lines[|lines| - 1], limit, read)
  }

  // ---------------------------------------------------------------- cursors

  ghost predicate Rising(cursor: Option<Cursor>, events: seq<Event>) {
    && (forall i, j :: 0 <= i < j < |events| ==>
          events[i].cursor.streamId == events[j].cursor.streamId && events[i].cursor.sequence < events[j].cursor.sequence)
    && (cursor.Some? ==> forall i :: 0 <= i < |events| ==>
          events[i].cursor.streamId == cursor.value.streamId && cursor.value.sequence < events[i].cursor.sequence)
  }

  ghost predicate LastCursor(cursor: Option<Cursor>, s: Frames) {
    s.previous == if s.yielded == [] then cursor else Some(s.yielded[|s.yielded| - 1].cursor)
  }

  /** Within one stream the cursors of the yielded events strictly increase, from the given cursor on. */
  lemma {:induction false} CursorsRise(cursor: Option<Cursor>, lines: seq<Line>, limit: nat, read: Reading)
    ensures var s := TakeAll(Begin(cursor), lines, limit, read); Rising(cursor, s.yielded) && LastCursor(cursor, s)
  {
    if lines != [] {
      CursorsRise(cursor, lines[..|lines| - 1], limit, read);
      TakeRises(cursor, TakeAll(Begin(cursor), lines[..|lines| - 1], limit, read), lines[|lines| - 1], limit, read);
    }
  }

  lemma TakeRises(cursor: Option<Cursor>, s: Frames, line: Line, limit: nat, read: Reading)
    requires Rising(cursor, s.yielded) && LastCursor(cursor, s)
    ensures var t := Take(s, line, limit, read); Rising(cursor, t.yielded) && LastCursor(cursor, t)
  {
    var t := Take(s, line, limit, read);
    if t.yielded != s.yielded {
      var event := t.yielded[|s.yielded|];
      assert t.yielded == s.yielded + [event];
    }
  }

  // ---------------------------------------------------------------- round trip

  /** An event as a server writes it: its ID, and its document split into data lines. */
  datatype Message = Message(id: string, data: seq<string>)

  function Text(text: string): Line {
    Line(text, Size(text))
  }

  function DataLines(data: seq<string>): (lines: seq<Line>)
    ensures |lines| == |data|
  {
    seq(|data|, i requires 0 <= i < |data| => Text("data: " + data[i]))
  }

  function Written(m: Message): seq<Line> {
    [Text("id: " + m.id)] + DataLines(m.data) + [Text("")]
  }

  /** The first `n` messages, frame after frame. */
  function AllWritten(messages: seq<Message>, n: nat): seq<Line>
    requires n <= |messages|
  {
    if n == 0 then [] else AllWritten(messages, n - 1) + Written(messages[n - 1])
  }

  function LineBytes(lines: seq<Line>): nat {
    if lines == [] then 0 else LineBytes(lines[..|lines| - 1]) + lines[|lines| - 1].bytes
  }

  lemma FieldRoundTrip(name: string, value: string)
    requires ':' !in name
    ensures FieldName(name + ": " + value) == name && FieldValue(name + ": " + value) == value
  {
    var text := name + ": " + value;
    assert text[|name|] == ':' && forall i :: 0 <= i < |name| ==> text[i] == name[i];
    assert IndexOf(text, ':', 0) == Some(|name|);
    assert text[|name| + 1..] == " " + value;
    assert text[..|name|] == name;
  }

  lemma {:induction false} TakeAllConcat(s: Frames, a: seq<Line>, b: seq<Line>, limit: nat, read: Reading)
    ensures TakeAll(s, a + b, limit, read) == TakeAll(TakeAll(s, a, limit, read), b, limit, read)
  {
    if b == [] {
      assert a + b == a;
    } else {
      assert (a + b)[..|a + b| - 1] == a + b[..|b| - 1];
      TakeAllConcat(s, a, b[..|b| - 1], limit, read);
    }
  }

  lemma IdTaken(s: Frames, id: string, limit: nat, read: Reading)
    requires s.error.None? && '\0' !in id && s.frameBytes + Size("id: " + id) <= limit
    ensures Take(s, Text("id: " + id), limit, read) == s.(id := id, frameBytes := s.frameBytes + Size("id: " + id))
  {
    FieldRoundTrip("id", id);
    assert "id" + ": " + id == "id: " + id;
  }

  /** Each line carries one `data` value. */
  ghost predicate Carries(lines: seq<Line>, data: seq<string>) {
    |lines| == |data| && forall i :: 0 <= i < |lines| ==> CarriesOne(lines[i], data[i])
  }

  predicate CarriesOne(line: Line, value: string) {
    line.text != "" && line.text[0] != ':' && FieldName(line.text) == "data" && FieldValue(line.text) == value
  }

  lemma DataLinesCarry(data: seq<string>)
    ensures Carries(DataLines(data), data)
  {
    forall i | 0 <= i < |data| ensures CarriesOne(DataLines(data)[i], data[i]) {
      FieldRoundTrip("data", data[i]);
      assert "data" + ": " + data[i] == "data: " + data[i];
    }
  }

  lemma TakeNext(s: Frames, lines: seq<Line>, k: nat, limit: nat, read: Reading)
    requires k < |lines|
    ensures TakeAll(s, lines[..k + 1], limit, read) == Take(TakeAll(s, lines[..k], limit, read), lines[k], limit, read)
    ensures LineBytes(lines[..k + 1]) == LineBytes(lines[..k]) + lines[k].bytes
  {
    assert lines[..k + 1][..k] == lines[..k];
  }

  lemma {:induction false} DataTaken(s: Frames, lines: seq<Line>, data: seq<string>, n: nat, limit: nat, read: Reading)
    requires s.error.None? && s.data == [] && Carries(lines, data) && n <= |lines| && s.frameBytes + LineBytes(lines[..n]) <= limit
    ensures TakeAll(s, lines[..n], limit, read) == s.(data := data[..n], frameBytes := s.frameBytes + LineBytes(lines[..n]))
  {
    if n == 0 {
      assert lines[..0] == [] && data[..0] == [];
    } else {
      var k := n - 1;
      TakeNext(s, lines, k, limit, read);
      DataTaken(s, lines, data, k, limit, read);
      assert CarriesOne(lines[k], data[k]);
      assert data[..k] + [data[k]] == data[..n];
    }
  }

  predicate WellFormed(m: Message, limit: nat) {
    '\0' !in m.id && m.data != [] && Size("id: " + m.id) + LineBytes(DataLines(m.data)) <= limit
  }

  predicate IsReadAs(m: Message, event: Event, read: Reading) {
    read.parses(JoinLines(m.data)) && read.event(JoinLines(m.data), m.id) == Some(event)
  }

  lemma MessageTaken(s: Frames, m: Message, event: Event, limit: nat, read: Reading)
    requires s == Cleared(s) && s.error.None? && WellFormed(m, limit)
    requires IsReadAs(m, event, read)
    requires s.previous.Some? ==> s.previous.value.streamId == event.cursor.streamId && s.previous.value.sequence < event.cursor.sequence
    ensures TakeAll(s, Written(m), limit, read) == s.(previous := Some(event.cursor), yielded := s.yielded + [event])
  {
    var head, data, tail := [Text("id: " + m.id)], DataLines(m.data), [Text("")];
    TakeAllConcat(s, head + data, tail, limit, read);
    TakeAllConcat(s, head, data, limit, read);
    IdTaken(s, m.id, limit, read);
    assert head[..0] == [] && tail[..0] == [];
    var t := s.(id := m.id, frameBytes := Size("id: " + m.id));
    assert TakeAll(s, head, limit, read) == t;
    DataLinesCarry(m.data);
    assert data[..|data|] == data && m.data[..|m.data|] == m.data;
    DataTaken(t, data, m.data, |data|, limit, read);
    var u := TakeAll(s, head + data, limit, read);
    assert TakeAll(u, tail, limit, read) == Take(u, Text(""), limit, read);
  }

  /** Between two frames, with these events yielded so far. */
  function Between(cursor: Option<Cursor>, events: seq<Event>): Frames {
    Frames("", "", [], 0, if events == [] then cursor else Some(events[|events| - 1].cursor), events, None)
  }

  predicate Follows(previous: Option<Cursor>, event: Event) {
    previous.Some? ==> previous.value.streamId == event.cursor.streamId && previous.value.sequence < event.cursor.sequence
  }

  lemma OneMoreMessage(cursor: Option<Cursor>, events: seq<Event>, m: Message, event: Event, limit: nat, read: Reading)
    requires WellFormed(m, limit) && IsReadAs(m, event, read)
    requires Follows(Between(cursor, events).previous, event)
    ensures TakeAll(Between(cursor, events), Written(m), limit, read) == Between(cursor, events + [event])
  {
    MessageTaken(Between(cursor, events), m, event, limit, read);
  }

  lemma RisingFollows(cursor: Option<Cursor>, events: seq<Event>, n: nat)
    requires Rising(cursor, events) && n < |events|
    ensures Follows(Between(cursor, events[..n]).previous, events[n])
  {
  }

  /** Every message is well-formed and is read as the event at its place. */
  ghost predicate ReadsAs(messages: seq<Message>, events: seq<Event>, limit: nat, read: Reading) {
    |events| == |messages| && forall i :: 0 <= i < |messages| ==> OneReadsAs(messages[i], events[i], limit, read)
  }

  predicate OneReadsAs(m: Message, event: Event, limit: nat, read: Reading) {
    WellFormed(m, limit) && IsReadAs(m, event, read)
  }

  lemma WrittenNext(cursor: Option<Cursor>, lines: seq<Line>, events: seq<Event>, m: Message, event: Event, limit: nat, read: Reading)
    requires TakeAll(Begin(cursor), lines, limit, read) == Between(cursor, events)
    requires OneReadsAs(m, event, limit, read) && Follows(Between(cursor, events).previous, event)
    ensures TakeAll(Begin(cursor), lines + Written(m), limit, read) == Between(cursor, events + [event])
  {
    TakeAllConcat(Begin(cursor), lines, Written(m), limit, read);
    OneMoreMessage(cursor, events, m, event, limit, read);
  }

  lemma AllWrittenNext(messages: seq<Message>, n: nat)
    requires n < |messages|
    ensures AllWritten(messages, n + 1) == AllWritten(messages, n) + Written(messages[n])
  {
  }

  lemma NextMessage(cursor: Option<Cursor>, messages: seq<Message>, events: seq<Event>, k: nat, limit: nat, read: Reading)
    requires k < |messages| == |events| && OneReadsAs(messages[k], events[k], limit, read)
    requires Follows(Between(cursor, events[..k]).previous, events[k])
    requires TakeAll(Begin(cursor), AllWritten(messages, k), limit, read) == Between(cursor, events[..k])
    ensures TakeAll(Begin(cursor), AllWritten(messages, k + 1), limit, read) == Between(cursor, events[..k + 1])
  {
    WrittenNext(cursor, AllWritten(messages, k), events[..k], messages[k], events[k], limit, read);
    AllWrittenNext(messages, k);
    assert events[..k] + [events[k]] == events[..k + 1];
  }

  lemma {:induction false} FirstMessagesRoundTrip(
      cursor: Option<Cursor>, messages: seq<Message>, events: seq<Event>, n: nat, limit: nat, read: Reading)
    requires ReadsAs(messages, events, limit, read) && Rising(cursor, events) && n <= |messages|
    ensures TakeAll(Begin(cursor), AllWritten(messages, n), limit, read) == Between(cursor, events[..n])
  {
    if n == 0 {
      assert Begin(cursor) == Between(cursor, events[..0]);
    } else {
      FirstMessagesRoundTrip(cursor, messages, events, n - 1, limit, read);
      RisingFollows(cursor, events, n - 1);
      NextMessage(cursor, messages, events, n - 1, limit, read);
    }
  }

  /** Well-formed messages, written as frames, come back exactly and in order. */
  lemma MessagesRoundTrip(cursor: Option<Cursor>, messages: seq<Message>, events: seq<Event>, limit: nat, read: Reading)
    requires ReadsAs(messages, events, limit, read) && Rising(cursor, events)
    ensures TakeAll(Begin(cursor), AllWritten(messages, |messages|), limit, read) == Between(cursor, events)
  {
    FirstMessagesRoundTrip(cursor, messages, events, |events|, limit, read);
    assert events[..|events|] == events;
  }

  // ------------------------------------------------------------------ the loop

  /** The end of a frame: the events and the last cursor, or why the stream ends here. */
  method DispatchFrame(s: Frames, read: Reading) returns (event: Option<Event>, error: Option<StreamError>)
    requires s.error.None? && s.data != []
    ensures Dispatch(s, read) == if error.Some? then Fail(s, error.value)
                                 else if event.Some? then Cleared(s.(previous := Some(event.value.cursor), yielded := s.yielded + [event.value]))
                                 else s
    ensures error.None? ==> event.Some?
  {
    var document := JoinLines(s.data);
    event, error := None, None;
    if !read.parses(document) { error := Some(InvalidStream); return; }
    if s.eventType == "error" { error := Some(Failure(document)); return; }
    if s.eventType != "" && s.eventType != "message" { error := Some(InvalidStream); return; }
    event := read.event(document, s.id);
    if event.None? { error := Some(InvalidStream); return; }
    if s.previous.Some? {
      if s.previous.value.streamId != event.value.cursor.streamId { error := Some(StreamReset); }
      else if event.value.cursor.sequence <= s.previous.value.sequence { error := Some(InvalidStream); }
    }
  }

  /** `streamSessionEvents` after its response checks: one pass over the lines. */
  method StreamEvents(lines: seq<Line>, cursor: Option<Cursor>, limit: nat, read: Reading)
    returns (events: seq<Event>, error: Option<StreamError>)
    ensures events == TakeAll(Begin(cursor), lines, limit, read).yielded
    ensures error == TakeAll(Begin(cursor), lines, limit, read).error
    ensures Rising(cursor, events)
  {
    var id, eventType, data, previous := "", "", [], cursor;
    var frameBytes: nat := 0;
    events, error := [], None;
    CursorsRise(cursor, lines, limit, read);
    assert lines[..0] == [];
    for k := 0 to |lines|
      invariant TakeAll(Begin(cursor), lines[..k], limit, read) == Frames(id, eventType, data, frameBytes, previous, events, None)
      invariant error == None
    {
      var line := lines[k];
      TakeNext(Begin(cursor), lines, k, limit, read);
      if line.text == "" {
        if |data| > 0 {
          var event;
          event, error := DispatchFrame(Frames(id, eventType, data, frameBytes, previous, events, None), read);
          if error.Some? {
            StopsAtError(Begin(cursor), lines, k + 1, limit, read);
            return;
          }
          previous, events := Some(event.value.cursor), events + [event.value];
        }
        id, eventType, data, frameBytes := "", "", [], 0;
        continue;
      }
      if line.text[0] == ':' { continue; }
      var field, value := FieldName(line.text), FieldValue(line.text);
      if field != "id" && field != "event" && field != "data" { continue; }
      if frameBytes + line.bytes > limit {
        error := Some(InvalidStream);
        StopsAtError(Begin(cursor), lines, k + 1, limit, read);
        return;
      }
      frameBytes := frameBytes + line.bytes;
      if field == "data" { data := data + [value]; }
      if field == "event" { eventType := value; }
      if field == "id" && '\0' !in value { id := value; }
    }
    assert lines[..|lines|] == lines;
  }

  lemma {:induction false} StopsAtError(s: Frames, lines: seq<Line>, k: nat, limit: nat, read: Reading)
    requires k <= |lines| && TakeAll(s, lines[..k], limit, read).error.Some?
    ensures TakeAll(s, lines, limit, read) == TakeAll(s, lines[..k], limit, read)
    decreases |lines|
  {
    if k == |lines| {
      assert lines[..k] == lines;
    } else {
      assert lines[..|lines| - 1][..k] == lines[..k];
      StopsAtError(s, lines[..|lines| - 1], k, limit, read);
    }
  }

  // ------------------------------------------------------- from text to events

  function Measure(texts: seq<string>): (lines: seq<Line>)
    ensures |lines| == |texts|
  {
    seq(|texts|, i requires 0 <= i < |texts| => Text(texts[i]))
  }

  /** What a stream means: the lines before the first one over the limit, taken in order. */
  function Meaning(text: string, cursor: Option<Cursor>, limit: nat, read: Reading): Frames {
    TakeAll(Begin(cursor), Measure(Within(AllLines(text, true), limit)), limit, read)
  }

  /** The whole of `streamSessionEvents` over a body that arrives in chunks; only their concatenation matters. */
  method ReadStream(chunks: seq<string>, cursor: Option<Cursor>, limit: nat, read: Reading)
    returns (events: seq<Event>, error: Option<StreamError>)
    ensures events == Meaning(Join(chunks), cursor, limit, read).yielded && Rising(cursor, events)
    ensures error == var s := Meaning(Join(chunks), cursor, limit, read);
                     if s.error.Some? then s.error else if AnyOver(AllLines(Join(chunks), true), limit) then Some(InvalidStream) else None
  {
    var lines, failed := ReadLines(chunks, limit);
    assert lines == Measure(Texts(lines));
    events, error := StreamEvents(lines, cursor, limit, read);
    if error.None? && failed { error := Some(InvalidStream); }
  }

  /** The lines as text, each ended by LF. */
  function Terminated(lines: seq<Line>): string {
    if lines == [] then "" else Terminated(lines[..|lines| - 1]) + lines[|lines| - 1].text + "\n"
  }

  predicate Unbroken(text: string) {
    forall i :: 0 <= i < |text| ==> !IsBreak(text[i], true)
  }

  /** A line that a reader with this limit yields as it was written. */
  predicate Plain(line: Line, limit: nat) {
    Unbroken(line.text) && line.bytes == Size(line.text) <= limit
  }

  ghost predicate AllPlain(lines: seq<Line>, limit: nat) {
    forall i :: 0 <= i < |lines| ==> Plain(lines[i], limit)
  }

  lemma LineEnds(before: string, out: seq<string>, text: string)
    requires FeedAll(START, before, true) == Reader(out, "", false) && Unbroken(text)
    ensures FeedAll(START, before + text + "\n", true) == Reader(out + [text], "", false)
  {
    FeedAllConcat(START, before, text, true);
    FeedPlain(Reader(out, "", false), text, true);
    assert "" + text == text;
    var more := before + text + "\n";
    assert more[..|more| - 1] == before + text;
  }

  lemma {:induction false} TerminatedReads(lines: seq<Line>, limit: nat)
    requires AllPlain(lines, limit)
    ensures FeedAll(START, Terminated(lines), true) == Reader(Texts(lines), "", false)
  {
    if lines != [] {
      var shorter, last := lines[..|lines| - 1], lines[|lines| - 1];
      TerminatedReads(shorter, limit);
      LineEnds(Terminated(shorter), Texts(shorter), last.text);
      assert lines == shorter + [last];
      TextsAppended(shorter, last);
    }
  }

  lemma TerminatedMeans(lines: seq<Line>, limit: nat)
    requires AllPlain(lines, limit)
    ensures !AnyOver(AllLines(Terminated(lines), true), limit)
    ensures Measure(Within(AllLines(Terminated(lines), true), limit)) == lines
  {
    TerminatedReads(lines, limit);
    FeedIsLinesOf(Terminated(lines), true);
    WithinAll(Texts(lines), limit);
    assert Texts(lines) + [] == Texts(lines);
  }

  lemma {:induction false} LineBytesBound(lines: seq<Line>, i: nat)
    requires i < |lines|
    ensures lines[i].bytes <= LineBytes(lines)
  {
    if i < |lines| - 1 { LineBytesBound(lines[..|lines| - 1], i); }
  }

  /** Neither the ID nor a data value contains a line break. */
  predicate OneLineEach(m: Message) {
    Unbroken(m.id) && forall d :: d in m.data ==> Unbroken(d)
  }

  lemma WrittenIsPlain(m: Message, limit: nat)
    requires WellFormed(m, limit) && OneLineEach(m)
    ensures AllPlain(Written(m), limit)
  {
    var data := DataLines(m.data);
    forall i | 0 <= i < |data| ensures Plain(data[i], limit) {
      LineBytesBound(data, i);
      assert m.data[i] in m.data;
    }
  }

  lemma {:induction false} AllWrittenIsPlain(messages: seq<Message>, n: nat, limit: nat)
    requires n <= |messages| && forall m :: m in messages ==> WellFormed(m, limit) && OneLineEach(m)
    ensures AllPlain(AllWritten(messages, n), limit)
  {
    if n > 0 {
      AllWrittenIsPlain(messages, n - 1, limit);
      WrittenIsPlain(messages[n - 1], limit);
    }
  }

  /** Events that a server writes as frames of text come back exactly and in order, however the text is chunked. */
  lemma {:induction false} StreamRoundTrip(
      cursor: Option<Cursor>, messages: seq<Message>, events: seq<Event>, chunks: seq<string>, limit: nat, read: Reading)
    requires ReadsAs(messages, events, limit, read) && Rising(cursor, events)
    requires forall m :: m in messages ==> OneLineEach(m)
    requires Join(chunks) == Terminated(AllWritten(messages, |messages|))
    ensures Meaning(Join(chunks), cursor, limit, read) == Between(cursor, events)
    ensures !AnyOver(AllLines(Join(chunks), true), limit)
  {
    forall m | m in messages ensures WellFormed(m, limit) {
      var i :| 0 <= i < |messages| && messages[i] == m;
      assert OneReadsAs(messages[i], events[i], limit, read);
    }
    AllWrittenIsPlain(messages, |messages|, limit);
    TerminatedMeans(AllWritten(messages, |messages|), limit);
    MessagesRoundTrip(cursor, messages, events, limit, read);
  }
}
