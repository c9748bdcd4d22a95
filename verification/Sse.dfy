/**
 Server-sent chat events: what the API prints (`apps/api/fleet_api/routers/chat.py`) and
 how the web client reads it back from network chunks (`apps/web/lib/chat-stream.ts`).
 */
module Sse {
  import opened Wrappers
  import opened Text
  import opened Json
  import opened Decimal
  import opened Operands

  datatype ChatEvent =
    | Token(delta: string)
    | Citations(citations: seq<(string, int)>)
    | Finished(messageId: int, traceId: string)
    | Error(detail: string)

  function EventName(e: ChatEvent): string {
    match e
    case Token(_) => "token"
    case Citations(_) => "citations"
    case Finished(_, _) => "done"
    case Error(_) => "error"
  }

  function CitationObject(c: (string, int)): Json {
    JObject([("chunk_ref", JString(c.0)), ("document_id", JInt(c.1))])
  }

  function CitationList(citations: seq<(string, int)>): Json {
    JArray(seq(|citations|, i requires 0 <= i < |citations| => CitationObject(citations[i])))
  }

  function EventEntries(e: ChatEvent): (entries: seq<(string, Json)>)
    ensures entries != []
  {
    match e
    case Token(delta) => [("delta", JString(delta))]
    case Citations(citations) => [("citations", CitationList(citations))]
    case Finished(id, trace) => [("message_id", JInt(id)), ("trace_id", JString(trace))]
    case Error(detail) => [("detail", JString(detail))]
  }

  /** The lines of one event, without the blank line that ends it. */
  function Block(e: ChatEvent): string {
    "event: " + EventName(e) + "\ndata: " + Print(JObject(EventEntries(e)))
  }

  /** `_sse`. */
  function Sse(e: ChatEvent): string {
    Block(e) + "\n\n"
  }

  function Stream(events: seq<ChatEvent>): string {
    if events == [] then "" else Sse(events[0]) + Stream(events[1..])
  }

  /** A JavaScript object. */
  type Object = map<string, Json>

  /** The object the client should hold for an event. */
  function Expected(e: ChatEvent): Object {
    match e
    case Token(delta) => map["type" := JString("token"), "delta" := JString(delta)]
    case Citations(citations) =>
      map["type" := JString("citations"),
          "citations" := JArray(seq(|citations|, i requires 0 <= i < |citations| =>
                                  JObject([("chunk_ref", JString(citations[i].0)),
                                           ("document_id", JInt(citations[i].1))])))]
    case Finished(id, trace) => map["type" := JString("done"), "message_id" := JInt(id), "trace_id" := JString(trace)]
    case Error(detail) => map["type" := JString("error"), "detail" := JString(detail)]
  }

  // ---- The client

  predicate NotNewline(c: char) {
    c != '\n'
  }

  /** `block.split("\n")`. */
  function Lines(s: string): (lines: seq<string>)
    ensures lines != []
    decreases |s|
  {
    var n := Span(NotNewline, s);
    if n == |s| then [s] else [s[..n]] + Lines(s[n + 1..])
  }

  /** The lines of a text hold no newline and are set apart by one each. */
  lemma {:induction false} LinesSpelled(s: string)
    ensures Join(Lines(s), "\n") == s && forall i | 0 <= i < |Lines(s)| :: '\n' !in Lines(s)[i]
    decreases |s|
  {
    var n := Span(NotNewline, s);
    assert forall i | 0 <= i < n :: s[..n][i] != '\n';
    if n == |s| {
      assert s[..n] == s;
    } else {
      LinesSpelled(s[n + 1..]);
      assert s == s[..n] + "\n" + s[n + 1..];
      assert Lines(s)[1..] == Lines(s[n + 1..]);
    }
  }

  const EVENT: string := "event:"
  const DATA: string := "data:"

  function TrimJs(s: string): string {
    Trim(IsJsSpace, s)
  }

  /** The value of the last line that starts with `prefix`. */
  function LastField(prefix: string, lines: seq<string>): Option<string> {
    if lines == [] then None
    else
      var line := lines[|lines| - 1];
      if prefix <= line then Some(TrimJs(line[|prefix|..])) else LastField(prefix, lines[..|lines| - 1])
  }

  /** Object entries in order, a later one replacing an earlier one. */
  function Spread(entries: seq<(string, Json)>): Object {
    if entries == [] then map[]
    else
      var n := |entries| - 1;
      Spread(entries[..n])[entries[n].0 := entries[n].1]
  }

  /** The items by their positions. */
  function SpreadItems(items: seq<Json>): Object {
    if items == [] then map[]
    else
      var n := |items| - 1;
      SpreadItems(items[..n])[Digits(n) := items[n]]
  }

  function Characters(s: string): seq<Json> {
    seq(|s|, i requires 0 <= i < |s| => JString([s[i]]))
  }

  /** `...data`: arrays and strings spread by position, other values that are no objects to nothing. */
  function SpreadValue(data: Json): Object {
    match data
    case JObject(entries) => Spread(entries)
    case JArray(items) => SpreadItems(items)
    case JString(text) => SpreadItems(Characters(text))
    case _ => map[]
  }

  /** A string spreads to its characters, each under its position. */
  lemma StringSpreads(text: string)
    ensures forall i: nat | i < |text| ::
              Digits(i) in SpreadValue(JString(text)) && SpreadValue(JString(text))[Digits(i)] == JString([text[i]])
    ensures forall key | key in SpreadValue(JString(text)) :: exists i: nat :: i < |text| && key == Digits(i)
  {
    hide SpreadItems;
    SpreadByPosition(Characters(text));
  }

  /** Spreading makes each position a property, and each property is a position. */
  lemma {:induction false} SpreadByPosition(items: seq<Json>)
    ensures forall i: nat | i < |items| :: Digits(i) in SpreadItems(items) && SpreadItems(items)[Digits(i)] == items[i]
    ensures forall key | key in SpreadItems(items) :: exists i: nat :: i < |items| && key == Digits(i)
  {
    if items != [] {
      var n := |items| - 1;
      SpreadByPosition(items[..n]);
      forall i: nat | i < |items|
        ensures Digits(i) in SpreadItems(items) && SpreadItems(items)[Digits(i)] == items[i]
      {
        if i < n && Digits(i) == Digits(n) {
          DigitsInjective(i, n);
        }
      }
    }
  }

  datatype BlockResult = Nothing | Event(fields: Object) | Thrown

  /** The object of a block, given its last event name and its last data line. */
  function BlockOf(name: Option<string>, data: Option<string>): BlockResult {
    if name == None || name.value == "" || data == None then Nothing
    else
      match Parse(data.value)
      case Some(value) => Event(map["type" := JString(name.value)] + SpreadValue(value))
      case None => Thrown
  }

  function ParseBlock(block: string): BlockResult {
    BlockOf(LastField(EVENT, Lines(block)), LastField(DATA, Lines(block)))
  }

  /** A block without an event line, with an empty event name, or without a data line is no event. */
  lemma BlocksSpelled(block: string)
    ensures (forall i | 0 <= i < |Lines(block)| :: !("event:" <= Lines(block)[i])) ==> ParseBlock(block) == Nothing
    ensures (forall i | 0 <= i < |Lines(block)| :: !("data:" <= Lines(block)[i])) ==> ParseBlock(block) == Nothing
    ensures var name, data := LastField("event:", Lines(block)), LastField("data:", Lines(block));
            && (ParseBlock(block) == Nothing <==> name == None || name.value == "" || data == None)
            && (ParseBlock(block) == Thrown <==>
                  name.Some? && name.value != "" && data.Some? && Parse(data.value) == None)
  {
    hide Parse, TrimJs;
    NoFieldLine("event:", Lines(block));
    NoFieldLine("data:", Lines(block));
  }

  lemma {:induction false} NoFieldLine(prefix: string, lines: seq<string>)
    ensures LastField(prefix, lines) == None <==> forall i | 0 <= i < |lines| :: !(prefix <= lines[i])
  {
    hide TrimJs;
    if lines != [] {
      NoFieldLine(prefix, lines[..|lines| - 1]);
    }
  }

  /** `parseSseBlock`. */
  method ReadBlock(block: string) returns (r: BlockResult)
    ensures r == ParseBlock(block)
  {
    var eventName: Option<string> := None;
    var dataLine: Option<string> := None;
    var lines := Lines(block);
    for i := 0 to |lines|
      invariant eventName == LastField(EVENT, lines[..i])
      invariant dataLine == LastField(DATA, lines[..i])
    {
      var line := lines[i];
      assert lines[..i + 1][..i] == lines[..i];
      if EVENT <= line {
        assert line[0] == 'e';
        eventName := Some(TrimJs(line[|EVENT|..]));
      } else if DATA <= line {
        dataLine := Some(TrimJs(line[|DATA|..]));
      }
    }
    assert lines[..|lines|] == lines;
    r := BlockOf(eventName, dataLine);
  }

  // `FindBlank` is `buffer.indexOf("\n\n")`.

  /** The objects of a text and whether reading it failed. */
  datatype Drained = Drained(events: seq<Object>, thrown: bool)

  /** The whole text split at its blank lines; an unfinished block at the end is ignored. */
  function Drain(s: string): Drained
    decreases |s|
  {
    match FindBlank(s)
    case None => Drained([], false)
    case Some(n) =>
      match ParseBlock(s[..n])
      case Thrown => Drained([], true)
      case Nothing => Drain(s[n + 2..])
      case Event(fields) => Before([fields], Drain(s[n + 2..]))
  }

  function Before(events: seq<Object>, d: Drained): Drained {
    Drained(events + d.events, d.thrown)
  }

  /** Reading a complete block now is reading it first later. */
  lemma DrainStep(buffer: string, later: string)
    requires FindBlank(buffer).Some?
    ensures var n := FindBlank(buffer).value;
            Drain(buffer + later)
            == match ParseBlock(buffer[..n])
               case Thrown => Drained([], true)
               case Nothing => Drain(buffer[n + 2..] + later)
               case Event(fields) => Before([fields], Drain(buffer[n + 2..] + later))
  {
    hide FindBlank, ParseBlock;
    var n := FindBlank(buffer).value;
    FindBlankStays(buffer, later);
    assert (buffer + later)[..n] == buffer[..n];
    assert (buffer + later)[n + 2..] == buffer[n + 2..] + later;
  }

  lemma BeforeBefore(a: seq<Object>, b: seq<Object>, d: Drained)
    ensures Before(a, Before(b, d)) == Before(a + b, d)
  {
    assert a + (b + d.events) == a + b + d.events;
  }

  /** The loop of `streamChatMessage`: a buffer that grows by chunks and is cut at blank lines. */
  method ReadStream(chunks: seq<string>) returns (events: seq<Object>, thrown: bool)
    ensures Drained(events, thrown) == Drain(Flatten(chunks))
  {
    hide Drain, FindBlank, ParseBlock;
    var buffer := "";
    events, thrown := [], false;
    StreamStart(chunks);
    for k := 0 to |chunks|
      invariant Drain(Flatten(chunks)) == Before(events, Drain(buffer + Flatten(chunks[k..])))
      invariant FindBlank(buffer) == None
    {
      ghost var later := Flatten(chunks[k + 1..]);
      assert chunks[k..][1..] == chunks[k + 1..];
      assert buffer + Flatten(chunks[k..]) == buffer + chunks[k] + later;
      buffer := buffer + chunks[k];
      var sep := FindBlank(buffer);
      while sep.Some?
        invariant sep == FindBlank(buffer)
        invariant Drain(Flatten(chunks)) == Before(events, Drain(buffer + later))
        decreases |buffer|
      {
        var block := buffer[..sep.value];
        DrainStep(buffer, later);
        buffer := buffer[sep.value + 2..];
        var event := ReadBlock(block);
        if event.Thrown? {
          assert events + [] == events;
          return events, true;
        }
        if event.Event? {
          BeforeBefore(events, [event.fields], Drain(buffer + later));
          events := events + [event.fields];
        }
        sep := FindBlank(buffer);
      }
    }
    StreamEnd(chunks, buffer);
    assert events + [] == events;
  }

  lemma StreamStart(chunks: seq<string>)
    ensures Drain(Flatten(chunks)) == Before([], Drain("" + Flatten(chunks[0..])))
    ensures FindBlank("") == None
  {
    hide Drain;
    assert chunks[0..] == chunks;
    assert "" + Flatten(chunks) == Flatten(chunks);
    assert [] + Drain(Flatten(chunks)).events == Drain(Flatten(chunks)).events;
  }

  lemma StreamEnd(chunks: seq<string>, buffer: string)
    requires FindBlank(buffer) == None
    ensures Drain(buffer + Flatten(chunks[|chunks|..])) == Drained([], false)
  {
    assert buffer + Flatten(chunks[|chunks|..]) == buffer;
  }

  // ---- The printed stream

  lemma {:induction false} NoBlankInside(s: string, rest: string)
    requires s != "" && (forall i | 0 <= i < |s| - 1 :: s[i] == '\n' ==> s[i + 1] != '\n') && s[|s| - 1] != '\n'
    ensures FindBlank(s + "\n\n" + rest) == Some(|s|)
  {
    var all := s + "\n\n" + rest;
    assert all[0] == s[0] && all[1] == if |s| > 1 then s[1] else '\n';
    assert all[1..] == s[1..] + "\n\n" + rest;
    if |s| == 1 {
      assert all[1..][0] == '\n' && all[1..][1] == '\n';
    } else {
      var t := s[1..];
      assert forall i {:trigger t[i]} | 0 <= i < |t| - 1 :: t[i] == s[i + 1] && t[i + 1] == s[i + 2];
      NoBlankInside(t, rest);
    }
  }

  lemma EventNamePlain(e: ChatEvent)
    ensures EventName(e) != "" && Printable(EventName(e))
    ensures !IsJsSpace(EventName(e)[0]) && !IsJsSpace(EventName(e)[|EventName(e)| - 1])
  {
  }

  lemma ObjectText(e: ChatEvent)
    ensures var data := Print(JObject(EventEntries(e)));
            Printable(data) && data != "" && data[0] == '{' && data[|data| - 1] == '}'
  {
    hide PrintEntries, EventEntries;
    PrintPrintable(JObject(EventEntries(e)));
  }

  lemma PrintableHasNoNewline(s: string)
    requires Printable(s)
    ensures All(NotNewline, s)
  {
    assert forall i | 0 <= i < |s| :: s[i] in s;
  }

  lemma TwoLines(a: string, b: string)
    requires All(NotNewline, a) && All(NotNewline, b)
    ensures Lines(a + "\n" + b) == [a, b]
  {
    var s := a + "\n" + b;
    assert s == a + ("\n" + b);
    SpanOfRun(NotNewline, a, "\n" + b);
    SpanOfRun(NotNewline, b, "");
    assert b + "" == b;
    assert s[..|a|] == a && s[|a| + 1..] == b;
  }

  lemma FieldOfLine(prefix: string, value: string)
    requires value != "" && !IsJsSpace(value[0]) && !IsJsSpace(value[|value| - 1])
    ensures TrimJs((prefix + " " + value)[|prefix|..]) == value
  {
    assert (prefix + " " + value)[|prefix|..] == " " + value;
    assert " " + value == " " + value + "";
    TrimOfPadded(IsJsSpace, " " + value, " ", value, "");
  }

  lemma BlockLines(e: ChatEvent)
    ensures Lines(Block(e)) == [EVENT + " " + EventName(e), DATA + " " + Print(JObject(EventEntries(e)))]
  {
    hide Print, EventEntries, EventName, Printable;
    var name, data := EventName(e), Print(JObject(EventEntries(e)));
    EventNamePlain(e);
    ObjectText(e);
    PrintableHasNoNewline(name);
    PrintableHasNoNewline(data);
    var a, b := EVENT + " " + name, DATA + " " + data;
    assert Block(e) == a + "\n" + b;
    TwoLines(a, b);
  }

  /** The client recovers the event of a printed block. */
  lemma ParsePrintedBlock(e: ChatEvent)
    ensures ParseBlock(Block(e)) == Event(Expected(e))
  {
    hide Print, TrimJs, Lines, Parse, EventName, EventEntries;
    var name, data := EventName(e), Print(JObject(EventEntries(e)));
    BlockLines(e);
    EventNamePlain(e);
    ObjectText(e);
    FieldOfLine(EVENT, name);
    FieldOfLine(DATA, data);
    TwoFields(name, data);
    ParsePrint(JObject(EventEntries(e)));
    SpreadOfEvent(e);
  }

  lemma TwoFields(name: string, data: string)
    ensures var lines := [EVENT + " " + name, DATA + " " + data];
            && LastField(EVENT, lines) == Some(TrimJs((EVENT + " " + name)[|EVENT|..]))
            && LastField(DATA, lines) == Some(TrimJs((DATA + " " + data)[|DATA|..]))
  {
    hide TrimJs;
    var a, b := EVENT + " " + name, DATA + " " + data;
    assert a[0] == 'e' && b[0] == 'd';
    assert [a, b][..1] == [a];
  }

  lemma SpreadOfEvent(e: ChatEvent)
    ensures map["type" := JString(EventName(e))] + Spread(EventEntries(e)) == Expected(e)
  {
    hide CitationList;
    var entries := EventEntries(e);
    var none: seq<(string, Json)> := [];
    assert entries[..0] == none;
    if e.Finished? {
      assert entries[..1][..0] == none;
      assert Spread(entries[..1]) == map["message_id" := JInt(e.messageId)];
      assert "message_id" != "trace_id" && "type" != "message_id" && "type" != "trace_id" by {
        assert |"message_id"| == 10 && |"trace_id"| == 8 && |"type"| == 4;
      }
    } else {
      assert "type"[0] == 't' && "delta"[0] == 'd' && "citations"[0] == 'c' && "detail"[0] == 'd';
      if e.Citations? {
        CitationsSpelled(e.citations);
      }
    }
  }

  lemma CitationsSpelled(citations: seq<(string, int)>)
    ensures CitationList(citations)
         == JArray(seq(|citations|, i requires 0 <= i < |citations| =>
                     JObject([("chunk_ref", JString(citations[i].0)), ("document_id", JInt(citations[i].1))])))
  {
    var spelled := seq(|citations|, i requires 0 <= i < |citations| =>
      JObject([("chunk_ref", JString(citations[i].0)), ("document_id", JInt(citations[i].1))]));
    assert spelled == seq(|citations|, i requires 0 <= i < |citations| => CitationObject(citations[i]));
  }

  function ExpectedAll(events: seq<ChatEvent>): (objects: seq<Object>)
    ensures |objects| == |events|
    ensures forall i | 0 <= i < |events| :: objects[i] == Expected(events[i])
  {
    seq(|events|, i requires 0 <= i < |events| => Expected(events[i]))
  }

  lemma PrintedBlockIsFirst(e: ChatEvent, rest: string)
    ensures FindBlank(Sse(e) + rest) == Some(|Block(e)|)
  {
    hide Print, EventEntries, EventName, Printable, FindBlank;
    var name, data := EventName(e), Print(JObject(EventEntries(e)));
    EventNamePlain(e);
    ObjectText(e);
    PrintableHasNoNewline(name);
    PrintableHasNoNewline(data);
    var s := Block(e);
    var n := |"event: " + name|;
    assert s == ("event: " + name) + "\n" + ("data: " + data);
    forall i | 0 <= i < |s|
      ensures s[i] == '\n' ==> i == n
    {
      if i < 7 {
        assert s[i] == "event: "[i];
      } else if i < n {
        assert s[i] == name[i - 7];
      } else if i > n + 6 {
        assert s[i] == data[i - n - 7];
      } else {
        assert s[i] == ("\ndata: ")[i - n];
      }
    }
    assert s[n + 1] == 'd' && s[|s| - 1] == data[|data| - 1];
    NoBlankInside(s, rest);
    assert Sse(e) + rest == s + "\n\n" + rest;
  }

  lemma {:induction false} DrainStream(events: seq<ChatEvent>)
    ensures Drain(Stream(events)) == Drained(ExpectedAll(events), false)
  {
    hide FindBlank, ParseBlock, Block, Expected, Drain;
    if events == [] {
      EmptyStream();
    } else {
      var rest := Stream(events[1..]);
      DrainStream(events[1..]);
      PrintedBlockIsFirst(events[0], rest);
      ParsePrintedBlock(events[0]);
      var s := Sse(events[0]) + rest;
      assert s[..|Block(events[0])|] == Block(events[0]);
      assert s[|Block(events[0])| + 2..] == rest;
      assert s + "" == s && rest + "" == rest;
      DrainStep(s, "");
      assert ExpectedAll(events) == [Expected(events[0])] + ExpectedAll(events[1..]);
    }
  }

  lemma EmptyStream()
    ensures Drain("") == Drained([], false)
  {
  }

  /**
   However the network cuts the printed stream, the client yields exactly the events, in
   order, and never throws.
   */
  method ReadPrintedStream(ghost sent: seq<ChatEvent>, chunks: seq<string>) returns (events: seq<Object>, thrown: bool)
    requires Flatten(chunks) == Stream(sent)
    ensures events == ExpectedAll(sent) && !thrown
  {
    DrainStream(sent);
    events, thrown := ReadStream(chunks);
  }

  /** The stream is ASCII, so cutting its bytes is cutting its characters. */
  lemma {:induction false} StreamIsAscii(events: seq<ChatEvent>)
    ensures forall c | c in Stream(events) :: c < '\U{80}'
  {
    hide Print, EventEntries, EventName;
    if events != [] {
      StreamIsAscii(events[1..]);
      EventNamePlain(events[0]);
      ObjectText(events[0]);
    }
  }
}
