/**
  Server-sent event framing of `backend/server/api/sse.py`, against a parser that follows
  sections 9.2.5 and 9.2.6 of the WHATWG HTML Living Standard.
 */
module Sse {
  import opened Wrappers

  type byte = b: int | 0 <= b < 256

  const NUL: byte := 0
  const LF: byte := 10
  const CR: byte := 13
  const SPACE: byte := 32
  const COLON: byte := 58

  const SEP: seq<byte> := [CR, LF]
  const EVENT: seq<byte> := [101, 118, 101, 110, 116]
  const DATA: seq<byte> := [100, 97, 116, 97]
  const ID: seq<byte> := [105, 100]
  const MESSAGE: seq<byte> := [109, 101, 115, 115, 97, 103, 101]
  const ERROR: seq<byte> := [101, 114, 114, 111, 114]
  const HEARTBEAT: seq<byte> := [COLON, SPACE, 104, 101, 97, 114, 116, 98, 101, 97, 116]

  // ------------------------------------------------------------ writing

  function Remove(v: seq<byte>, b: byte): seq<byte> {
    if v == [] then [] else (if v[0] == b then [] else [v[0]]) + Remove(v[1..], b)
  }

  /** `_sanitize_sse_field` */
  function Sanitize(v: seq<byte>): seq<byte> { Remove(Remove(v, CR), LF) }

  function Line(name: seq<byte>, value: seq<byte>): seq<byte> {
    name + [COLON, SPACE] + value
  }

  /** `json_to_sse`, with the data already serialised. */
  function Frame(event: seq<byte>, data: seq<byte>, id: Option<seq<byte>>): seq<byte> {
    Line(EVENT, Sanitize(event)) + SEP + (Line(DATA, data) + SEP) + IdLine(id) + SEP
  }

  function IdLine(id: Option<seq<byte>>): seq<byte> {
    if id.Some? then Line(ID, Sanitize(id.value)) + SEP else []
  }

  /** The payload of `sse_heartbeat`. */
  function Heartbeat(): seq<byte> { HEARTBEAT + SEP + SEP }

  /** What the response body yields, and heartbeats; `Raw` is a chunk that already is bytes. */
  datatype Item = Message(event: seq<byte>, data: seq<byte>, id: Option<seq<byte>>) | Beat | Raw(bytes: seq<byte>)

  function Chunk(i: Item): seq<byte> {
    match i
    case Message(event, data, id) => Frame(event, data, id)
    case Beat => Heartbeat()
    case Raw(bytes) => bytes
  }

  function Encode(items: seq<Item>): seq<byte> {
    if items == [] then [] else Encode(items[..|items| - 1]) + Chunk(items[|items| - 1])
  }

  // ------------------------------------------------------------ reading

  datatype Event = Event(kind: seq<byte>, data: seq<byte>, lastId: seq<byte>)

  /** `line` is the line being read; `sawCR` says that a line feed now would only complete
      the previous line's end. */
  datatype Reader = Reader(line: seq<byte>, sawCR: bool, data: seq<byte>, kind: seq<byte>, id: seq<byte>,
                           events: seq<Event>)

  const START := Reader([], false, [], [], [], [])

  function Dispatch(r: Reader): Reader {
    if r.data == [] then r.(kind := [])
    else r.(data := [], kind := [],
            events := r.events + [Event(if r.kind == [] then MESSAGE else r.kind, r.data[..|r.data| - 1], r.id)])
  }

  function Field(r: Reader, name: seq<byte>, value: seq<byte>): Reader {
    if name == EVENT then r.(kind := value)
    else if name == DATA then r.(data := r.data + value + [LF])
    else if name == ID then (if NUL in value then r else r.(id := value))
    else r
  }

  /** Position of the first colon, or the length. */
  function ColonAt(line: seq<byte>): (n: nat)
    ensures n <= |line| && (n < |line| ==> line[n] == COLON)
  {
    if line == [] || line[0] == COLON then 0 else 1 + ColonAt(line[1..])
  }

  function DropSpace(v: seq<byte>): seq<byte> {
    if v != [] && v[0] == SPACE then v[1..] else v
  }

  function ProcessLine(r: Reader, line: seq<byte>): Reader {
    var n := ColonAt(line);
    if line == [] then Dispatch(r)
    else if n == 0 then r
    else if n < |line| then Field(r, line[..n], DropSpace(line[n + 1..]))
    else Field(r, line, [])
  }

  function EndLine(r: Reader, sawCR: bool): Reader {
    ProcessLine(r, r.line).(line := [], sawCR := sawCR)
  }

  /** Lines end with CR LF, CR or LF. */
  function Step(r: Reader, b: byte): Reader {
    if b == LF && r.sawCR then r.(sawCR := false)
    else if b == LF then EndLine(r, false)
    else if b == CR then EndLine(r, true)
    else r.(line := r.line + [b], sawCR := false)
  }

  /** The whole stream; what is pending at its end is discarded. */
  function Feed(r: Reader, bytes: seq<byte>): Reader {
    if bytes == [] then r else Step(Feed(r, bytes[..|bytes| - 1]), bytes[|bytes| - 1])
  }

  // ------------------------------------------------------------ what should be read

  predicate NoBreaks(v: seq<byte>) { CR !in v && LF !in v }

  function NextId(id: seq<byte>, sent: Option<seq<byte>>): seq<byte> {
    if sent.Some? && NUL !in Sanitize(sent.value) then Sanitize(sent.value) else id
  }

  /** The event a message stands for, when `id` is the last event id before it. */
  function EventOf(event: seq<byte>, data: seq<byte>, sent: Option<seq<byte>>, id: seq<byte>): Event {
    Event(if Sanitize(event) == [] then MESSAGE else Sanitize(event), data, NextId(id, sent))
  }

  function LastId(items: seq<Item>): seq<byte> {
    if items == [] then []
    else
      var before := LastId(items[..|items| - 1]);
      match items[|items| - 1]
      case Message(_, _, id) => NextId(before, id)
      case _ => before
  }

  function Expected(items: seq<Item>): seq<Event> {
    if items == [] then []
    else
      var before := Expected(items[..|items| - 1]);
      match items[|items| - 1]
      case Message(event, data, id) => before + [EventOf(event, data, id, LastId(items[..|items| - 1]))]
      case _ => before
  }

  /** Framed items only, with data that fits on one line. */
  predicate DataFits(items: seq<Item>) {
    forall i | 0 <= i < |items| :: items[i].Beat? || (items[i].Message? && NoBreaks(items[i].data))
  }

  // ------------------------------------------------------------ sanitising

  lemma {:induction false} RemoveFilters(v: seq<byte>, b: byte)
    ensures b !in Remove(v, b) && forall c :: c != b ==> (c in Remove(v, b) <==> c in v)
    ensures b !in v ==> Remove(v, b) == v
  {
    if v != [] {
      RemoveFilters(v[1..], b);
      assert v == [v[0]] + v[1..];
    }
  }

  /** Sanitising drops the line breaks and nothing else. */
  lemma SanitizeClean(v: seq<byte>)
    ensures NoBreaks(Sanitize(v))
    ensures NoBreaks(v) ==> Sanitize(v) == v
    ensures forall c :: c != CR && c != LF ==> (c in Sanitize(v) <==> c in v)
  {
    RemoveFilters(v, CR);
    RemoveFilters(Remove(v, CR), LF);
  }

  lemma {:induction false} RemoveAppends(u: seq<byte>, v: seq<byte>, b: byte)
    ensures Remove(u + v, b) == Remove(u, b) + Remove(v, b)
  {
    if u == [] {
      assert u + v == v;
    } else {
      assert (u + v)[1..] == u[1..] + v;
      RemoveAppends(u[1..], v, b);
    }
  }

  /** Sanitising works byte by byte: what is kept stays where it was. */
  lemma SanitizeByByte(u: seq<byte>, b: byte, v: seq<byte>)
    ensures Sanitize(u + [b] + v) == Sanitize(u) + (if b == CR || b == LF then [] else [b]) + Sanitize(v)
  {
    RemoveAppends(u + [b], v, CR);
    RemoveAppends(u, [b], CR);
    RemoveAppends(Remove(u, CR) + Remove([b], CR), Remove(v, CR), LF);
    RemoveAppends(Remove(u, CR), Remove([b], CR), LF);
    assert [b][1..] == [];
  }

  // ------------------------------------------------------------ feeding lines

  lemma {:induction false} FeedAppend(r: Reader, a: seq<byte>, b: seq<byte>)
    ensures Feed(r, a + b) == Feed(Feed(r, a), b)
  {
    if b == [] {
      assert a + b == a;
    } else {
      assert (a + b)[..|a + b| - 1] == a + b[..|b| - 1];
      FeedAppend(r, a, b[..|b| - 1]);
    }
  }

  lemma {:induction false} FeedText(r: Reader, text: seq<byte>)
    requires NoBreaks(text)
    ensures Feed(r, text) == r.(line := r.line + text, sawCR := if text == [] then r.sawCR else false)
  {
    if text != [] {
      FeedText(r, text[..|text| - 1]);
      assert r.line + text == (r.line + text[..|text| - 1]) + [text[|text| - 1]];
    } else {
      assert r.line + text == r.line;
    }
  }

  /** At the start of a line. */
  predicate AtLineStart(r: Reader) { r.line == [] && !r.sawCR }

  lemma FeedLine(r: Reader, text: seq<byte>)
    requires NoBreaks(text) && AtLineStart(r)
    ensures Feed(r, text + SEP) == ProcessLine(r, text).(line := [], sawCR := false)
  {
    FeedAppend(r, text, SEP);
    FeedText(r, text);
    var q := Feed(r, text);
    assert q == r.(line := text);
    assert SEP[..1] == [CR] && [CR][..0] == [];
    assert Feed(q, [CR]) == Step(q, CR);
    assert Feed(q, SEP) == Step(Step(q, CR), LF);
    LineIsScratch(r, text);
  }

  /** Processing a line neither looks at nor changes the line buffer. */
  lemma LineIsScratch(r: Reader, text: seq<byte>)
    ensures ProcessLine(r.(line := text), text).(line := [], sawCR := false)
         == ProcessLine(r, text).(line := [], sawCR := false)
  {
    var n := ColonAt(text);
    if text == [] {
    } else if n == 0 {
    } else if n < |text| {
      FieldIsScratch(r, text, text[..n], DropSpace(text[n + 1..]));
    } else {
      FieldIsScratch(r, text, text, []);
    }
  }

  lemma FieldIsScratch(r: Reader, text: seq<byte>, name: seq<byte>, value: seq<byte>)
    ensures Field(r.(line := text), name, value).(line := [], sawCR := false)
         == Field(r, name, value).(line := [], sawCR := false)
  {
    if name == EVENT {
    } else if name == DATA {
    } else {
    }
  }

  lemma {:induction false} ColonAfterName(name: seq<byte>, value: seq<byte>)
    requires COLON !in name
    ensures ColonAt(Line(name, value)) == |name|
  {
    if name != [] {
      assert Line(name, value)[1..] == Line(name[1..], value);
      ColonAfterName(name[1..], value);
    }
  }

  lemma ProcessField(r: Reader, name: seq<byte>, value: seq<byte>)
    requires name != [] && COLON !in name
    ensures ProcessLine(r, Line(name, value)) == Field(r, name, value)
  {
    ColonAfterName(name, value);
    var line := Line(name, value);
    assert line[..|name|] == name;
    assert line[|name| + 1..] == [SPACE] + value;
    assert ([SPACE] + value)[1..] == value;
  }

  lemma FeedField(r: Reader, name: seq<byte>, value: seq<byte>)
    requires name != [] && COLON !in name && NoBreaks(name) && NoBreaks(value) && AtLineStart(r)
    ensures Feed(r, Line(name, value) + SEP) == Field(r, name, value)
  {
    FeedLine(r, Line(name, value));
    ProcessField(r, name, value);
  }

  lemma FeedBlank(r: Reader)
    requires AtLineStart(r)
    ensures Feed(r, SEP) == Dispatch(r)
  {
    FeedLine(r, []);
    assert [] + SEP == SEP;
  }

  // ------------------------------------------------------------ frames and streams

  /** Between two frames. */
  predicate AtBoundary(r: Reader) { AtLineStart(r) && r.data == [] && r.kind == [] }

  lemma FeedHead(r: Reader, event: seq<byte>, data: seq<byte>)
    requires AtBoundary(r) && NoBreaks(data)
    ensures Feed(r, Line(EVENT, Sanitize(event)) + SEP + (Line(DATA, data) + SEP))
         == r.(kind := Sanitize(event), data := data + [LF])
  {
    SanitizeClean(event);
    FeedField(r, EVENT, Sanitize(event));
    var r1 := Field(r, EVENT, Sanitize(event));
    FeedField(r1, DATA, data);
    FeedAppend(r, Line(EVENT, Sanitize(event)) + SEP, Line(DATA, data) + SEP);
    assert r1.data + data + [LF] == data + [LF];
  }

  lemma FeedId(r: Reader, id: Option<seq<byte>>)
    requires AtLineStart(r)
    ensures Feed(r, IdLine(id)) == r.(id := NextId(r.id, id))
  {
    if id.Some? {
      SanitizeClean(id.value);
      FeedField(r, ID, Sanitize(id.value));
    }
  }

  /** A frame adds exactly its event and leaves the reader between frames again. */
  lemma FeedFrame(r: Reader, event: seq<byte>, data: seq<byte>, id: Option<seq<byte>>)
    requires AtBoundary(r) && NoBreaks(data)
    ensures Feed(r, Frame(event, data, id))
         == r.(id := NextId(r.id, id), events := r.events + [EventOf(event, data, id, r.id)])
  {
    var head := Line(EVENT, Sanitize(event)) + SEP + (Line(DATA, data) + SEP);
    FeedHead(r, event, data);
    FeedAppend(r, head, IdLine(id));
    FeedId(Feed(r, head), id);
    FeedAppend(r, head + IdLine(id), SEP);
    FeedBlank(Feed(r, head + IdLine(id)));
    assert (data + [LF])[..|data|] == data;
  }

  /** A heartbeat is bytes on the wire and nothing to the reader. */
  lemma FeedHeartbeat(r: Reader)
    requires AtBoundary(r)
    ensures Heartbeat() != [] && Feed(r, Heartbeat()) == r
  {
    FeedLine(r, HEARTBEAT);
    FeedBlank(r);
    FeedAppend(r, HEARTBEAT + SEP, SEP);
  }

  lemma {:induction false} FeedStream(items: seq<Item>)
    requires DataFits(items)
    ensures Feed(START, Encode(items)) == START.(id := LastId(items), events := Expected(items))
  {
    if items != [] {
      var front, last := items[..|items| - 1], items[|items| - 1];
      FeedStream(front);
      FeedAppend(START, Encode(front), Chunk(last));
      var r := Feed(START, Encode(front));
      match last
      case Message(event, data, id) => FeedFrame(r, event, data, id);
      case Beat => FeedHeartbeat(r);
    }
  }

  /** Any sequence of frames, with heartbeats anywhere between them, is read back as exactly
      the sanitised events. */
  lemma StreamRoundTrips(items: seq<Item>)
    requires DataFits(items)
    ensures Feed(START, Encode(items)).events == Expected(items)
  {
    FeedStream(items);
  }

  predicate Clean(v: seq<byte>) { NoBreaks(v) && NUL !in v }

  /** One more message is read as one more event with the fields that were sent; without an id it
      has that of the messages before. */
  lemma MessageIsRead(items: seq<Item>, event: seq<byte>, data: seq<byte>, id: Option<seq<byte>>)
    requires DataFits(items) && NoBreaks(data)
    requires event != [] && NoBreaks(event) && (id.Some? ==> Clean(id.value))
    ensures var before := Feed(START, Encode(items));
            Feed(START, Encode(items + [Message(event, data, id)])).events
            == before.events + [Event(event, data, if id.Some? then id.value else before.id)]
  {
    var more := items + [Message(event, data, id)];
    assert more[..|items|] == items;
    FeedStream(items);
    FeedAppend(START, Encode(items), Frame(event, data, id));
    FeedFrame(Feed(START, Encode(items)), event, data, id);
    SanitizeClean(event);
    if id.Some? { SanitizeClean(id.value); }
  }

  lemma LineGrowsEvents(r: Reader, line: seq<byte>)
    ensures r.events <= ProcessLine(r, line).events
  {
    if line == [] {
    } else {
      assert ProcessLine(r, line).events == r.events;
    }
  }

  lemma {:induction false} EventsGrow(r: Reader, bytes: seq<byte>, k: nat)
    requires k <= |bytes|
    ensures Feed(r, bytes[..k]).events <= Feed(r, bytes).events
  {
    if k < |bytes| {
      var front := bytes[..|bytes| - 1];
      assert front[..k] == bytes[..k];
      EventsGrow(r, front, k);
      LineGrowsEvents(Feed(r, front), Feed(r, front).line);
    } else {
      assert bytes[..k] == bytes;
    }
  }

  /** Cut anywhere, even inside a line end, the stream yields a prefix of those events. */
  lemma TruncationYieldsPrefix(items: seq<Item>, k: nat)
    requires DataFits(items) && k <= |Encode(items)|
    ensures Feed(START, Encode(items)[..k]).events <= Expected(items)
  {
    StreamRoundTrips(items);
    EventsGrow(START, Encode(items), k);
  }

  // ------------------------------------------------------------ data with line breaks

  /** Bytes of data held or delivered, counting one more for each data line. */
  function Delivered(events: seq<Event>): nat {
    if events == [] then 0 else Delivered(events[..|events| - 1]) + |events[|events| - 1].data| + 1
  }

  function Weight(r: Reader): nat { Delivered(r.events) + |r.data| }

  lemma DispatchKeepsWeight(r: Reader)
    ensures Weight(Dispatch(r)) == Weight(r)
  {
    if r.data != [] {
      var more := Dispatch(r).events;
      assert more[..|more| - 1] == r.events;
    }
  }

  lemma FieldWeight(r: Reader, name: seq<byte>, value: seq<byte>)
    ensures Weight(Field(r, name, value)) <= Weight(r) + |value| + 1
    ensures name != DATA ==> Weight(Field(r, name, value)) == Weight(r)
  {
    if name == DATA {
      assert EVENT[0] != DATA[0];
      assert Field(r, name, value) == r.(data := r.data + value + [LF]);
    }
  }

  lemma LineWeight(r: Reader, line: seq<byte>)
    ensures Weight(ProcessLine(r, line)) <= Weight(r) + |line|
  {
    var n := ColonAt(line);
    if line == [] {
      DispatchKeepsWeight(r);
    } else if n == 0 {
    } else if n < |line| {
      FieldWeight(r, line[..n], DropSpace(line[n + 1..]));
    } else {
      FieldWeight(r, line, []);
    }
  }

  /** A byte adds at most itself, a line break nothing. */
  lemma StepWeight(r: Reader, b: byte)
    ensures Weight(Step(r, b)) + |Step(r, b).line| <= Weight(r) + |r.line| + if b == CR || b == LF then 0 else 1
  {
    LineWeight(r, r.line);
  }

  lemma {:induction false} FeedWeight(r: Reader, bytes: seq<byte>)
    ensures Weight(Feed(r, bytes)) + |Feed(r, bytes).line| <= Weight(r) + |r.line| + |bytes|
  {
    if bytes != [] {
      FeedWeight(r, bytes[..|bytes| - 1]);
      StepWeight(Feed(r, bytes[..|bytes| - 1]), bytes[|bytes| - 1]);
    }
  }

  lemma SepWeight(r: Reader)
    ensures AtLineStart(Feed(r, SEP)) && Weight(Feed(r, SEP)) <= Weight(r) + |r.line|
  {
    assert SEP[..1] == [CR] && [CR][..0] == [];
    assert Feed(r, [CR]) == Step(r, CR);
    assert Feed(r, SEP) == Step(Step(r, CR), LF);
    StepWeight(r, CR);
    StepWeight(Step(r, CR), LF);
  }

  function FirstBreak(data: seq<byte>): (n: nat)
    requires !NoBreaks(data)
    ensures n < |data| && (data[n] == CR || data[n] == LF) && NoBreaks(data[..n])
  {
    if data[0] == CR || data[0] == LF then 0
    else
      assert data == [data[0]] + data[1..];
      var n := 1 + FirstBreak(data[1..]);
      assert data[..n] == [data[0]] + data[1..][..n - 1];
      n
  }

  lemma FeedByte(r: Reader, b: byte)
    ensures Feed(r, [b]) == Step(r, b)
  {
    assert [b][..0] == [];
  }

  lemma FeedOne(r: Reader, text: seq<byte>, b: byte)
    requires AtLineStart(r) && NoBreaks(text)
    ensures Feed(r, text + [b]) == Step(r.(line := text), b)
  {
    FeedText(r, text);
    FeedAppend(r, text, [b]);
    FeedByte(Feed(r, text), b);
    assert Feed(r, text) == r.(line := text);
  }

  /** The first line of broken data. */
  lemma HeadWeight(r: Reader, head: seq<byte>, b: byte)
    requires AtLineStart(r) && r.data == [] && r.events == [] && NoBreaks(head) && (b == CR || b == LF)
    ensures var q := Feed(r, Line(DATA, head) + [b]);
            q.line == [] && q.events == [] && q.data == head + [LF]
  {
    var text := Line(DATA, head);
    FeedOne(r, text, b);
    ProcessField(r.(line := text), DATA, head);
    assert Field(r.(line := text), DATA, head).data == [] + head + [LF];
  }

  /** Data with a line break delivers fewer bytes of data than it has. */
  lemma BrokenDataWeight(r: Reader, data: seq<byte>)
    requires AtLineStart(r) && r.data == [] && r.events == [] && !NoBreaks(data)
    ensures AtLineStart(Feed(r, Line(DATA, data) + SEP)) && Weight(Feed(r, Line(DATA, data) + SEP)) <= |data|
  {
    var n := FirstBreak(data);
    var head, rest := Line(DATA, data[..n]) + [data[n]], data[n + 1..];
    HeadWeight(r, data[..n], data[n]);
    var q := Feed(r, head);
    FeedWeight(q, rest);
    SepWeight(Feed(q, rest));
    FeedAppend(q, rest, SEP);
    FeedAppend(r, head, rest + SEP);
    BrokenSplits(data, n);
  }

  lemma BrokenSplits(data: seq<byte>, n: nat)
    requires n < |data|
    ensures Line(DATA, data) + SEP == (Line(DATA, data[..n]) + [data[n]]) + (data[n + 1..] + SEP)
  {
    assert data == data[..n] + [data[n]] + data[n + 1..];
  }

  lemma SingleDelivery(e: Event)
    ensures Delivered([e]) == |e.data| + 1
  {
    assert [e][..0] == [];
  }

  /** A frame is read back as its event exactly when its data has no line break. */
  lemma FrameExactIff(event: seq<byte>, data: seq<byte>, id: Option<seq<byte>>)
    ensures Feed(START, Frame(event, data, id)).events == [EventOf(event, data, id, [])] <==> NoBreaks(data)
  {
    SingleDelivery(EventOf(event, data, id, []));
    if NoBreaks(data) {
      FeedFrame(START, event, data, id);
      assert START.events + [EventOf(event, data, id, [])] == [EventOf(event, data, id, [])];
    } else {
      BrokenFrameWeight(event, data, id);
    }
  }

  lemma BrokenFrameWeight(event: seq<byte>, data: seq<byte>, id: Option<seq<byte>>)
    requires !NoBreaks(data)
    ensures Weight(Feed(START, Frame(event, data, id))) <= |data|
  {
    SanitizeClean(event);
    var first, second := Line(EVENT, Sanitize(event)) + SEP, Line(DATA, data) + SEP;
    var r1 := Field(START, EVENT, Sanitize(event));
    FeedField(START, EVENT, Sanitize(event));
    BrokenDataWeight(r1, data);
    FeedAppend(START, first, second);
    var r2 := Feed(r1, second);
    FeedId(r2, id);
    FeedAppend(START, first + second, IdLine(id));
    var r3 := r2.(id := NextId(r2.id, id));
    FeedBlank(r3);
    DispatchKeepsWeight(r3);
    FeedAppend(START, first + second + IdLine(id), SEP);
  }

  // ------------------------------------------------------------ stream_response

  /** What `stream_response` is to send: its items, and an error message when their source failed. */
  function Sent(items: seq<Item>, failure: Option<seq<byte>>): seq<Item> {
    if failure.Some? then items + [Message(ERROR, failure.value, None)] else items
  }

  lemma EncodeNext(items: seq<Item>, i: nat)
    requires i < |items|
    ensures Encode(items[..i + 1]) == Encode(items[..i]) + Chunk(items[i])
  {
    assert items[..i + 1][..i] == items[..i];
  }

  lemma EncodeSent(items: seq<Item>, failure: seq<byte>)
    ensures Encode(Sent(items, Some(failure))) == Encode(items) + Frame(ERROR, failure, None)
  {
    assert Sent(items, Some(failure))[..|items|] == items;
  }

  /** When the source of the items fails, the client reads them and then the error. */
  lemma FailureIsRead(items: seq<Item>, failure: seq<byte>)
    requires DataFits(items) && NoBreaks(failure)
    ensures var before := Feed(START, Encode(items));
            Feed(START, Encode(Sent(items, Some(failure)))).events
            == before.events + [Event(ERROR, failure, before.id)]
  {
    MessageIsRead(items, ERROR, failure, None);
  }

  /** What a client reads of a stream, if that can be said. */
  ghost predicate ReadBack(items: seq<Item>, sent: seq<byte>) {
    DataFits(items) ==> Feed(START, sent).events == Expected(items)
  }

  lemma SentReadsBack(items: seq<Item>)
    ensures ReadBack(items, Encode(items))
  {
    if DataFits(items) { StreamRoundTrips(items); }
  }

  /** The loop over the body. When sending item `timeout` takes too long, that is the end of the
      stream and an exception is raised. */
  method SendItems(items: seq<Item>, timeout: Option<nat>) returns (sent: seq<byte>, raised: bool)
    ensures raised <==> timeout.Some? && timeout.value < |items|
    ensures raised ==> sent == Encode(items[..timeout.value])
    ensures !raised ==> sent == Encode(items)
  {
    sent, raised := [], false;
    for i := 0 to |items|
      invariant sent == Encode(items[..i]) && !raised
      invariant timeout.Some? ==> timeout.value >= i
    {
      if timeout.Some? && timeout.value == i {
        raised := true;
        return;
      }
      EncodeNext(items, i);
      sent := sent + Chunk(items[i]);
    }
    assert items[..|items|] == items;
  }

  /** `stream_response`. A failing source adds an error message; the response then ends with an
      empty body, which adds no bytes. After a timeout nothing more is sent. */
  method StreamResponse(items: seq<Item>, failure: Option<seq<byte>>, timeout: Option<nat>)
    returns (sent: seq<byte>, raised: bool)
    ensures raised <==> timeout.Some? && timeout.value < |items|
    ensures raised ==> sent == Encode(items[..timeout.value]) && ReadBack(items[..timeout.value], sent)
    ensures !raised ==> sent == Encode(Sent(items, failure)) && ReadBack(Sent(items, failure), sent)
  {
    sent, raised := SendItems(items, timeout);
    if raised {
      SentReadsBack(items[..timeout.value]);
      return;
    }
    if failure.Some? {
      sent := sent + Frame(ERROR, failure.value, None);
      EncodeSent(items, failure.value);
    }
    SentReadsBack(Sent(items, failure));
  }
}
