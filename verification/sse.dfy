/** Text written to a peer that stops accepting at some point. */
module Writers {
  function Take(s: string, n: nat): string { if n < |s| then s[..n] else s }

  /** Writing `text` when `room` more characters are accepted. */
  predicate Wrote(out: string, room: nat, text: string, out': string, room': nat) {
    out' == out + Take(text, room) && room' == room - |Take(text, room)|
  }

  lemma WroteNothing(out: string, room: nat)
    ensures Wrote(out, room, "", out, room)
  {
    assert out + "" == out;
  }

  lemma WroteBoth(out: string, room: nat, a: string, out1: string, room1: nat, b: string, out2: string, room2: nat)
    requires Wrote(out, room, a, out1, room1) && Wrote(out1, room1, b, out2, room2)
    ensures Wrote(out, room, a + b, out2, room2)
  {
    Assoc(out, Take(a, room), Take(b, room1));
    if |a| <= room {
      assert Take(a + b, room) == a + Take(b, room - |a|);
    } else {
      assert Take(a + b, room) == a[..room];
    }
  }

  /** Once the room is used up it does not matter what else was to be written. */
  lemma WrotePast(out: string, room: nat, text: string, out': string, room': nat, all: string)
    requires Wrote(out, room, text, out', room') && text <= all && |text| >= room
    ensures Wrote(out, room, all, out', room')
  {
    assert Take(text, room) == text[..room] == all[..room] == Take(all, room);
  }

  lemma Assoc(a: string, b: string, c: string)
    ensures a + (b + c) == (a + b) + c
  {
  }

  lemma Extends(a: string, b: string, c: string)
    requires a <= b
    ensures a <= b + c
  {
  }

  /** The parts one after the other. */
  function Concat(parts: seq<string>): string {
    if parts == [] then "" else Concat(parts[..|parts| - 1]) + parts[|parts| - 1]
  }

  lemma ConcatNext(parts: seq<string>, i: nat)
    requires i < |parts|
    ensures Concat(parts[..i + 1]) == Concat(parts[..i]) + parts[i]
  {
    assert parts[..i + 1][..i] == parts[..i];
  }

  lemma {:induction false} ConcatPrefix(parts: seq<string>, i: nat, n: nat)
    requires i <= n <= |parts|
    ensures Concat(parts[..i]) <= Concat(parts[..n])
    decreases n
  {
    if i < n {
      ConcatPrefix(parts, i, n - 1);
      ConcatNext(parts, n - 1);
      Extends(Concat(parts[..i]), Concat(parts[..n - 1]), parts[n - 1]);
    }
  }

  /** Writing stopped after part `i`: by plan, or because the peer accepts no more. */
  lemma StoppedAt(parts: seq<string>, i: nat, n: nat, out: string, room: nat, out': string, room': nat)
    requires i <= n <= |parts| && Wrote(out, room, Concat(parts[..i]), out', room')
    requires i == n || |Concat(parts[..i])| > room
    ensures Wrote(out, room, Concat(parts[..n]), out', room')
  {
    if i < n {
      ConcatPrefix(parts, i, n);
      WrotePast(out, room, Concat(parts[..i]), out', room', Concat(parts[..n]));
    }
  }

  lemma PrefixCat<T>(p: seq<T>, a: seq<T>, b: seq<T>)
    requires a <= b
    ensures p + a <= p + b
  {
  }
}

/** The bridge's downlink (pump and keepAlive in internal/instance/dsh_web/bridge.go): WebSocket
    messages re-encoded as a server-sent event stream, which an event-stream parser (sections
    9.2.5 and 9.2.6 of the WHATWG HTML Standard) undoes. */
module EventStreams {
  import opened Writers
  import WsFrames

  // ---- the encoder ----

  /** A string over the base64 alphabet and its padding sign. */
  type Base64 = s: string | forall i | 0 <= i < |s| :: IsBase64Char(s[i])

  predicate IsBase64Char(c: char) {
    'A' <= c <= 'Z' || 'a' <= c <= 'z' || '0' <= c <= '9' || c == '+' || c == '/' || c == '='
  }

  /** What the upstream connection delivers; a binary payload is represented by its base64 form. */
  datatype Message =
    | Text(payload: string)
    | Binary(b64: Base64)
    | Close(body: seq<WsFrames.octet>)
    | Ping(answered: bool)
    | Other

  function Split(s: string): (lines: seq<string>)
    ensures |lines| > 0
  {
    if s == "" then [""]
    else
      var rest := Split(s[1..]);
      if s[0] == '\n' then [""] + rest else [[s[0]] + rest[0]] + rest[1..]
  }

  function Join(lines: seq<string>, sep: string): string
    requires |lines| > 0
  {
    if |lines| == 1 then lines[0] else lines[0] + sep + Join(lines[1..], sep)
  }

  function Decimal(n: nat): string {
    var digit := ['0' + (n % 10) as char];
    if n < 10 then digit else Decimal(n / 10) + digit
  }

  function CloseCode(body: seq<WsFrames.octet>): nat {
    if |body| >= 2 then (body[0] as int) * 256 + body[1] else 1000
  }

  function CloseData(body: seq<WsFrames.octet>): string { "{\"code\":" + Decimal(CloseCode(body)) + "}" }

  const KEEP_ALIVE: string := ": ka\n\n"

  function Named(kind: string, data: string): string { "event: " + kind + "\ndata: " + data + "\n\n" }

  /** The text written for one message. */
  function Encode(m: Message): string {
    match m
    case Text(payload) => "data: " + Join(Split(payload), "\ndata: ") + "\n\n"
    case Binary(b64) => Named("bin", b64)
    case Close(body) => Named("close", CloseData(body))
    case Ping(_) => ""
    case Other => ""
  }

  /** One thing written on the downlink. */
  datatype Item = Opening | Beat | Msg(m: Message)

  function Wire(item: Item): string {
    match item
    case Opening => Named("open", "{}")
    case Beat => KEEP_ALIVE
    case Msg(m) => Encode(m)
  }

  function Wires(items: seq<Item>): seq<string> {
    seq(|items|, i requires 0 <= i < |items| => Wire(items[i]))
  }

  function Stream(items: seq<Item>): string { Concat(Wires(items)) }

  // ---- the parser ----

  datatype Event = Event(kind: string, data: string, id: string)

  /** The event type, data and last event ID buffers. */
  datatype Buffers = Buffers(kind: string, data: string, id: string)

  datatype Parsed = Parsed(buf: Buffers, out: seq<Event>)

  predicate IsBreak(c: char) { c == '\n' || c == '\r' }

  predicate OneLine(s: string) { forall i | 0 <= i < |s| :: !IsBreak(s[i]) }

  /** Where the first line ends, or the length of the text. */
  function LineEnd(s: string): (i: nat)
    ensures i <= |s| && OneLine(s[..i])
    ensures i < |s| ==> IsBreak(s[i])
  {
    if s == "" || IsBreak(s[0]) then 0
    else
      var i := 1 + LineEnd(s[1..]);
      assert s[..i] == [s[0]] + s[1..][..i - 1];
      i
  }

  /** Where the line after the break at `e` starts: past LF, CR, or CR LF. */
  function PastBreak(s: string, e: nat): (i: nat)
    requires e < |s|
    ensures e < i <= |s|
  {
    if s[e] == '\r' && e + 1 < |s| && s[e + 1] == '\n' then e + 2 else e + 1
  }

  function LineNext(s: string): (i: nat)
    requires LineEnd(s) < |s|
    ensures LineEnd(s) < i <= |s|
  {
    PastBreak(s, LineEnd(s))
  }

  function Colon(line: string): (i: nat)
    ensures i <= |line|
  {
    if line == "" || line[0] == ':' then 0 else 1 + Colon(line[1..])
  }

  function Value(s: string): string { if s != "" && s[0] == ' ' then s[1..] else s }

  function Field(buf: Buffers, name: string, value: string): Buffers {
    if name == "event" then buf.(kind := value)
    else if name == "data" then buf.(data := buf.data + value + "\n")
    else if name == "id" && '\0' !in value then buf.(id := value)
    else buf
  }

  function Dispatch(buf: Buffers): Parsed {
    if buf.data == "" then Parsed(Buffers("", "", buf.id), [])
    else
      var data := if buf.data[|buf.data| - 1] == '\n' then buf.data[..|buf.data| - 1] else buf.data;
      Parsed(Buffers("", "", buf.id), [Event(if buf.kind == "" then "message" else buf.kind, data, buf.id)])
  }

  function Line(buf: Buffers, line: string): Parsed {
    if line == "" then Dispatch(buf)
    else if line[0] == ':' then Parsed(buf, [])
    else
      var c := Colon(line);
      Parsed(Field(buf, line[..c], if c < |line| then Value(line[c + 1..]) else ""), [])
  }

  /** The finished lines of a text. */
  function Lines(s: string): seq<string>
    decreases |s|
  {
    if LineEnd(s) == |s| then [] else [s[..LineEnd(s)]] + Lines(s[LineNext(s)..])
  }

  function Interpret(buf: Buffers, lines: seq<string>): seq<Event>
    decreases |lines|
  {
    if lines == [] then []
    else
      var p := Line(buf, lines[0]);
      p.out + Interpret(p.buf, lines[1..])
  }

  /** The events dispatched while reading `s`; an unfinished line or event at its end is
      discarded. */
  function Parse(buf: Buffers, s: string): seq<Event> { Interpret(buf, Lines(s)) }

  const IDLE: Buffers := Buffers("", "", "")

  // ---- what each item should come out as ----

  function EventsOf(item: Item): seq<Event> {
    match item
    case Opening => [Event("open", "{}", "")]
    case Beat => []
    case Msg(Text(payload)) => [Event("message", payload, "")]
    case Msg(Binary(b64)) => [Event("bin", b64, "")]
    case Msg(Close(body)) => [Event("close", CloseData(body), "")]
    case Msg(_) => []
  }

  function Flat(events: seq<seq<Event>>): seq<Event> {
    if events == [] then [] else Flat(events[..|events| - 1]) + events[|events| - 1]
  }

  function EachEvents(items: seq<Item>): seq<seq<Event>> {
    seq(|items|, i requires 0 <= i < |items| => EventsOf(items[i]))
  }

  function Events(items: seq<Item>): seq<Event> { Flat(EachEvents(items)) }

  predicate CrFree(item: Item) {
    item.Msg? && item.m.Text? ==> '\r' !in item.m.payload
  }

  // ---- reading line by line ----

  lemma {:induction false} LineEndIs(line: string, rest: string)
    requires OneLine(line)
    ensures LineEnd(line + "\n" + rest) == |line|
  {
    var s := line + "\n" + rest;
    if line == "" {
      assert s[0] == '\n';
    } else {
      assert s[0] == line[0];
      assert s[1..] == line[1..] + "\n" + rest;
      LineEndIs(line[1..], rest);
    }
  }

  lemma LinesIs(line: string, rest: string)
    requires OneLine(line)
    ensures Lines(line + "\n" + rest) == [line] + Lines(rest)
  {
    var s := line + "\n" + rest;
    LineEndIs(line, rest);
    assert s[|line|] == '\n';
    assert s[..|line|] == line && s[|line| + 1..] == rest;
  }

  lemma ParseLine(buf: Buffers, line: string, rest: string)
    requires OneLine(line)
    ensures Parse(buf, line + "\n" + rest) == Line(buf, line).out + Parse(Line(buf, line).buf, rest)
  {
    LinesIs(line, rest);
    assert ([line] + Lines(rest))[1..] == Lines(rest);
  }

  lemma ColonIs(name: string, value: string)
    requires ':' !in name
    ensures Colon(name + ":" + value) == |name|
  {
    var s := name + ":" + value;
    if name == "" {
      assert s[0] == ':';
    } else {
      assert s[0] == name[0] && name[0] in name;
      assert s[1..] == name[1..] + ":" + value;
      ColonIs(name[1..], value);
    }
  }

  /** A line "name: value" keeps the value's own leading spaces. */
  lemma FieldLine(buf: Buffers, name: string, value: string)
    requires name != "" && ':' !in name
    ensures Line(buf, name + ": " + value) == Parsed(Field(buf, name, value), [])
  {
    var line := name + ": " + value;
    assert line == name + ":" + (" " + value);
    assert line[0] == name[0] && name[0] in name;
    ColonIs(name, " " + value);
    assert line[..|name|] == name && line[|name| + 1..] == " " + value;
    assert (" " + value)[1..] == value;
  }

  /** The text of one field line. */
  function FieldText(name: string, value: string): string { name + ": " + value + "\n" }

  lemma ParseField(buf: Buffers, name: string, value: string, rest: string)
    requires OneLine(name) && OneLine(value) && name != "" && ':' !in name
    ensures Parse(buf, FieldText(name, value) + rest) == Parse(Field(buf, name, value), rest)
  {
    var line := name + ": " + value;
    assert FieldText(name, value) + rest == line + "\n" + rest;
    assert OneLine(line);
    ParseLine(buf, line, rest);
    FieldLine(buf, name, value);
  }

  lemma ParseEvent(buf: Buffers, kind: string, rest: string)
    requires OneLine(kind)
    ensures Parse(buf, FieldText("event", kind) + rest) == Parse(buf.(kind := kind), rest)
  {
    ParseField(buf, "event", kind, rest);
  }

  lemma ParseData(buf: Buffers, data: string, rest: string)
    requires OneLine(data)
    ensures Parse(buf, FieldText("data", data) + rest) == Parse(buf.(data := buf.data + data + "\n"), rest)
  {
    ParseField(buf, "data", data, rest);
  }

  /** An empty line dispatches. */
  lemma ParseEnd(buf: Buffers, rest: string)
    ensures Parse(buf, "\n" + rest) == Dispatch(buf).out + Parse(Dispatch(buf).buf, rest)
  {
    assert "" + "\n" + rest == "\n" + rest;
    ParseLine(buf, "", rest);
  }

  lemma DispatchOne(kind: string, data: string)
    ensures Dispatch(Buffers(kind, data + "\n", ""))
         == Parsed(IDLE, [Event(if kind == "" then "message" else kind, data, "")])
  {
    assert (data + "\n")[..|data|] == data;
  }

  function DataLines(lines: seq<string>): string {
    if lines == [] then "" else FieldText("data", lines[0]) + DataLines(lines[1..])
  }

  function Terminated(lines: seq<string>): string {
    if lines == [] then "" else lines[0] + "\n" + Terminated(lines[1..])
  }

  lemma {:induction false} JoinedLines(lines: seq<string>)
    requires |lines| > 0
    ensures "data: " + Join(lines, "\ndata: ") + "\n" == DataLines(lines)
  {
    if |lines| > 1 {
      JoinedLines(lines[1..]);
      assert "data: " + Join(lines, "\ndata: ") + "\n"
          == "data: " + lines[0] + "\n" + ("data: " + Join(lines[1..], "\ndata: ") + "\n");
      assert FieldText("data", lines[0]) == "data: " + lines[0] + "\n";
    } else {
      assert lines[1..] == [] && DataLines(lines[1..]) == "";
      assert FieldText("data", lines[0]) == "data: " + lines[0] + "\n";
    }
  }

  lemma {:induction false} SplitTerminated(s: string)
    ensures Terminated(Split(s)) == s + "\n"
    ensures '\r' !in s ==> forall i | 0 <= i < |Split(s)| :: OneLine(Split(s)[i])
  {
    var lines := Split(s);
    if s == "" {
      assert lines[1..] == [];
    } else {
      var rest := Split(s[1..]);
      SplitTerminated(s[1..]);
      assert s == [s[0]] + s[1..];
      if s[0] == '\n' {
        assert lines[1..] == rest;
        assert Terminated(lines) == "" + "\n" + Terminated(rest);
      } else {
        assert lines[1..] == rest[1..];
        assert Terminated(lines) == [s[0]] + Terminated(rest);
      }
      if '\r' !in s {
        assert '\r' !in s[1..];
        forall i | 0 <= i < |lines|
          ensures OneLine(lines[i])
        {
          assert s[0] in s;
          assert OneLine(rest[0]);
          assert i > 0 && s[0] == '\n' ==> lines[i] == rest[i - 1];
          assert i > 0 && s[0] != '\n' ==> lines[i] == rest[i];
        }
      }
    }
  }

  lemma {:induction false} ParseDataLines(buf: Buffers, lines: seq<string>, rest: string)
    requires forall i | 0 <= i < |lines| :: OneLine(lines[i])
    ensures Parse(buf, DataLines(lines) + rest) == Parse(buf.(data := buf.data + Terminated(lines)), rest)
    decreases |lines|
  {
    if lines == [] {
      assert DataLines(lines) + rest == rest && buf.data + "" == buf.data;
    } else {
      var more := DataLines(lines[1..]) + rest;
      Assoc(FieldText("data", lines[0]), DataLines(lines[1..]), rest);
      ParseData(buf, lines[0], more);
      var next := buf.data + lines[0] + "\n";
      ParseDataLines(buf.(data := next), lines[1..], rest);
      DataGrows(buf.data, lines);
    }
  }

  lemma DataGrows(data: string, lines: seq<string>)
    requires lines != []
    ensures (data + lines[0] + "\n") + Terminated(lines[1..]) == data + Terminated(lines)
  {
    Assoc(data, lines[0], "\n");
    Assoc(data, lines[0] + "\n", Terminated(lines[1..]));
  }

  lemma ParseText(payload: string, rest: string)
    requires '\r' !in payload
    ensures Parse(IDLE, Encode(Text(payload)) + rest) == [Event("message", payload, "")] + Parse(IDLE, rest)
  {
    var lines := Split(payload);
    JoinedLines(lines);
    SplitTerminated(payload);
    assert Encode(Text(payload)) + rest == DataLines(lines) + ("\n" + rest);
    ParseDataLines(IDLE, lines, "\n" + rest);
    assert IDLE.data + Terminated(lines) == payload + "\n";
    ParseEnd(Buffers("", payload + "\n", ""), rest);
    DispatchOne("", payload);
  }

  lemma NamedText(kind: string, data: string, rest: string)
    ensures Named(kind, data) + rest == FieldText("event", kind) + (FieldText("data", data) + ("\n" + rest))
  {
    assert "event" + ": " == "event: " && "data" + ": " == "data: ";
    assert FieldText("event", kind) == "event: " + kind + "\n";
    assert FieldText("data", data) == "data: " + data + "\n";
    assert "\n" + "data: " == "\ndata: " && "\n" + "\n" == "\n\n";
  }

  /** An event of a named kind with one line of data. */
  lemma ParseNamed(kind: string, data: string, rest: string)
    requires OneLine(kind) && OneLine(data) && kind != ""
    ensures Parse(IDLE, Named(kind, data) + rest) == [Event(kind, data, "")] + Parse(IDLE, rest)
  {
    NamedText(kind, data, rest);
    ParseEvent(IDLE, kind, FieldText("data", data) + ("\n" + rest));
    ParseData(Buffers(kind, "", ""), data, "\n" + rest);
    assert "" + data + "\n" == data + "\n";
    ParseEnd(Buffers(kind, data + "\n", ""), rest);
    DispatchOne(kind, data);
  }

  lemma ParseBeat(rest: string)
    ensures Parse(IDLE, KEEP_ALIVE + rest) == Parse(IDLE, rest)
  {
    var tail := "" + "\n" + rest;
    assert KEEP_ALIVE + rest == ": ka" + "\n" + tail;
    ParseLine(IDLE, ": ka", tail);
    ParseLine(IDLE, "", rest);
  }

  predicate AllDigits(s: string) { forall i | 0 <= i < |s| :: '0' <= s[i] <= '9' }

  /** The number that decimal digits denote. */
  function Number(s: string): nat
    requires AllDigits(s)
  {
    if s == "" then 0 else 10 * Number(s[..|s| - 1]) + (s[|s| - 1] as int - '0' as int)
  }

  /** The decimal numeral of `n`, without leading zeros. */
  ghost predicate IsNumeral(s: string, n: nat) {
    s != "" && AllDigits(s) && Number(s) == n && (|s| > 1 ==> s[0] != '0')
  }

  lemma {:induction false} DecimalDenotes(n: nat)
    ensures IsNumeral(Decimal(n), n)
  {
    if n >= 10 {
      DecimalDenotes(n / 10);
      var s := Decimal(n);
      assert s[..|s| - 1] == Decimal(n / 10);
      assert n / 10 < 10 ==> Decimal(n / 10)[0] != '0';
    }
  }

  lemma DecimalOneLine(n: nat)
    ensures OneLine(Decimal(n))
  {
    DecimalDenotes(n);
  }

  /** A close is reported with its status code: the two octets of the body, most significant
      first, or 1000 without them. */
  lemma CloseReports(body: seq<WsFrames.octet>, rest: string) returns (digits: string)
    ensures IsNumeral(digits, if |body| < 2 then 1000 else WsFrames.Two(body[0], body[1]))
    ensures Parse(IDLE, Encode(Close(body)) + rest)
         == [Event("close", "{\"code\":" + digits + "}", "")] + Parse(IDLE, rest)
  {
    digits := Decimal(CloseCode(body));
    DecimalDenotes(CloseCode(body));
    ParseItem(Msg(Close(body)), rest);
  }

  /** Each item by itself, from idle buffers, comes out as its event and leaves them idle. */
  lemma ParseItem(item: Item, rest: string)
    requires CrFree(item)
    ensures Parse(IDLE, Wire(item) + rest) == EventsOf(item) + Parse(IDLE, rest)
  {
    match item
    case Opening => ParseNamed("open", "{}", rest);
    case Beat => ParseBeat(rest);
    case Msg(Text(payload)) => ParseText(payload, rest);
    case Msg(Binary(b64)) => ParseNamed("bin", b64, rest);
    case Msg(Close(body)) =>
      DecimalOneLine(CloseCode(body));
      ParseNamed("close", CloseData(body), rest);
    case Msg(_) => assert "" + rest == rest;
  }

  /** From idle buffers, `text` is read as `events` whatever follows it. */
  ghost predicate Reads(text: string, events: seq<Event>) {
    forall rest: string :: Parse(IDLE, text + rest) == events + Parse(IDLE, rest)
  }

  lemma ReadsBoth(a: string, x: seq<Event>, b: string, y: seq<Event>)
    requires Reads(a, x) && Reads(b, y)
    ensures Reads(a + b, x + y)
  {
    forall rest: string
      ensures Parse(IDLE, a + b + rest) == x + y + Parse(IDLE, rest)
    {
      Assoc(a, b, rest);
      assert Parse(IDLE, a + (b + rest)) == x + Parse(IDLE, b + rest);
    }
  }

  lemma ReadsNothing()
    ensures Reads("", [])
  {
    forall rest: string
      ensures Parse(IDLE, "" + rest) == [] + Parse(IDLE, rest)
    {
      assert "" + rest == rest;
    }
  }

  lemma {:induction false} ReadsConcat(parts: seq<string>, events: seq<seq<Event>>)
    requires |parts| == |events| && forall i | 0 <= i < |parts| :: Reads(parts[i], events[i])
    ensures Reads(Concat(parts), Flat(events))
    decreases |parts|
  {
    if parts == [] {
      ReadsNothing();
    } else {
      var n := |parts| - 1;
      ReadsConcat(parts[..n], events[..n]);
      ReadsBoth(Concat(parts[..n]), Flat(events[..n]), parts[n], events[n]);
    }
  }

  lemma ReadsAlone(text: string, events: seq<Event>)
    requires Reads(text, events)
    ensures Parse(IDLE, text) == events
  {
    assert text + "" == text;
    assert Parse(IDLE, text + "") == events + Parse(IDLE, "");
  }

  lemma ItemReads(item: Item)
    requires CrFree(item)
    ensures Reads(Wire(item), EventsOf(item))
  {
    forall rest: string
      ensures Parse(IDLE, Wire(item) + rest) == EventsOf(item) + Parse(IDLE, rest)
    {
      ParseItem(item, rest);
    }
  }

  // ---- what a carriage return does ----

  predicate BufNoCr(buf: Buffers) { '\r' !in buf.kind && '\r' !in buf.data && '\r' !in buf.id }

  ghost predicate NoCr(events: seq<Event>) {
    forall i | 0 <= i < |events| :: '\r' !in events[i].data
  }

  lemma LineNoCr(buf: Buffers, line: string)
    requires BufNoCr(buf) && OneLine(line)
    ensures BufNoCr(Line(buf, line).buf) && NoCr(Line(buf, line).out)
  {
    var c := Colon(line);
    if line != "" && line[0] != ':' && c < |line| {
      var v := line[c + 1..];
      assert forall i | 0 <= i < |v| :: v[i] == line[c + 1 + i];
    }
  }

  lemma {:induction false} InterpretedNoCr(buf: Buffers, lines: seq<string>)
    requires BufNoCr(buf) && forall i | 0 <= i < |lines| :: OneLine(lines[i])
    ensures NoCr(Interpret(buf, lines))
    decreases |lines|
  {
    if lines != [] {
      LineNoCr(buf, lines[0]);
      InterpretedNoCr(Line(buf, lines[0]).buf, lines[1..]);
    }
  }

  lemma {:induction false} LinesAreLines(s: string)
    ensures forall i | 0 <= i < |Lines(s)| :: OneLine(Lines(s)[i])
    decreases |s|
  {
    if LineEnd(s) < |s| {
      LinesAreLines(s[LineNext(s)..]);
    }
  }

  lemma {:induction false} EventAt(events: seq<seq<Event>>, i: nat, e: Event)
    requires i < |events| && e in events[i]
    ensures e in Flat(events)
    decreases |events|
  {
    if i < |events| - 1 {
      EventAt(events[..|events| - 1], i, e);
    }
  }

  /** The parser gets back exactly the messages, in order, with openings and keep-alives anywhere
      in between, precisely when no text payload contains a carriage return. Payloads may be
      empty, start with spaces, look like fields, and contain line feeds. */
  lemma StreamUndone(items: seq<Item>)
    ensures Parse(IDLE, Stream(items)) == Events(items) <==> forall i | 0 <= i < |items| :: CrFree(items[i])
  {
    var events := EachEvents(items);
    if forall i | 0 <= i < |items| :: CrFree(items[i]) {
      forall i | 0 <= i < |items|
        ensures Reads(Wires(items)[i], events[i])
      {
        ItemReads(items[i]);
      }
      ReadsConcat(Wires(items), events);
      ReadsAlone(Stream(items), Events(items));
    } else {
      var i :| 0 <= i < |items| && !CrFree(items[i]);
      EventAt(events, i, Event("message", items[i].m.payload, ""));
      LinesAreLines(Stream(items));
      InterpretedNoCr(IDLE, Lines(Stream(items)));
      var j :| 0 <= j < |Events(items)| && Events(items)[j] == Event("message", items[i].m.payload, "");
    }
  }

  // ---- a stream that breaks off ----

  lemma {:induction false} LineEndCut(s: string, n: nat)
    requires n <= |s|
    ensures LineEnd(s[..n]) == if LineEnd(s) < n then LineEnd(s) else n
  {
    if n > 0 && !IsBreak(s[0]) {
      assert s[..n][1..] == s[1..][..n - 1];
      LineEndCut(s[1..], n - 1);
    }
  }

  lemma CutSlice(s: string, from: nat, n: nat)
    requires from <= n <= |s|
    ensures s[..n][from..] == s[from..][..n - from]
  {
  }

  lemma CutBreak(s: string, e: nat, n: nat)
    requires e < n <= |s|
    ensures PastBreak(s[..n], e) == if PastBreak(s, e) <= n then PastBreak(s, e) else n
  {
  }

  lemma CutNext(s: string, n: nat)
    requires LineEnd(s) < n <= |s|
    ensures LineEnd(s[..n]) == LineEnd(s)
    ensures LineNext(s[..n]) == if LineNext(s) <= n then LineNext(s) else n
  {
    LineEndCut(s, n);
    CutBreak(s, LineEnd(s), n);
  }

  lemma {:induction false} CutLines(s: string, n: nat)
    requires n <= |s|
    ensures Lines(s[..n]) <= Lines(s)
    decreases |s|
  {
    var e := LineEnd(s);
    if e < n {
      CutNext(s, n);
      var from := LineNext(s);
      assert s[..n][..e] == s[..e];
      if from <= n {
        CutSlice(s, from, n);
        CutLines(s[from..], n - from);
        PrefixCat([s[..e]], Lines(s[from..][..n - from]), Lines(s[from..]));
      } else {
        assert s[..n][n..] == "";
      }
    } else {
      LineEndCut(s, n);
    }
  }

  lemma {:induction false} InterpretPrefix(buf: Buffers, a: seq<string>, b: seq<string>)
    requires a <= b
    ensures Interpret(buf, a) <= Interpret(buf, b)
    decreases |a|
  {
    if a != [] {
      var p := Line(buf, a[0]);
      InterpretPrefix(p.buf, a[1..], b[1..]);
      PrefixCat(p.out, Interpret(p.buf, a[1..]), Interpret(p.buf, b[1..]));
    }
  }

  /** Reading only the start of a text, cut anywhere, dispatches only the first of its events. */
  lemma CutPrefix(buf: Buffers, s: string, n: nat)
    requires n <= |s|
    ensures Parse(buf, s[..n]) <= Parse(buf, s)
  {
    CutLines(s, n);
    InterpretPrefix(buf, Lines(s[..n]), Lines(s));
  }

  /** Wherever the connection breaks, the client has received a prefix of the messages. */
  lemma BrokenStream(items: seq<Item>, n: nat)
    requires n <= |Stream(items)| && forall i | 0 <= i < |items| :: CrFree(items[i])
    ensures Parse(IDLE, Stream(items)[..n]) <= Events(items)
  {
    StreamUndone(items);
    CutPrefix(IDLE, Stream(items), n);
  }

  // ---- the downlink itself ----

  /** The pump returns after a close, and after a ping whose pong could not be written. */
  predicate Stops(m: Message) { m.Close? || (m.Ping? && !m.answered) }

  /** How many messages are handled: up to and with the first that stops the pump. */
  function Handled(msgs: seq<Message>): (n: nat)
    ensures n <= |msgs|
  {
    if msgs == [] then 0 else if Stops(msgs[0]) then 1 else 1 + Handled(msgs[1..])
  }

  predicate NoStop(msgs: seq<Message>, i: nat) {
    i <= |msgs| && forall j | 0 <= j < i :: !Stops(msgs[j])
  }

  lemma {:induction false} HandledIs(msgs: seq<Message>, i: nat)
    requires NoStop(msgs, i)
    ensures i <= Handled(msgs) && (i == |msgs| ==> Handled(msgs) == i)
    ensures i < |msgs| ==> i < Handled(msgs) && (Stops(msgs[i]) ==> Handled(msgs) == i + 1)
    decreases i
  {
    if i > 0 {
      HandledIs(msgs[1..], i - 1);
    }
  }

  /** The pump stops at the first close, or ping that cannot be answered, and at nothing else. */
  lemma {:induction false} HandledExact(msgs: seq<Message>)
    ensures var n := Handled(msgs);
            && (forall j | 0 <= j < n - 1 :: !msgs[j].Close? && msgs[j] != Ping(false))
            && (n < |msgs| ==> n > 0 && (msgs[n - 1].Close? || msgs[n - 1] == Ping(false)))
  {
    if msgs != [] && !Stops(msgs[0]) {
      HandledExact(msgs[1..]);
      assert forall j | 1 <= j < |msgs| :: msgs[j] == msgs[1..][j - 1];
    }
  }

  /** The text of `n` keep-alives. */
  function Ticks(n: nat): string { if n == 0 then "" else Ticks(n - 1) + KEEP_ALIVE }

  /** The messages' texts, each after its `beats(i)` keep-alives. */
  function Texts(msgs: seq<Message>, beats: nat -> nat): seq<string> {
    seq(|msgs|, i requires 0 <= i < |msgs| => Ticks(beats(i)) + Encode(msgs[i]))
  }

  /** Everything the pump and the keep-alives write on one connection. */
  function Whole(msgs: seq<Message>, beats: nat -> nat, after: nat): string {
    Concat(Texts(msgs, beats)[..Handled(msgs)]) + Ticks(after)
  }

  lemma {:induction false} TicksPrefix(i: nat, n: nat)
    requires i <= n
    ensures Ticks(i) <= Ticks(n)
    decreases n
  {
    if i < n {
      TicksPrefix(i, n - 1);
      Extends(Ticks(i), Ticks(n - 1), KEEP_ALIVE);
    }
  }

  class Downlink {
    var out: string
    /** How many more characters the client's side accepts before a write fails. */
    var room: nat

    constructor (accepts: nat)
      ensures out == "" && room == accepts
    {
      out, room := "", accepts;
    }

    method WriteSse(event: string) returns (ok: bool)
      modifies this
      ensures Wrote(old(out), old(room), event, out, room) && (ok <==> |event| <= old(room))
    {
      ok := |event| <= room;
      out := out + if ok then event else event[..room];
      room := if ok then room - |event| else 0;
    }

    /** Goes on after `before`: everything so far and the event together. */
    method Append(event: string, ghost out0: string, ghost room0: nat, ghost before: string) returns (ok: bool)
      requires Wrote(out0, room0, before, out, room) && |before| <= room0
      modifies this
      ensures Wrote(out0, room0, before + event, out, room) && (ok <==> |before + event| <= room0)
    {
      ghost var out1, room1 := out, room;
      ok := WriteSse(event);
      WroteBoth(out0, room0, before, out1, room1, event, out, room);
    }

    /** keepAlive's ticks; a failed one closes the connection. */
    method KeepAlive(ticks: nat) returns (ok: bool)
      modifies this
      ensures Wrote(old(out), old(room), Ticks(ticks), out, room) && (ok <==> |Ticks(ticks)| <= old(room))
    {
      WroteNothing(out, room);
      for i := 0 to ticks
        invariant |Ticks(i)| <= old(room) && Wrote(old(out), old(room), Ticks(i), out, room)
      {
        ok := Append(KEEP_ALIVE, old(out), old(room), Ticks(i));
        if !ok {
          TicksPrefix(i + 1, ticks);
          WrotePast(old(out), old(room), Ticks(i + 1), out, room, Ticks(ticks));
          return;
        }
      }
      ok := true;
    }

    /** One turn of pump's switch; `ok` is false when pump must return. */
    method Forward(m: Message) returns (ok: bool)
      modifies this
      ensures Wrote(old(out), old(room), Encode(m), out, room)
      ensures ok <==> !Stops(m) && |Encode(m)| <= old(room)
    {
      match m
      case Text(payload) =>
        var lines := Split(payload);
        ok := WriteSse("data: " + Join(lines, "\ndata: ") + "\n\n");
      case Binary(b64) =>
        ok := WriteSse(Named("bin", b64));
      case Close(body) =>
        var code := if |body| >= 2 then (body[0] as int) * 256 + body[1] else 1000;
        ok := WriteSse(Named("close", "{\"code\":" + Decimal(code) + "}"));
        ok := false;
      case Ping(answered) =>
        WroteNothing(out, room);
        ok := answered;
      case Other =>
        WroteNothing(out, room);
        ok := true;
    }

    /** Keep-alives, then one message. */
    method Turn(ticks: nat, m: Message) returns (ok: bool)
      modifies this
      ensures Wrote(old(out), old(room), Ticks(ticks) + Encode(m), out, room)
      ensures ok <==> !Stops(m) && |Ticks(ticks) + Encode(m)| <= old(room)
    {
      ok := KeepAlive(ticks);
      if ok {
        ghost var out1, room1 := out, room;
        ok := Forward(m);
        WroteBoth(old(out), old(room), Ticks(ticks), out1, room1, Encode(m), out, room);
      } else {
        WrotePast(old(out), old(room), Ticks(ticks), out, room, Ticks(ticks) + Encode(m));
      }
    }

    /** One iteration of pump's loop, after the first `i` messages. */
    method Iterate(msgs: seq<Message>, beats: nat -> nat, i: nat, ghost texts: seq<string>,
                   ghost out0: string, ghost room0: nat)
      returns (more: bool)
      requires i < |msgs| && texts == Texts(msgs, beats) && NoStop(msgs, i)
      requires Wrote(out0, room0, Concat(texts[..i]), out, room) && |Concat(texts[..i])| <= room0
      modifies this
      ensures more ==> NoStop(msgs, i + 1) && |Concat(texts[..i + 1])| <= room0
      ensures Wrote(out0, room0, Concat(texts[..if more then i + 1 else Handled(msgs)]), out, room)
    {
      ghost var out1, room1 := out, room;
      more := Turn(beats(i), msgs[i]);
      ConcatNext(texts, i);
      WroteBoth(out0, room0, Concat(texts[..i]), out1, room1, texts[i], out, room);
      if !more {
        HandledIs(msgs, i);
        StoppedAt(texts, i + 1, Handled(msgs), out0, room0, out, room);
      }
    }

    method Loop(msgs: seq<Message>, beats: nat -> nat)
      modifies this
      ensures Wrote(old(out), old(room), Concat(Texts(msgs, beats)[..Handled(msgs)]), out, room)
    {
      ghost var texts := Texts(msgs, beats);
      WroteNothing(out, room);
      for i := 0 to |msgs|
        invariant NoStop(msgs, i) && |Concat(texts[..i])| <= old(room)
        invariant Wrote(old(out), old(room), Concat(texts[..i]), out, room)
      {
        var more := Iterate(msgs, beats, i, texts, old(out), old(room));
        if !more {
          return;
        }
      }
      HandledIs(msgs, |msgs|);
    }

    /** pump, with keep-alives going out between the messages and, until it is noticed that the
        upstream has ended, `after` of them behind the last: what reaches the client is their
        text, cut off where the client's side stopped accepting. */
    method Pump(msgs: seq<Message>, beats: nat -> nat, after: nat)
      modifies this
      ensures out == old(out) + Take(Whole(msgs, beats, after), old(room))
    {
      Loop(msgs, beats);
      ghost var out1, room1 := out, room;
      var ok := KeepAlive(after);
      WroteBoth(old(out), old(room), Concat(Texts(msgs, beats)[..Handled(msgs)]), out1, room1, Ticks(after), out, room);
    }
  }

  lemma {:induction false} TicksRead(n: nat)
    ensures Reads(Ticks(n), [])
  {
    if n == 0 {
      ReadsNothing();
    } else {
      TicksRead(n - 1);
      forall rest: string
        ensures Parse(IDLE, KEEP_ALIVE + rest) == [] + Parse(IDLE, rest)
      {
        ParseBeat(rest);
      }
      ReadsBoth(Ticks(n - 1), [], KEEP_ALIVE, []);
    }
  }

  lemma TextReads(ticks: nat, m: Message)
    requires CrFree(Msg(m))
    ensures Reads(Ticks(ticks) + Encode(m), EventsOf(Msg(m)))
  {
    TicksRead(ticks);
    ItemReads(Msg(m));
    ReadsBoth(Ticks(ticks), [], Encode(m), EventsOf(Msg(m)));
    assert [] + EventsOf(Msg(m)) == EventsOf(Msg(m));
  }

  function HandledItems(msgs: seq<Message>): seq<Item> {
    seq(Handled(msgs), i requires 0 <= i < Handled(msgs) => Msg(msgs[i]))
  }

  lemma HandledReads(msgs: seq<Message>, beats: nat -> nat)
    requires forall i | 0 <= i < |msgs| :: CrFree(Msg(msgs[i]))
    ensures Reads(Concat(Texts(msgs, beats)[..Handled(msgs)]), Events(HandledItems(msgs)))
  {
    var texts, events := Texts(msgs, beats)[..Handled(msgs)], EachEvents(HandledItems(msgs));
    forall i | 0 <= i < |texts|
      ensures Reads(texts[i], events[i])
    {
      TextReads(beats(i), msgs[i]);
    }
    ReadsConcat(texts, events);
  }

  /** For any connection: the client dispatches a prefix of the handled messages, all of them
      when nothing failed, as long as no text payload contains a carriage return. */
  lemma ClientSees(msgs: seq<Message>, beats: nat -> nat, after: nat, accepts: nat)
    requires forall i | 0 <= i < |msgs| :: CrFree(Msg(msgs[i]))
    ensures var text, sent := Whole(msgs, beats, after), Events(HandledItems(msgs));
            && Parse(IDLE, Take(text, accepts)) <= sent
            && (|text| <= accepts ==> Parse(IDLE, Take(text, accepts)) == sent)
  {
    var text, sent := Whole(msgs, beats, after), Events(HandledItems(msgs));
    HandledReads(msgs, beats);
    TicksRead(after);
    ReadsBoth(Concat(Texts(msgs, beats)[..Handled(msgs)]), sent, Ticks(after), []);
    assert sent + [] == sent;
    ReadsAlone(text, sent);
    if accepts < |text| {
      CutPrefix(IDLE, text, accepts);
    }
  }
}
