/** Message reassembly on top of frames (ReadMessage in internal/ws/ws.go): section 5.4 of
    RFC 6455. */
module WsMessages {
  import opened WsFrames

  datatype Msg = Msg(op: octet, payload: seq<octet>)

  /** The open fragmented message: its first opcode (0 when none is open) and what arrived. */
  datatype Frag = Frag(op: octet, buf: seq<octet>)

  const IDLE := Frag(0, [])

  datatype Turn = Deliver(msg: Msg, frag: Frag) | More(frag: Frag) | Fail(error: WsError)

  predicate IsControl(op: octet) { op == OP_CLOSE || op == OP_PING || op == OP_PONG }

  /** Close, ping and pong; everything else up to 15 is data. */
  lemma ControlOpcodes(op: octet)
    ensures IsControl(op) <==> 8 <= op <= 10
  {
  }

  /** What one frame does to the reassembly state. */
  function Accept(client: bool, g: Frag, f: Frame): Turn {
    if !client then
      if !f.fin then Fail(Fragmented) else Deliver(Msg(f.op, f.payload), g)
    else if IsControl(f.op) then Deliver(Msg(f.op, f.payload), g)
    else if f.op == 0 then
      if g.op == 0 then Fail(NoOpenMessage)
      else if |g.buf + f.payload| > MAX_MESSAGE then Fail(MessageTooLarge)
      else if !f.fin then More(Frag(g.op, g.buf + f.payload))
      else Deliver(Msg(g.op, g.buf + f.payload), IDLE)
    else if g.op != 0 then Fail(MessageStillOpen)
    else if f.fin then Deliver(Msg(f.op, f.payload), g)
    else More(Frag(f.op, g.buf + f.payload))
  }

  datatype Received = Message(msg: Msg, frag: Frag, rest: seq<octet>) | Failed(error: WsError)

  /** One ReadMessage call on an octet stream. */
  function Receive(client: bool, g: Frag, s: seq<octet>): Received
    decreases |s|
  {
    match Decode(client, s)
    case Bad(e) => Failed(e)
    case Got(f, rest) =>
      match Accept(client, g, f)
      case Fail(e) => Failed(e)
      case Deliver(msg, g') => Message(msg, g', rest)
      case More(g') => Receive(client, g', rest)
  }

  /** The reassembly half of ws.Conn. */
  class Reader {
    const conn: Conn
    var fragOp: octet
    var fragBuf: seq<octet>

    constructor (c: Conn)
      ensures conn == c && fragOp == 0 && fragBuf == [] && Valid()
    {
      conn, fragOp, fragBuf := c, 0, [];
    }

    ghost predicate Valid()
      reads this
    {
      fragOp == 0 ==> fragBuf == []
    }

    method ReadMessage() returns (r: Received)
      requires Valid()
      modifies this, conn`inp
      ensures r == Receive(conn.client, Frag(old(fragOp), old(fragBuf)), old(conn.inp))
      ensures r.Message? ==> Frag(fragOp, fragBuf) == r.frag && conn.inp == r.rest && Valid()
    {
      while true
        invariant Valid()
        invariant Receive(conn.client, Frag(fragOp, fragBuf), conn.inp)
                  == Receive(conn.client, Frag(old(fragOp), old(fragBuf)), old(conn.inp))
        decreases |conn.inp|
      {
        var d := conn.ReadFrame();
        if d.Bad? {
          return Failed(d.error);
        }
        var f := d.frame;
        if !conn.client {
          if !f.fin {
            return Failed(Fragmented);
          }
          return Message(Msg(f.op, f.payload), Frag(fragOp, fragBuf), conn.inp);
        }
        if f.op == OP_CLOSE || f.op == OP_PING || f.op == OP_PONG {
          return Message(Msg(f.op, f.payload), Frag(fragOp, fragBuf), conn.inp);
        }
        if f.op == 0 {
          if fragOp == 0 {
            return Failed(NoOpenMessage);
          }
          fragBuf := fragBuf + f.payload;
          if |fragBuf| > MAX_MESSAGE {
            return Failed(MessageTooLarge);
          }
          if !f.fin {
            continue;
          }
          var op, whole := fragOp, fragBuf;
          fragOp, fragBuf := 0, [];
          return Message(Msg(op, whole), IDLE, conn.inp);
        }
        if fragOp != 0 {
          return Failed(MessageStillOpen);
        }
        if f.fin {
          return Message(Msg(f.op, f.payload), Frag(fragOp, fragBuf), conn.inp);
        }
        fragOp := f.op;
        fragBuf := fragBuf + f.payload;
      }
    }
  }

  // ---- a whole stream of frames ----

  datatype Stream = Stream(out: seq<Msg>, frag: Frag) | Broken(error: WsError)

  /** The messages a client's ReadMessage calls return on these frames. */
  function Assemble(g: Frag, fs: seq<Frame>): Stream
    decreases |fs|
  {
    if fs == [] then Stream([], g)
    else
      match Accept(true, g, fs[0])
      case Fail(e) => Broken(e)
      case More(g') => Assemble(g', fs[1..])
      case Deliver(msg, g') =>
        match Assemble(g', fs[1..])
        case Broken(e) => Broken(e)
        case Stream(out, g'') => Stream([msg] + out, g'')
  }

  function Then(a: Stream, b: Stream): Stream
    requires a.Stream?
  {
    match b case Broken(e) => Broken(e) case Stream(out, g) => Stream(a.out + out, g)
  }

  /** Frames are handled in arrival order: what a prefix delivers is a prefix of what is
      delivered. */
  lemma {:induction false} AssembleConcat(g: Frag, a: seq<Frame>, b: seq<Frame>)
    ensures var x := Assemble(g, a);
            Assemble(g, a + b) == if x.Broken? then x else Then(x, Assemble(x.frag, b))
    decreases |a|
  {
    if a == [] {
      assert a + b == b;
    } else {
      assert (a + b)[1..] == a[1..] + b;
      match Accept(true, g, a[0])
      case Fail(_) =>
      case More(g') => AssembleConcat(g', a[1..], b);
      case Deliver(msg, g') => AssembleConcat(g', a[1..], b);
    }
  }

  function DataFrames(fs: seq<Frame>): seq<Frame> {
    if fs == [] then [] else (if IsControl(fs[0].op) then [] else [fs[0]]) + DataFrames(fs[1..])
  }

  function ControlMsgs(fs: seq<Frame>): seq<Msg> {
    if fs == [] then []
    else (if IsControl(fs[0].op) then [Msg(fs[0].op, fs[0].payload)] else []) + ControlMsgs(fs[1..])
  }

  function Keep(ms: seq<Msg>, control: bool): seq<Msg> {
    if ms == [] then [] else (if IsControl(ms[0].op) == control then [ms[0]] else []) + Keep(ms[1..], control)
  }

  lemma KeepCons(m: Msg, ms: seq<Msg>, control: bool)
    ensures Keep([m] + ms, control) == (if IsControl(m.op) == control then [m] else []) + Keep(ms, control)
  {
    assert ([m] + ms)[1..] == ms;
  }

  /** Control frames pass through without touching the reassembly of the data around them. */
  lemma {:induction false} ControlsAreTransparent(g: Frag, fs: seq<Frame>)
    requires !IsControl(g.op)
    ensures var all, data := Assemble(g, fs), Assemble(g, DataFrames(fs));
            && (all.Broken? || data.Broken? ==> all == data)
            && (all.Stream? ==> all.frag == data.frag && Keep(all.out, false) == data.out
                                && Keep(all.out, true) == ControlMsgs(fs))
    decreases |fs|
  {
    if fs != [] {
      var f, rest := fs[0], fs[1..];
      if IsControl(f.op) {
        ControlsAreTransparent(g, rest);
        var a := Assemble(g, rest);
        assert DataFrames(fs) == DataFrames(rest);
        if a.Stream? {
          KeepCons(Msg(f.op, f.payload), a.out, false);
          KeepCons(Msg(f.op, f.payload), a.out, true);
        }
      } else {
        assert DataFrames(fs)[0] == f && DataFrames(fs)[1..] == DataFrames(rest);
        match Accept(true, g, f)
        case Fail(_) =>
        case More(g') => ControlsAreTransparent(g', rest);
        case Deliver(msg, g') =>
          ControlsAreTransparent(g', rest);
          var a := Assemble(g', rest);
          if a.Stream? {
            KeepCons(msg, a.out, false);
            KeepCons(msg, a.out, true);
          }
      }
    }
  }

  /** The data messages and the control frames in one order: each control frame comes after
      exactly the data messages that the frames before it completed. */
  function Merged(data: seq<Msg>, fs: seq<Frame>): seq<Msg>
    decreases |fs|
  {
    if fs == [] then []
    else if IsControl(fs[0].op) then [Msg(fs[0].op, fs[0].payload)] + Merged(data, fs[1..])
    else if fs[0].fin && data != [] then [data[0]] + Merged(data[1..], fs[1..])
    else Merged(data, fs[1..])
  }

  /** What is delivered is delivered in that order. */
  lemma {:induction false} DeliveredInOrder(g: Frag, fs: seq<Frame>)
    requires !IsControl(g.op) && Assemble(g, fs).Stream?
    ensures var out := Assemble(g, fs).out; out == Merged(Keep(out, false), fs)
    decreases |fs|
  {
    if fs != [] {
      var f, rest := fs[0], fs[1..];
      match Accept(true, g, f)
      case Fail(_) =>
      case More(g') => DeliveredInOrder(g', rest);
      case Deliver(msg, g') =>
        DeliveredInOrder(g', rest);
        KeepCons(msg, Assemble(g', rest).out, false);
        var data := Keep(Assemble(g', rest).out, false);
        assert ([msg] + data)[1..] == data;
        assert [] + data == data;
    }
  }

  // ---- fragmented messages ----

  /** A data message and the way its sender split it. */
  datatype Split = Split(op: octet, parts: seq<seq<octet>>)

  ghost predicate IsDataMessage(m: Split) {
    m.parts != [] && m.op != 0 && !IsControl(m.op)
  }

  function Whole(parts: seq<seq<octet>>): seq<octet> {
    if parts == [] then [] else parts[0] + Whole(parts[1..])
  }

  /** The frames of the rest of a message: continuation frames, the last one final. */
  function Continuation(parts: seq<seq<octet>>): seq<Frame> {
    if parts == [] then [] else [Frame(|parts| == 1, 0, parts[0])] + Continuation(parts[1..])
  }

  function Fragments(m: Split): seq<Frame>
    requires m.parts != []
  {
    [Frame(|m.parts| == 1, m.op, m.parts[0])] + Continuation(m.parts[1..])
  }

  function AllFragments(ms: seq<Split>): seq<Frame>
    requires forall i | 0 <= i < |ms| :: IsDataMessage(ms[i])
  {
    if ms == [] then []
    else
      assert IsDataMessage(ms[0]);
      Fragments(ms[0]) + AllFragments(ms[1..])
  }

  function Messages(ms: seq<Split>): seq<Msg> {
    if ms == [] then [] else [Msg(ms[0].op, Whole(ms[0].parts))] + Messages(ms[1..])
  }

  /** The cap applies to reassembled messages only; a single frame has its own. */
  predicate Fits(m: Split) {
    |m.parts| <= 1 || |Whole(m.parts)| <= MAX_MESSAGE
  }

  lemma {:induction false} ContinuationAssembles(op: octet, buf: seq<octet>, parts: seq<seq<octet>>)
    requires op != 0 && !IsControl(op) && parts != []
    ensures Assemble(Frag(op, buf), Continuation(parts))
            == if |buf + Whole(parts)| <= MAX_MESSAGE then Stream([Msg(op, buf + Whole(parts))], IDLE)
               else Broken(MessageTooLarge)
    decreases |parts|
  {
    var fs := Continuation(parts);
    var rest := parts[1..];
    assert fs[1..] == Continuation(rest);
    assert buf + Whole(parts) == (buf + parts[0]) + Whole(rest);
    if |parts| == 1 {
      assert rest == [] && buf + parts[0] + [] == buf + parts[0];
      assert Assemble(IDLE, []) == Stream([], IDLE);
      assert [Msg(op, buf + parts[0])] + [] == [Msg(op, buf + parts[0])];
    } else {
      ContinuationAssembles(op, buf + parts[0], rest);
    }
  }

  lemma OneMessageAssembles(m: Split)
    requires IsDataMessage(m)
    ensures Assemble(IDLE, Fragments(m))
            == if Fits(m) then Stream([Msg(m.op, Whole(m.parts))], IDLE) else Broken(MessageTooLarge)
  {
    var fs := Fragments(m);
    var rest := m.parts[1..];
    assert fs[1..] == Continuation(rest);
    if |m.parts| == 1 {
      assert rest == [] && m.parts[0] + [] == m.parts[0];
      assert [Msg(m.op, m.parts[0])] + [] == [Msg(m.op, m.parts[0])];
    } else {
      assert [] + m.parts[0] == m.parts[0];
      ContinuationAssembles(m.op, m.parts[0], rest);
    }
  }

  lemma {:induction false} DataAssembles(ms: seq<Split>)
    requires forall i | 0 <= i < |ms| :: IsDataMessage(ms[i])
    ensures Assemble(IDLE, AllFragments(ms))
            == if forall i | 0 <= i < |ms| :: Fits(ms[i]) then Stream(Messages(ms), IDLE) else Broken(MessageTooLarge)
    decreases |ms|
  {
    if ms != [] {
      OneMessageAssembles(ms[0]);
      AssembleConcat(IDLE, Fragments(ms[0]), AllFragments(ms[1..]));
      DataAssembles(ms[1..]);
      var rest := ms[1..];
      if forall i | 0 <= i < |rest| :: Fits(rest[i]) {
        assert Fits(ms[0]) ==> forall i | 0 <= i < |ms| :: Fits(ms[i]) by {
          assert forall i | 1 <= i < |ms| :: ms[i] == rest[i - 1];
        }
      } else {
        var i :| 0 <= i < |rest| && !Fits(rest[i]);
        assert !Fits(ms[i + 1]);
      }
    }
  }

  /** Reassembly: however the data messages are split and whatever control frames arrive in
      between, a client reads back each data message with its first opcode and whole payload and
      each control frame where it arrived, after exactly the data messages completed before it,
      precisely when every reassembled message fits the cap; otherwise it fails with that
      error. */
  lemma ReassemblyIsExact(ms: seq<Split>, fs: seq<Frame>)
    requires forall i | 0 <= i < |ms| :: IsDataMessage(ms[i])
    requires DataFrames(fs) == AllFragments(ms)
    ensures var r := Assemble(IDLE, fs);
            && (r.Stream? <==> forall i | 0 <= i < |ms| :: Fits(ms[i]))
            && (r.Stream? ==>
                  && r.frag == IDLE && r.out == Merged(Messages(ms), fs)
                  && Keep(r.out, false) == Messages(ms) && Keep(r.out, true) == ControlMsgs(fs))
            && (r.Broken? ==> r.error == MessageTooLarge)
  {
    ControlsAreTransparent(IDLE, fs);
    DataAssembles(ms);
    if Assemble(IDLE, fs).Stream? {
      DeliveredInOrder(IDLE, fs);
    }
  }

  // ---- which frames are accepted ----

  /** A server takes every final masked frame as a message of its own and refuses all others;
      its reassembly state is never touched. */
  lemma ServerReceives(g: Frag, f: Frame, key: seq<octet>, suffix: seq<octet>)
    requires key == [] || |key| == 4
    requires f.op < 16 && |f.payload| <= MAX_MESSAGE
    ensures Receive(false, g, Encode(f, key) + suffix)
            == if key == [] then Failed(NotMasked)
               else if !f.fin then Failed(Fragmented)
               else Message(Msg(f.op, f.payload), g, suffix)
  {
    if key == [] {
      DecodeEncoded(false, f, key, suffix);
      assert |f.payload| % 4294967296 == |f.payload|;
      FirstByteFields(f);
    } else {
      FrameSurvives(false, f, key, suffix);
    }
  }

  /** Whether a message is open before data frame `i`: the frame before it was not final. */
  predicate Opened(g: Frag, data: seq<Frame>, i: nat)
    requires i < |data|
  {
    if i == 0 then g.op != 0 else !data[i - 1].fin
  }

  /** How much of its message has arrived with data frame `i`. */
  function Gathered(g: Frag, data: seq<Frame>, i: nat): nat
    requires i < |data|
  {
    |data[i].payload| + if !Opened(g, data, i) then 0 else if i == 0 then |g.buf| else Gathered(g, data, i - 1)
  }

  datatype Verdict = Fine | Faulty(error: WsError)

  /** Section 5.4: a continuation continues an open message, anything else starts one when none
      is open, and a message that is continued stays within the cap. */
  function VerdictOn(g: Frag, data: seq<Frame>, i: nat): Verdict
    requires i < |data|
  {
    if data[i].op == 0 && !Opened(g, data, i) then Faulty(NoOpenMessage)
    else if data[i].op != 0 && Opened(g, data, i) then Faulty(MessageStillOpen)
    else if data[i].op == 0 && Gathered(g, data, i) > MAX_MESSAGE then Faulty(MessageTooLarge)
    else Fine
  }

  ghost predicate OnlyData(fs: seq<Frame>) { forall i | 0 <= i < |fs| :: !IsControl(fs[i].op) }

  lemma {:induction false} GatheredShift(g: Frag, data: seq<Frame>, g': Frag, i: nat)
    requires i + 1 < |data| && (g'.op != 0 <==> !data[0].fin)
    requires g'.op != 0 ==> |g'.buf| == Gathered(g, data, 0)
    ensures Opened(g', data[1..], i) <==> Opened(g, data, i + 1)
    ensures Gathered(g', data[1..], i) == Gathered(g, data, i + 1)
  {
    if i > 0 {
      GatheredShift(g, data, g', i - 1);
    }
  }

  ghost predicate Ready(g: Frag) { !IsControl(g.op) && (g.op == 0 ==> g.buf == []) }

  lemma AcceptedFirst(g: Frag, data: seq<Frame>)
    requires data != [] && OnlyData(data) && Ready(g)
    ensures match Accept(true, g, data[0])
            case Fail(e) => VerdictOn(g, data, 0) == Faulty(e)
            case More(g') =>
              VerdictOn(g, data, 0) == Fine && Ready(g') && g'.op != 0 && !data[0].fin
              && |g'.buf| == Gathered(g, data, 0)
            case Deliver(_, g') => VerdictOn(g, data, 0) == Fine && g' == IDLE && data[0].fin
  {
  }

  /** Data frames are accepted exactly when each of them is in order; otherwise the error is that
      of the first that is not. */
  ghost predicate Judged(g: Frag, data: seq<Frame>, r: Stream) {
    match r
    case Stream(_, _) => forall i | 0 <= i < |data| :: VerdictOn(g, data, i) == Fine
    case Broken(e) =>
      exists i :: 0 <= i < |data| && VerdictOn(g, data, i) == Faulty(e)
                  && forall j | 0 <= j < i :: VerdictOn(g, data, j) == Fine
  }

  lemma JudgedNext(g: Frag, data: seq<Frame>, g': Frag, r: Stream, all: Stream)
    requires data != [] && VerdictOn(g, data, 0) == Fine && Judged(g', data[1..], r)
    requires (g'.op != 0 <==> !data[0].fin) && (g'.op != 0 ==> |g'.buf| == Gathered(g, data, 0))
    requires (r.Stream? <==> all.Stream?) && (r.Broken? ==> all == r)
    ensures Judged(g, data, all)
  {
    var rest := data[1..];
    forall i | 0 <= i < |rest|
      ensures VerdictOn(g, data, i + 1) == VerdictOn(g', rest, i)
    {
      GatheredShift(g, data, g', i);
    }
    if r.Broken? {
      var i :| 0 <= i < |rest| && VerdictOn(g', rest, i) == Faulty(r.error)
               && forall j | 0 <= j < i :: VerdictOn(g', rest, j) == Fine;
      forall j | 0 <= j < i + 1
        ensures VerdictOn(g, data, j) == Fine
      {
        assert j > 0 ==> VerdictOn(g, data, (j - 1) + 1) == VerdictOn(g', rest, j - 1);
      }
      assert VerdictOn(g, data, i + 1) == Faulty(r.error);
    } else {
      forall i | 0 <= i < |data|
        ensures VerdictOn(g, data, i) == Fine
      {
        assert i > 0 ==> VerdictOn(g, data, (i - 1) + 1) == VerdictOn(g', rest, i - 1);
      }
    }
  }

  lemma {:induction false} DataJudged(g: Frag, data: seq<Frame>)
    requires OnlyData(data) && Ready(g)
    ensures Judged(g, data, Assemble(g, data))
    decreases |data|
  {
    if data != [] {
      AcceptedFirst(g, data);
      match Accept(true, g, data[0])
      case Fail(e) =>
        assert VerdictOn(g, data, 0) == Faulty(e);
      case More(g') =>
        DataJudged(g', data[1..]);
        JudgedNext(g, data, g', Assemble(g', data[1..]), Assemble(g, data));
      case Deliver(_, g') =>
        DataJudged(g', data[1..]);
        JudgedNext(g, data, g', Assemble(g', data[1..]), Assemble(g, data));
    }
  }

  lemma {:induction false} DataFramesAreData(fs: seq<Frame>)
    ensures OnlyData(DataFrames(fs))
  {
    if fs != [] {
      DataFramesAreData(fs[1..]);
    }
  }

  /** Any frames at all, control frames anywhere among them: a client accepts them exactly when
      every data frame is in order, and otherwise fails with the error of the first that is not. */
  lemma FramesJudged(fs: seq<Frame>)
    ensures Judged(IDLE, DataFrames(fs), Assemble(IDLE, fs))
  {
    DataFramesAreData(fs);
    DataJudged(IDLE, DataFrames(fs));
    ControlsAreTransparent(IDLE, fs);
  }

  // ---- from bytes ----

  /** One masking key per frame, or none for a frame that is not masked. */
  ghost predicate AreKeys(keys: seq<seq<octet>>, fs: seq<Frame>) {
    |keys| == |fs| && forall i | 0 <= i < |keys| :: keys[i] == [] || |keys[i]| == 4
  }

  ghost function EncodeAll(fs: seq<Frame>, keys: seq<seq<octet>>): seq<octet>
    requires AreKeys(keys, fs)
  {
    if fs == [] then [] else Encode(fs[0], keys[0]) + EncodeAll(fs[1..], keys[1..])
  }

  /** A client that keeps calling ReadMessage: what it gets, and the error that stops it. */
  function ReceiveAll(g: Frag, s: seq<octet>): (seq<Msg>, WsError)
    decreases |s|
  {
    match Decode(true, s)
    case Bad(e) => ([], e)
    case Got(f, rest) =>
      match Accept(true, g, f)
      case Fail(e) => ([], e)
      case More(g') => ReceiveAll(g', rest)
      case Deliver(msg, g') => var (out, e) := ReceiveAll(g', rest); ([msg] + out, e)
  }

  /** That loop is repeated ReadMessage, and each call consumes something. */
  lemma {:induction false} ReceiveAllUnfolds(g: Frag, s: seq<octet>)
    ensures ReceiveAll(g, s) ==
            match Receive(true, g, s)
            case Failed(e) => ([], e)
            case Message(msg, g', rest) => var (out, e) := ReceiveAll(g', rest); ([msg] + out, e)
    ensures Receive(true, g, s).Message? ==> |Receive(true, g, s).rest| < |s|
    decreases |s|
  {
    match Decode(true, s)
    case Bad(_) =>
    case Got(f, rest) =>
      match Accept(true, g, f)
      case Fail(_) =>
      case Deliver(_, _) =>
      case More(g') => ReceiveAllUnfolds(g', rest);
  }

  /** The messages delivered before the frames run out or one of them is refused. */
  function Delivered(g: Frag, fs: seq<Frame>): (seq<Msg>, WsError)
    decreases |fs|
  {
    if fs == [] then ([], UnexpectedEof)
    else
      match Accept(true, g, fs[0])
      case Fail(e) => ([], e)
      case More(g') => Delivered(g', fs[1..])
      case Deliver(msg, g') => var (out, e) := Delivered(g', fs[1..]); ([msg] + out, e)
  }

  lemma {:induction false} DeliveredIsAssembled(g: Frag, fs: seq<Frame>)
    ensures match Assemble(g, fs)
            case Stream(out, _) => Delivered(g, fs) == (out, UnexpectedEof)
            case Broken(e) => Delivered(g, fs).1 == e
    decreases |fs|
  {
    if fs != [] {
      match Accept(true, g, fs[0])
      case Fail(_) =>
      case More(g') => DeliveredIsAssembled(g', fs[1..]);
      case Deliver(_, g') => DeliveredIsAssembled(g', fs[1..]);
    }
  }

  ghost predicate OnWire(fs: seq<Frame>) {
    forall i | 0 <= i < |fs| :: fs[i].op < 16 && |fs[i].payload| <= MAX_MESSAGE
  }

  /** Over any frames that fit the wire, each masked with its own key or not at all, reading the
      bytes back delivers exactly the same messages as the frames themselves, and stops with the
      same error. */
  lemma {:induction false} BytesAssemble(g: Frag, fs: seq<Frame>, keys: seq<seq<octet>>)
    requires AreKeys(keys, fs) && OnWire(fs)
    ensures ReceiveAll(g, EncodeAll(fs, keys)) == Delivered(g, fs)
    decreases |fs|
  {
    if fs != [] {
      FrameSurvives(true, fs[0], keys[0], EncodeAll(fs[1..], keys[1..]));
      match Accept(true, g, fs[0])
      case Fail(_) =>
      case More(g') => BytesAssemble(g', fs[1..], keys[1..]);
      case Deliver(msg, g') => BytesAssemble(g', fs[1..], keys[1..]);
    } else {
      assert EncodeAll(fs, keys) == [];
    }
  }

  /** Codec and reassembly together: however data messages are split into frames, whatever
      control frames come in between and whichever keys mask them, a client that reads the bytes
      gets each data message with its first opcode and whole payload and each control frame
      where it arrived, and then the end of the stream, exactly when every reassembled message
      fits the cap; otherwise it stops with that error. */
  lemma ClientReadsExactly(ms: seq<Split>, fs: seq<Frame>, keys: seq<seq<octet>>)
    requires forall i | 0 <= i < |ms| :: IsDataMessage(ms[i])
    requires DataFrames(fs) == AllFragments(ms) && AreKeys(keys, fs) && OnWire(fs)
    ensures var (out, e) := ReceiveAll(IDLE, EncodeAll(fs, keys));
            && (e == UnexpectedEof <==> forall i | 0 <= i < |ms| :: Fits(ms[i]))
            && (e == UnexpectedEof ==> out == Merged(Messages(ms), fs))
            && (e == UnexpectedEof ==> Keep(out, false) == Messages(ms) && Keep(out, true) == ControlMsgs(fs))
            && (e != UnexpectedEof ==> e == MessageTooLarge)
  {
    ReassemblyIsExact(ms, fs);
    DeliveredIsAssembled(IDLE, fs);
    BytesAssemble(IDLE, fs, keys);
  }

  /** What a client that has read `out` ends up with. */
  function ReadOn(out: seq<Msg>, g: Frag, s: seq<octet>): (seq<Msg>, WsError) {
    (out + ReceiveAll(g, s).0, ReceiveAll(g, s).1)
  }

  lemma ReadOnUnfolds(out: seq<Msg>, g: Frag, s: seq<octet>)
    ensures match Receive(true, g, s)
            case Failed(e) => ReadOn(out, g, s) == (out, e)
            case Message(msg, g', rest) => ReadOn(out, g, s) == ReadOn(out + [msg], g', rest) && |rest| < |s|
  {
    ReceiveAllUnfolds(g, s);
    match Receive(true, g, s)
    case Failed(_) => assert out + [] == out;
    case Message(msg, g', rest) =>
      assert out + ([msg] + ReceiveAll(g', rest).0) == out + [msg] + ReceiveAll(g', rest).0;
  }

  /** The loop of a client that reads until an error. */
  method ReadAll(r: Reader) returns (out: seq<Msg>, e: WsError)
    requires r.Valid() && r.conn.client
    modifies r, r.conn`inp
    ensures (out, e) == ReceiveAll(Frag(old(r.fragOp), old(r.fragBuf)), old(r.conn.inp))
  {
    out := [];
    ghost var all := ReceiveAll(Frag(r.fragOp, r.fragBuf), r.conn.inp);
    assert [] + all.0 == all.0;
    while true
      invariant r.Valid() && all == ReadOn(out, Frag(r.fragOp, r.fragBuf), r.conn.inp)
      decreases |r.conn.inp|
    {
      ReadOnUnfolds(out, Frag(r.fragOp, r.fragBuf), r.conn.inp);
      var m := r.ReadMessage();
      if m.Failed? {
        return out, m.error;
      }
      out := out + [m.msg];
    }
  }
}
