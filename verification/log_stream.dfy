/** The polling log stream (handleInstanceLogStream in internal/app/app.go): the fallback that
    follows an instance's output without a live subscription. Each poll sees one snapshot of
    the instance, as in `Replays`. */
module LogStreams {
  import opened RingBuffers
  import opened Replays

  /** What the client is sent: bytes with the offset that follows them, or a ping. */
  datatype LogEvent = Log(chunk: seq<byte>, next: int) | Ping

  datatype LogStream = LogStream(live: bool, cursor: int, events: seq<LogEvent>)

  function FirstRead(since: int, s: Source): Answer {
    if since == FOLLOW_LIVE_END then ManagerEndOffset(s)
    else if since < 0 then ManagerTail(s, CHUNK)
    else ManagerReadSince(s, since, CHUNK)
  }

  function Open(since: int, s: Source): LogStream {
    var a := FirstRead(since, s);
    if a.Failed? then LogStream(false, since, []) else LogStream(true, a.next, [Log(a.body, a.next)])
  }

  /** One tick. An empty answer leaves the cursor where it was. */
  function Poll(t: LogStream, s: Source): LogStream {
    if !t.live then t
    else
      var a := ManagerReadSince(s, t.cursor, CHUNK);
      if a.Failed? then t.(live := false)
      else if a.body == [] then t.(events := t.events + [Ping])
      else LogStream(true, a.next, t.events + [Log(a.body, a.next)])
  }

  /** The stream after its reads have seen `srcs`, in order. */
  function Follow(since: int, srcs: seq<Source>): LogStream
    requires srcs != []
  {
    if |srcs| == 1 then Open(since, srcs[0]) else Poll(Follow(since, srcs[..|srcs| - 1]), srcs[|srcs| - 1])
  }

  /** The client's cursor: the offset of the last log event, if any. */
  function ClientCursor(since: int, events: seq<LogEvent>): int {
    if events == [] then since
    else if events[|events| - 1].Log? then events[|events| - 1].next
    else ClientCursor(since, events[..|events| - 1])
  }

  /** What the client paints. */
  function Painted(events: seq<LogEvent>): seq<Chunk> {
    if events == [] then []
    else
      var e := events[|events| - 1];
      Painted(events[..|events| - 1])
      + if e.Log? && e.chunk != [] then [Chunk(e.next - |e.chunk|, e.chunk)] else []
  }

  /** Where the stream begins: the presented cursor, or the start of what the first read gave. */
  function From(since: int, s: Source): int {
    if since >= 0 then since
    else
      var a := FirstRead(since, s);
      if a.Failed? then 0 else a.next - |a.body|
  }

  /** Offsets in [lo, hi) had all been evicted. */
  ghost predicate AllEvicted(lo: int, hi: int, srcs: seq<Source>) {
    forall k | lo <= k < hi :: EvictedAt(k, srcs)
  }

  ghost predicate Truthful(t: LogStream, since: int, from: nat, srcs: seq<Source>, now: Ring) {
    var chunks := Painted(t.events);
    && Faithful(from, chunks, srcs, now)
    && (t.live ==> t.events != [])
    && (t.events != [] ==>
          && t.cursor == ClientCursor(since, t.events)
          && from <= Reached(from, chunks, |chunks|) <= t.cursor
          && AllEvicted(Reached(from, chunks, |chunks|), t.cursor, srcs))
  }

  lemma EventsSnoc(since: int, events: seq<LogEvent>, e: LogEvent)
    ensures ClientCursor(since, events + [e]) == if e.Log? then e.next else ClientCursor(since, events)
    ensures Painted(events + [e])
         == Painted(events) + if e.Log? && e.chunk != [] then [Chunk(e.next - |e.chunk|, e.chunk)] else []
  {
    assert (events + [e])[..|events|] == events;
  }

  lemma GapSnoc(from: nat, chunks: seq<Chunk>, srcs: seq<Source>, c: Chunk)
    requires GapsEvicted(from, chunks, srcs)
    requires AllEvicted(Reached(from, chunks, |chunks|), c.start, srcs)
    ensures GapsEvicted(from, chunks + [c], srcs)
  {
    var cs := chunks + [c];
    forall i, k | 0 <= i < |cs| && Reached(from, cs, i) <= k < cs[i].start
      ensures EvictedAt(k, srcs)
    {
      assert Reached(from, cs, i) == Reached(from, chunks, i);
    }
  }

  lemma FaithfulSnoc(from: nat, chunks: seq<Chunk>, srcs: seq<Source>, now: Ring, c: Chunk)
    requires Faithful(from, chunks, srcs, now) && IsSlice(c, now)
    requires Reached(from, chunks, |chunks|) <= c.start
    requires AllEvicted(Reached(from, chunks, |chunks|), c.start, srcs)
    ensures Faithful(from, chunks + [c], srcs, now)
  {
    ForwardSnoc(from, chunks, c);
    GapSnoc(from, chunks, srcs, c);
  }

  ghost predicate AnswerOk(a: Answer, from: int, s: Source, now: Ring)
    requires a.Answer?
  {
    && 0 <= from <= a.next - |a.body|
    && AllEvicted(from, a.next - |a.body|, [s])
    && (a.body != [] ==> IsSlice(Chunk(a.next - |a.body|, a.body), now))
  }

  lemma CursorAnswer(since: nat, s: Source, now: Ring)
    requires Evolves(s.ring, now) && ManagerReadSince(s, since, CHUNK).Answer?
    ensures AnswerOk(ManagerReadSince(s, since, CHUNK), since, s, now)
  {
    EvictedGrows([], s);
    assert [] + [s] == [s];
    var a := ManagerReadSince(s, since, CHUNK);
    if a.body != [] {
      var _ := ReadChunk(s, since, a, now);
    } else if s.running {
      ReadSinceContract(s.ring, since, CHUNK);
    }
  }

  /** The first read answers with bytes that start where the stream begins or, from a cursor
      that was overtaken, at the oldest byte held. */
  lemma FirstAnswer(since: int, s: Source, now: Ring)
    requires Evolves(s.ring, now) && FirstRead(since, s).Answer?
    ensures AnswerOk(FirstRead(since, s), From(since, s), s, now)
  {
    if since >= 0 {
      CursorAnswer(since, s, now);
    } else if s.running {
      ManagerTailExact(s, CHUNK);
    }
  }

  lemma OneEventTruthful(since: int, from: nat, body: seq<byte>, next: int, srcs: seq<Source>, now: Ring)
    requires from <= next - |body| && AllEvicted(from, next - |body|, srcs)
    requires body != [] ==> IsSlice(Chunk(next - |body|, body), now)
    ensures Truthful(LogStream(true, next, [Log(body, next)]), since, from, srcs, now)
  {
    var events := [Log(body, next)];
    EventsSnoc(since, [], events[0]);
    assert [] + [events[0]] == events;
    assert Faithful(from, [], srcs, now);
    if body != [] {
      var c := Chunk(next - |body|, body);
      FaithfulSnoc(from, [], srcs, now, c);
      assert Painted(events) == [] + [c];
    }
  }

  lemma OpenTruthful(since: int, s: Source, now: Ring)
    requires Evolves(s.ring, now)
    ensures 0 <= From(since, s)
    ensures Truthful(Open(since, s), since, From(since, s), [s], now)
  {
    var a := FirstRead(since, s);
    if a.Answer? {
      FirstAnswer(since, s, now);
      OneEventTruthful(since, From(since, s), a.body, a.next, [s], now);
    } else {
      assert Faithful(From(since, s), [], [s], now);
    }
  }

  lemma ChunkTruthful(t: LogStream, since: int, from: nat, srcs: seq<Source>, now: Ring, c: Chunk)
    requires Truthful(t, since, from, srcs, now) && t.live && c.data != [] && IsSlice(c, now)
    requires t.cursor <= c.start && AllEvicted(t.cursor, c.start, srcs)
    ensures Truthful(LogStream(true, c.End(), t.events + [Log(c.data, c.End())]), since, from, srcs, now)
  {
    EventsSnoc(since, t.events, Log(c.data, c.End()));
    var chunks := Painted(t.events);
    FaithfulSnoc(from, chunks, srcs, now, c);
    assert Painted(t.events + [Log(c.data, c.End())]) == chunks + [c];
  }

  lemma LaterTruthful(t: LogStream, since: int, from: nat, srcs: seq<Source>, s: Source, now: Ring)
    requires Truthful(t, since, from, srcs, now)
    ensures Truthful(t, since, from, srcs + [s], now)
  {
    EvictedGrows(srcs, s);
    FaithfulGrows(from, Painted(t.events), srcs, s, now);
  }

  lemma PingTruthful(t: LogStream, since: int, from: nat, srcs: seq<Source>, now: Ring)
    requires Truthful(t, since, from, srcs, now) && t.live
    ensures Truthful(t.(events := t.events + [Ping]), since, from, srcs, now)
  {
    EventsSnoc(since, t.events, Ping);
  }

  lemma PollChunk(t: LogStream, srcs: seq<Source>, s: Source, now: Ring) returns (c: Chunk)
    requires t.live && 0 <= t.cursor && Evolves(s.ring, now)
    requires var a := ManagerReadSince(s, t.cursor, CHUNK); a.Answer? && a.body != []
    ensures Poll(t, s) == LogStream(true, c.End(), t.events + [Log(c.data, c.End())])
    ensures c.data != [] && IsSlice(c, now) && t.cursor <= c.start && AllEvicted(t.cursor, c.start, srcs + [s])
  {
    c := ReadChunk(s, t.cursor, ManagerReadSince(s, t.cursor, CHUNK), now);
    EvictedGrows(srcs, s);
  }

  lemma PollTruthful(t: LogStream, since: int, from: nat, srcs: seq<Source>, s: Source, now: Ring)
    requires Truthful(t, since, from, srcs, now) && Evolves(s.ring, now)
    ensures Truthful(Poll(t, s), since, from, srcs + [s], now)
  {
    LaterTruthful(t, since, from, srcs, s, now);
    if t.live {
      var a := ManagerReadSince(s, t.cursor, CHUNK);
      if a.Answer? && a.body != [] {
        var c := PollChunk(t, srcs, s, now);
        ChunkTruthful(t, since, from, srcs + [s], now, c);
      } else if a.Answer? {
        PingTruthful(t, since, from, srcs + [s], now);
      }
    }
  }

  lemma {:induction false} FollowTruthful(since: int, srcs: seq<Source>, now: Ring)
    requires srcs != [] && Timeline(srcs, now)
    ensures 0 <= From(since, srcs[0])
    ensures Truthful(Follow(since, srcs), since, From(since, srcs[0]), srcs, now)
    decreases |srcs|
  {
    var past, s := srcs[..|srcs| - 1], srcs[|srcs| - 1];
    assert past + [s] == srcs;
    if |srcs| == 1 {
      OpenTruthful(since, s, now);
      assert srcs == [s];
    } else {
      FollowTruthful(since, past, now);
      PollTruthful(Follow(since, past), since, From(since, srcs[0]), past, s, now);
    }
  }

  /** Whatever happens between polls, and wherever the stream ends: everything painted is a
      history slice, in order and without repeats, and every offset between the stream's start
      and the client's cursor was painted or had been evicted at one of the reads. */
  lemma LogSkipsNothingLive(since: int, srcs: seq<Source>, now: Ring, k: int)
    requires srcs != [] && Timeline(srcs, now)
    requires From(since, srcs[0]) <= k < ClientCursor(since, Follow(since, srcs).events)
    ensures var chunks := Painted(Follow(since, srcs).events);
            && Slices(chunks, now) && Forward(From(since, srcs[0]), chunks)
            && (SentIn(k, chunks, |chunks|) || EvictedAt(k, srcs))
  {
    FollowTruthful(since, srcs, now);
    var t := Follow(since, srcs);
    var from, chunks := From(since, srcs[0]), Painted(t.events);
    if k < Reached(from, chunks, |chunks|) {
      CoveredUpTo(from, chunks, srcs, |chunks|, k);
    }
  }

  ghost predicate AllFrom(since: nat, chunks: seq<Chunk>) {
    forall i | 0 <= i < |chunks| :: since <= chunks[i].start
  }

  lemma AllFromSnoc(since: nat, chunks: seq<Chunk>, c: Chunk)
    requires AllFrom(since, chunks) && since <= c.start
    ensures AllFrom(since, chunks + [c])
  {
  }

  /** A stream that never goes back before the cursor it was given. */
  ghost predicate NotBefore(since: nat, t: LogStream) {
    (t.live ==> since <= t.cursor) && AllFrom(since, Painted(t.events))
  }

  lemma NotBeforeLog(since: nat, events: seq<LogEvent>, body: seq<byte>, next: int)
    requires AllFrom(since, Painted(events)) && since <= next - |body|
    ensures NotBefore(since, LogStream(true, next, events + [Log(body, next)]))
  {
    var chunks := Painted(events);
    EventsSnoc(since, events, Log(body, next));
    if body != [] {
      AllFromSnoc(since, chunks, Chunk(next - |body|, body));
    }
  }

  lemma {:induction false} FollowNotBefore(since: nat, srcs: seq<Source>)
    requires srcs != []
    ensures NotBefore(since, Follow(since, srcs))
    decreases |srcs|
  {
    if |srcs| == 1 {
      var a := FirstRead(since, srcs[0]);
      if a.Answer? {
        FirstAnswer(since, srcs[0], srcs[0].ring);
        NotBeforeLog(since, [], a.body, a.next);
        assert [] + [Log(a.body, a.next)] == Open(since, srcs[0]).events;
      }
    } else {
      var past, s := srcs[..|srcs| - 1], srcs[|srcs| - 1];
      FollowNotBefore(since, past);
      PollNotBefore(since, Follow(since, past), s);
    }
  }

  lemma PollNotBefore(since: nat, t: LogStream, s: Source)
    requires NotBefore(since, t)
    ensures NotBefore(since, Poll(t, s))
  {
    if t.live {
      var a := ManagerReadSince(s, t.cursor, CHUNK);
      if a.Answer? && a.body != [] {
        var c := ReadChunk(s, t.cursor, a, s.ring);
        NotBeforeLog(since, t.events, a.body, a.next);
      } else {
        EventsSnoc(since, t.events, Ping);
      }
    }
  }

  /** Nothing below the cursor the client presented is ever painted. */
  lemma StaleCursorSilent(since: nat, srcs: seq<Source>, k: int)
    requires srcs != [] && k < since
    ensures var chunks := Painted(Follow(since, srcs).events); !SentIn(k, chunks, |chunks|)
  {
    FollowNotBefore(since, srcs);
  }

  // ---- a cursor beyond the head ----

  ghost predicate Alive(srcs: seq<Source>) {
    forall i | 0 <= i < |srcs| :: srcs[i].running && srcs[i].known
  }

  /** Snapshots of a live instance, the first of them `s0`. */
  ghost predicate Continues(s0: Source, srcs: seq<Source>) {
    srcs != [] && srcs[0] == s0 && Alive(srcs) && Timeline(srcs, srcs[|srcs| - 1].ring)
  }

  /** A read of an open ring is empty exactly when the cursor is at or beyond the head. */
  lemma EmptyRead(r: Ring, since: nat)
    requires !r.closed && r.cap > 0
    ensures r.ReadSince(since, CHUNK).body == [] <==> r.Head() <= since
    ensures r.Head() <= since ==> r.ReadSince(since, CHUNK).next == since
  {
    ReadSinceContract(r, since, CHUNK);
  }

  lemma {:induction false} Silence(since: nat, srcs: seq<Source>)
    requires srcs != [] && Continues(srcs[0], srcs)
    requires var last := srcs[|srcs| - 1].ring; !last.closed && last.cap > 0
    ensures var t := Follow(since, srcs);
            && (Painted(t.events) == [] <==> srcs[|srcs| - 1].ring.Head() <= since)
            && t.live && (Painted(t.events) == [] ==> t.cursor == since)
    decreases |srcs|
  {
    var past, s := srcs[..|srcs| - 1], srcs[|srcs| - 1];
    EmptyRead(s.ring, since);
    if past == [] {
      var a := FirstRead(since, s);
      EventsSnoc(since, [], Log(a.body, a.next));
      assert [] + [Log(a.body, a.next)] == Open(since, s).events;
    } else {
      var p := past[|past| - 1];
      assert Evolves(p.ring, s.ring);
      assert Timeline(past, p.ring);
      Silence(since, past);
      SilencePoll(Follow(since, past), since, s);
    }
  }

  lemma SilencePoll(t: LogStream, since: nat, s: Source)
    requires t.live && s.running && s.known && !s.ring.closed && s.ring.cap > 0
    requires Painted(t.events) == [] ==> t.cursor == since
    ensures var u := Poll(t, s);
            && u.live && (Painted(u.events) == [] <==> Painted(t.events) == [] && s.ring.Head() <= since)
            && (Painted(u.events) == [] ==> u.cursor == since)
  {
    EmptyRead(s.ring, since);
    var a := ManagerReadSince(s, t.cursor, CHUNK);
    EventsSnoc(since, t.events, Ping);
    EventsSnoc(since, t.events, Log(a.body, a.next));
  }

  /** While the instance is alive and its ring open, the stream has painted nothing exactly as
      long as the ring has not grown past the presented cursor. */
  lemma SilentIff(since: nat, srcs: seq<Source>)
    requires srcs != [] && Continues(srcs[0], srcs)
    requires var last := srcs[|srcs| - 1].ring; !last.closed && last.cap > 0
    ensures Painted(Follow(since, srcs).events) == [] <==> srcs[|srcs| - 1].ring.Head() <= since
  {
    Silence(since, srcs);
  }

  /** A stream given cursor 5 over an empty ring: three bytes are written, none is painted, and
      the ring still holds them all. */
  lemma StaleCursorRun()
    ensures var r0, r1 := Ring(16, [], false), Ring(16, [65, 66, 67], false);
            var srcs := [Source(r0, true, true), Source(r1, true, true)];
            && Continues(srcs[0], srcs)
            && Painted(Follow(5, srcs).events) == [] && r1.Oldest() == 0 && Follow(5, srcs).live
  {
    var r0, r1 := Ring(16, [], false), Ring(16, [65, 66, 67], false);
    Silence(5, [Source(r0, true, true), Source(r1, true, true)]);
  }

  /** Everything written since the stream was opened, up to its cursor, was painted or had been
      evicted at one of its reads. */
  ghost predicate Complete(since: nat, srcs: seq<Source>)
    requires srcs != []
  {
    var t := Follow(since, srcs);
    forall k | srcs[0].ring.Head() <= k < Min(t.cursor, srcs[|srcs| - 1].ring.Head()) ::
      SentIn(k, Painted(t.events), |Painted(t.events)|) || EvictedAt(k, srcs)
  }

  lemma {:induction false} AliveCursor(since: int, srcs: seq<Source>)
    requires srcs != [] && Alive(srcs)
    ensures var t := Follow(since, srcs); t.live && t.events != [] && t.cursor == ClientCursor(since, t.events)
    decreases |srcs|
  {
    if |srcs| > 1 {
      var t, s := Follow(since, srcs[..|srcs| - 1]), srcs[|srcs| - 1];
      AliveCursor(since, srcs[..|srcs| - 1]);
      var a := ManagerReadSince(s, t.cursor, CHUNK);
      EventsSnoc(since, t.events, Ping);
      EventsSnoc(since, t.events, Log(a.body, a.next));
    }
  }

  lemma CompleteFrom(since: nat, srcs: seq<Source>)
    requires srcs != [] && Continues(srcs[0], srcs)
    requires var r := srcs[0].ring; since <= r.Head() || r.closed || r.cap <= 0
    ensures Complete(since, srcs)
  {
    var t, last := Follow(since, srcs), srcs[|srcs| - 1].ring;
    AliveCursor(since, srcs);
    forall k | srcs[0].ring.Head() <= k < Min(t.cursor, last.Head())
      ensures SentIn(k, Painted(t.events), |Painted(t.events)|) || EvictedAt(k, srcs)
    {
      assert Evolves(srcs[0].ring, last);
      if since <= srcs[0].ring.Head() {
        LogSkipsNothingLive(since, srcs, last, k);
      } else {
        assert last.cap <= 0 && k < last.Oldest();
      }
    }
  }

  /** The first byte written after such a stream was opened is not painted. */
  lemma OneByteMissed(since: nat, s0: Source) returns (srcs: seq<Source>)
    requires s0.running && s0.known && s0.ring.Head() < since && !s0.ring.closed && s0.ring.cap > 0
    ensures Continues(s0, srcs) && !Complete(since, srcs)
  {
    var s1 := Source(s0.ring.Append([0]), true, true);
    srcs := [s0, s1];
    assert Evolves(s0.ring, s1.ring);
    var k := s0.ring.Head();
    StaleCursorSilent(since, srcs, k);
    Silence(since, srcs);
    assert !EvictedAt(k, srcs) by {
      assert s0.ring.Oldest() <= k && s1.ring.Oldest() <= k;
    }
  }

  /** Unlike the terminal replay, the stream does not look at the head when its first read is
      empty. A stream opened on a live instance misses nothing that is written afterwards,
      whatever happens, exactly when its cursor is not beyond the head (or when nothing will
      ever be held: the ring is closed, or has no room). */
  lemma StreamCompleteIff(since: nat, s0: Source)
    requires s0.running && s0.known
    ensures (forall srcs: seq<Source> | Continues(s0, srcs) :: Complete(since, srcs))
            <==> since <= s0.ring.Head() || s0.ring.closed || s0.ring.cap <= 0
  {
    if since <= s0.ring.Head() || s0.ring.closed || s0.ring.cap <= 0 {
      forall srcs: seq<Source> | Continues(s0, srcs)
        ensures Complete(since, srcs)
      {
        CompleteFrom(since, srcs);
      }
    } else {
      var srcs := OneByteMissed(since, s0);
    }
  }

  // ---- what each read gives ----

  /** The two modes without a cursor: -1 starts with the newest bytes held, at most one chunk of
      them, and -2 with nothing; both publish the head. */
  lemma OpenCursorless(since: int, s: Source)
    requires since < 0 && s.running && s.known
    ensures var head, n := s.ring.Head(), Min(CHUNK, s.ring.Used());
            var body := if since == FOLLOW_LIVE_END then [] else s.ring.hist[head - n..];
            Open(since, s) == LogStream(true, head, [Log(body, head)])
  {
    ManagerTailExact(s, CHUNK);
  }

  /** An instance that is not running is an empty log: at the cursor, or at 0 without one. */
  lemma OpenAbsent(since: int, s: Source)
    requires !s.running
    ensures Open(since, s) == LogStream(true, Max(since, 0), [Log([], Max(since, 0))])
  {
  }

  /** The read of an instance that is running but of no known kind fails. */
  predicate Fails(s: Source) { s.running && !s.known }

  /** Every read before the first failed one gives the client exactly one event, and the failed
      one ends the stream. */
  ghost predicate OneEventEach(t: LogStream, srcs: seq<Source>) {
    if t.live then |t.events| == |srcs| && forall i | 0 <= i < |srcs| :: !Fails(srcs[i])
    else |t.events| < |srcs| && Fails(srcs[|t.events|]) && forall i | 0 <= i < |t.events| :: !Fails(srcs[i])
  }

  lemma {:induction false} OneEventPerRead(since: int, srcs: seq<Source>)
    requires srcs != []
    ensures OneEventEach(Follow(since, srcs), srcs)
    decreases |srcs|
  {
    if |srcs| > 1 {
      OneEventPerRead(since, srcs[..|srcs| - 1]);
    }
  }

  /** Where `n` reads of one chunk each get to. */
  function Upto(s: Source, c: nat, n: nat): nat { Min(c + n * CHUNK, s.ring.Head()) }

  lemma PaintedMore(c: nat, events: seq<LogEvent>, body: seq<byte>, next: int)
    requires body != []
    ensures Payload(Painted(events + [Log(body, next)])) == Payload(Painted(events)) + body
    ensures Painted(events + [Ping]) == Painted(events)
  {
    EventsSnoc(c, events, Log(body, next));
    EventsSnoc(c, events, Ping);
    PayloadSnoc(Painted(events), Chunk(next - |body|, body));
    assert Painted(events) + [] == Painted(events);
  }

  lemma QuietPoll(t: LogStream, s: Source, c: nat, n: nat)
    requires Quiet(s, c) && t.live && t.cursor == Upto(s, c, n)
    requires Payload(Painted(t.events)) == s.ring.hist[c..t.cursor]
    ensures var u := Poll(t, s);
            && u.live && u.cursor == Upto(s, c, n + 1)
            && Payload(Painted(u.events)) == s.ring.hist[c..u.cursor]
  {
    QuietRead(s, c, t.cursor);
    var stop := Upto(s, c, n + 1);
    assert stop == Min(t.cursor + CHUNK, s.ring.Head());
    if t.cursor < stop {
      PaintedMore(c, t.events, s.ring.hist[t.cursor..stop], stop);
      SliceJoin(s.ring.hist, c, t.cursor, stop);
    } else {
      assert s.ring.hist[t.cursor..stop] == [];
      PaintedMore(c, t.events, [0], 0);
    }
  }

  lemma PaintedFirst(c: nat, body: seq<byte>, next: int)
    ensures Payload(Painted([Log(body, next)])) == body
  {
    EventsSnoc(c, [], Log(body, next));
    assert [] + [Log(body, next)] == [Log(body, next)];
    if body != [] {
      PayloadSnoc([], Chunk(next - |body|, body));
      assert [] + [Chunk(next - |body|, body)] == [Chunk(next - |body|, body)];
      assert [] + body == body;
    }
  }

  lemma QuietOpen(s: Source, c: nat)
    requires Quiet(s, c)
    ensures var t := Open(c, s);
            && t.live && t.cursor == Upto(s, c, 1)
            && Payload(Painted(t.events)) == s.ring.hist[c..t.cursor]
  {
    QuietRead(s, c, c);
    PaintedFirst(c, s.ring.hist[c..Upto(s, c, 1)], Upto(s, c, 1));
  }

  /** Over a ring nobody writes to, `n` reads have painted exactly the next `n` chunks of it, or
      all there is: nothing is left out, nothing repeated, and the stream catches up. */
  lemma {:induction false} LogConverges(s: Source, c: nat, n: nat)
    requires Quiet(s, c) && n > 0
    ensures var t := Follow(c, Repeat(s, n));
            && t.live && t.cursor == Upto(s, c, n)
            && Payload(Painted(t.events)) == s.ring.hist[c..Upto(s, c, n)]
  {
    if n == 1 {
      QuietOpen(s, c);
    } else {
      assert Repeat(s, n)[..n - 1] == Repeat(s, n - 1);
      LogConverges(s, c, n - 1);
      QuietPoll(Follow(c, Repeat(s, n - 1)), s, c, n - 1);
    }
  }

  // ---- the handler's loop ----

  lemma {:induction false} EventsGrow(since: int, srcs: seq<Source>, i: nat)
    requires 0 < i <= |srcs|
    ensures Follow(since, srcs[..i]).events <= Follow(since, srcs).events
    ensures !Follow(since, srcs[..i]).live ==> Follow(since, srcs) == Follow(since, srcs[..i])
    decreases |srcs|
  {
    if i == |srcs| {
      assert srcs[..i] == srcs;
    } else {
      var past := srcs[..|srcs| - 1];
      assert past[..i] == srcs[..i];
      EventsGrow(since, past, i);
    }
  }

  /** The read of one tick, after the snapshots before `i`. */
  method Tick(since: int, srcs: seq<Source>, i: nat, cursor: int, ghost events: seq<LogEvent>) returns (a: Answer)
    requires 0 < i < |srcs| && Follow(since, srcs[..i]) == LogStream(true, cursor, events)
    ensures a.Failed? ==> Follow(since, srcs[..i + 1]) == LogStream(false, cursor, events)
    ensures a.Answer? && a.body == [] ==> Follow(since, srcs[..i + 1]) == LogStream(true, cursor, events + [Ping])
    ensures a.Answer? && a.body != [] ==>
              Follow(since, srcs[..i + 1]) == LogStream(true, a.next, events + [Log(a.body, a.next)])
  {
    assert srcs[..i + 1][..i] == srcs[..i];
    a := ManagerReadSince(srcs[i], cursor, CHUNK);
  }

  lemma PrefixGrows<T>(a: seq<T>, b: seq<T>, n: nat)
    requires a <= b && |a| >= n
    ensures Prefix(a, n) == Prefix(b, n)
  {
  }

  /** One tick per further snapshot; the client accepts `accepts` events and no more. A failed
      ping is ignored, a failed log event ends the stream. */
  method Serve(since: int, srcs: seq<Source>, accepts: nat) returns (sent: seq<LogEvent>)
    requires srcs != []
    ensures sent == Prefix(Follow(since, srcs).events, accepts)
  {
    sent := [];
    var first := FirstRead(since, srcs[0]);
    assert srcs[..1] == [srcs[0]];
    EventsGrow(since, srcs, 1);
    if first.Failed? || accepts == 0 {
      return;
    }
    sent := [Log(first.body, first.next)];
    var cursor := first.next;
    ghost var events := sent;
    for i := 1 to |srcs|
      invariant Follow(since, srcs[..i]) == LogStream(true, cursor, events)
      invariant sent == Prefix(events, accepts)
    {
      EventsGrow(since, srcs, i + 1);
      var a := Tick(since, srcs, i, cursor, events);
      if a.Failed? {
        assert Follow(since, srcs).events == events;
        return;
      }
      var e := if a.body == [] then Ping else Log(a.body, a.next);
      if |sent| < accepts {
        sent := sent + [e];
      } else {
        PrefixGrows(events, events + [e], accepts);
        if e.Log? {
          PrefixGrows(events + [e], Follow(since, srcs).events, accepts);
          return;
        }
      }
      cursor := if e.Log? then a.next else cursor;
      events := events + [e];
    }
    assert srcs[..|srcs|] == srcs;
  }
}
