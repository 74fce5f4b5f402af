/** The terminal replay a WebSocket handshake performs before going live
    (completeHandshake in internal/app/app.go).

    The loop is modelled access by access: every ReadSince, Tail or EndOffset the handshake
    issues sees one snapshot of the instance, and between two accesses the output writer and
    the framework may do anything a ring allows. A whole handshake is therefore a fold over
    the snapshots its accesses saw, and the theorems quantify over all such sequences. */
module Replays {
  import opened RingBuffers

  const CHUNK: nat := 65536
  const BUDGET: nat := 8388608
  const FOLLOW_LIVE_END: int := -2

  /** What the framework manager can see of one instance: its ring, whether the id is in the
      running map, and whether its kind is registered. */
  datatype Source = Source(ring: Ring, running: bool, known: bool)

  datatype Answer = Answer(body: seq<byte>, next: int) | Failed

  /** Manager.Tail through the PTY driver's ReadLogs. */
  function ManagerTail(s: Source, n: int): Answer {
    if !s.running then Answer([], 0)
    else if !s.known then Failed
    else
      var t := s.ring.Tail(if n <= 0 then 4096 else n);
      Answer(t.body, Max(Max(t.next, 0), |t.body|))
  }

  function ManagerEndOffset(s: Source): Answer {
    if !s.running then Answer([], 0)
    else if !s.known then Failed
    else Answer([], Max(s.ring.Tail(0).next, 0))
  }

  function ManagerReadSince(s: Source, since: int, maxBytes: nat): Answer {
    if !s.running then Answer([], Max(since, 0))
    else if !s.known then Failed
    else
      var rd := s.ring.ReadSince(Max(since, 0), maxBytes);
      Answer(rd.body, rd.next)
  }

  /** The tail cursor's lower clamp in Manager.Tail never fires for a ring buffer: the answer
      is the ring's own head, and the bytes are the ones that end there. */
  lemma ManagerTailExact(s: Source, n: int)
    requires s.running && s.known
    ensures var a := ManagerTail(s, n);
            && a.Answer? && a.next == s.ring.Head()
            && a.body == s.ring.hist[a.next - |a.body|..a.next]
            && |a.body| == Min(if n > 0 then n else 4096, s.ring.Used())
  {
  }

  /** Frames the browser sees. `Sync` is the JSON text frame {"type":"sync","offset":...}. */
  datatype Frame = Binary(data: seq<byte>) | Sync(offset: int, start: bool) | Close1013

  /** One replayed chunk and the absolute offset it was read from. */
  datatype Chunk = Chunk(start: int, data: seq<byte>) {
    function End(): int { start + |data| }
  }

  datatype Phase = Following | Tailing | Reading | Consulting | Done(endOffset: int) | Refused

  /** The handshake's local variables between two accesses. `chunks` is the history of what
      `frames` carries, kept for the specification. */
  datatype Replay = Replay(phase: Phase, syncCap: bool, cursor: int, first: bool, streamed: nat,
                           startPublished: bool, frames: seq<Frame>, chunks: seq<Chunk>)
  {
    predicate Active() { !phase.Done? && !phase.Refused? }

    /** Everything this handshake puts on the socket, closing frame included. */
    function Wire(): seq<Frame> {
      match phase
      case Done(end) => frames + if syncCap then [Sync(end, false)] else []
      case Refused => frames + [Close1013]
      case _ => frames
    }
  }

  /** The frames that put one chunk on the socket, its start announced first on request. */
  function ChunkFrames(announce: bool, body: seq<byte>, next: int): seq<Frame> {
    if announce then [Sync(next - |body|, true), Binary(body)] else [Binary(body)]
  }

  function Begin(since: int, syncCap: bool): Replay {
    var phase := if since == FOLLOW_LIVE_END then Following else if since < 0 then Tailing else Reading;
    Replay(phase, syncCap, since, true, 0, false, [], [])
  }

  /** One access and all the code up to the next one. */
  function Access(r: Replay, s: Source): Replay
    requires r.Active()
  {
    match r.phase
    case Following =>
      var a := ManagerEndOffset(s);
      if a.Failed? then r.(phase := Refused) else r.(phase := Done(a.next))
    case Tailing => AccessFirstTail(r, ManagerTail(s, CHUNK))
    case Reading => AccessRead(r, ManagerReadSince(s, r.cursor, CHUNK))
    case Consulting => AccessTail(r, ManagerTail(s, CHUNK))
  }

  /** No cursor: replay the newest bytes, unannounced. */
  function AccessFirstTail(r: Replay, a: Answer): Replay {
    if a.Failed? then r.(phase := Refused)
    else if a.body == [] then r.(phase := Done(a.next))
    else
      Replay(Done(a.next), r.syncCap, r.cursor, r.first, r.streamed, r.startPublished,
             r.frames + [Binary(a.body)], r.chunks + [Chunk(a.next - |a.body|, a.body)])
  }

  /** One turn of the catch-up loop, up to the next access. The budget guard sits at the loop
      head, so a chunk that exhausts the budget ends the replay. */
  function AccessRead(r: Replay, a: Answer): Replay {
    if a.Failed? then r.(phase := Refused)
    else if a.body == [] then
      if r.first then r.(phase := Consulting) else r.(phase := Done(a.next))
    else
      var streamed := r.streamed + |a.body|;
      var stuck := a.next <= r.cursor;
      Replay(if stuck || streamed >= BUDGET then Done(a.next) else Reading,
             r.syncCap, if stuck then r.cursor else a.next, stuck && r.first, streamed, true,
             r.frames + ChunkFrames(!r.startPublished && r.syncCap, a.body, a.next),
             r.chunks + [Chunk(a.next - |a.body|, a.body)])
  }

  /** The one-shot head consult after an empty first read. */
  function AccessTail(r: Replay, a: Answer): Replay {
    if a.Failed? then r.(phase := Refused)
    else if r.cursor > a.next then
      if a.body == [] then r.(phase := Done(a.next))
      else
        Replay(Done(a.next), r.syncCap, r.cursor, r.first, r.streamed, r.startPublished,
               r.frames + ChunkFrames(r.syncCap, a.body, a.next),
               r.chunks + [Chunk(a.next - |a.body|, a.body)])
    else if a.next > r.cursor then r.(phase := Reading, first := false)
    else r.(phase := Done(a.next))
  }

  /** The handshake after its accesses have seen `srcs`, in order. */
  function Drive(r: Replay, srcs: seq<Source>): Replay {
    if srcs == [] then r
    else
      var p := Drive(r, srcs[..|srcs| - 1]);
      if p.Active() then Access(p, srcs[|srcs| - 1]) else p
  }

  lemma DriveStep(r: Replay, srcs: seq<Source>, s: Source)
    requires Drive(r, srcs).Active()
    ensures Drive(r, srcs + [s]) == Access(Drive(r, srcs), s)
  {
    assert (srcs + [s])[..|srcs|] == srcs;
  }

  /** Snapshots of one instance in the order they were taken, ending before `now`. */
  ghost predicate Timeline(srcs: seq<Source>, now: Ring) {
    && (forall i, j | 0 <= i < j < |srcs| :: Evolves(srcs[i].ring, srcs[j].ring))
    && (forall i | 0 <= i < |srcs| :: Evolves(srcs[i].ring, now))
  }

  /** Offset `k` was no longer held at one of these accesses (a closed ring holds nothing). */
  ghost predicate EvictedAt(k: int, srcs: seq<Source>) {
    exists j :: 0 <= j < |srcs| && srcs[j].running && k < srcs[j].ring.Oldest()
  }

  /** Offset `k` lies in one of the first `n` chunks. */
  ghost predicate SentIn(k: int, chunks: seq<Chunk>, n: nat)
    requires n <= |chunks|
  {
    exists i :: 0 <= i < n && chunks[i].start <= k < chunks[i].End()
  }

  /** Bytes in the first `n` chunks. */
  function Sum(chunks: seq<Chunk>, n: nat): nat
    requires n <= |chunks|
  {
    if n == 0 then 0 else Sum(chunks, n - 1) + |chunks[n - 1].data|
  }

  /** Where the replay of a cursor `since` has got to after the first `n` chunks. */
  function Reached(since: int, chunks: seq<Chunk>, n: nat): int
    requires n <= |chunks|
  {
    if n == 0 then since else chunks[n - 1].End()
  }

  ghost predicate IsSlice(c: Chunk, now: Ring) {
    0 <= c.start < c.End() <= |now.hist| && c.data == now.hist[c.start..c.End()]
  }

  ghost predicate Slices(chunks: seq<Chunk>, now: Ring) {
    forall i | 0 <= i < |chunks| :: IsSlice(chunks[i], now)
  }

  ghost predicate Forward(since: int, chunks: seq<Chunk>) {
    forall i | 0 <= i < |chunks| :: Reached(since, chunks, i) <= chunks[i].start
  }

  ghost predicate GapsEvicted(since: int, chunks: seq<Chunk>, srcs: seq<Source>) {
    forall i, k | 0 <= i < |chunks| && Reached(since, chunks, i) <= k < chunks[i].start :: EvictedAt(k, srcs)
  }

  /** Each chunk is a history slice and whatever lies between two chunks (or between the
      presented cursor and the first one) was evicted at one of the accesses. */
  ghost predicate Faithful(since: int, chunks: seq<Chunk>, srcs: seq<Source>, now: Ring) {
    Slices(chunks, now) && Forward(since, chunks) && GapsEvicted(since, chunks, srcs)
  }

  /** Start sync, then the chunks: the frames of a catch-up replay. */
  function FramesOf(chunks: seq<Chunk>): seq<Frame> {
    if chunks == [] then []
    else [Sync(chunks[0].start, true)] + seq(|chunks|, i requires 0 <= i < |chunks| => Binary(chunks[i].data))
  }

  /** The presented cursor lies beyond everything ever written: the replay degrades to the
      tail and publishes the real head. */
  ghost predicate BeyondHead(r: Replay, since: int) {
    r.phase.Done? && r.phase.endOffset < since
  }

  ghost predicate Shape(r: Replay, since: nat, now: Ring) {
    && r.syncCap
    && !r.phase.Following? && !r.phase.Tailing?
    && r.frames == FramesOf(r.chunks)
    && since <= r.cursor
    && (r.first ==> r.cursor == since && (r.chunks == [] || BeyondHead(r, since)))
    && (r.phase.Consulting? ==> r.first)
    && (!r.first ==> r.cursor <= |now.hist|)
  }

  ghost predicate Degraded(r: Replay, now: Ring)
    requires r.phase.Done?
  {
    && |r.chunks| <= 1 && r.first
    && (forall i | 0 <= i < |r.chunks| ::
          IsSlice(r.chunks[i], now) && r.chunks[i].End() == r.phase.endOffset && |r.chunks[i].data| <= CHUNK)
    && 0 <= r.phase.endOffset <= |now.hist|
  }

  ghost predicate Counted(r: Replay, since: nat, now: Ring) {
    && r.cursor == Reached(since, r.chunks, |r.chunks|)
    && r.streamed == Sum(r.chunks, |r.chunks|) < BUDGET + CHUNK
    && (r.startPublished <==> r.chunks != [])
    && (r.Active() ==> r.streamed < BUDGET)
    && (r.phase.Done? ==> r.cursor <= r.phase.endOffset <= |now.hist|)
  }

  /** Nothing live lies between the last chunk and the offset published at the end. */
  ghost predicate RestEvicted(r: Replay, srcs: seq<Source>) {
    r.phase.Done? ==> forall k | r.cursor <= k < r.phase.endOffset :: EvictedAt(k, srcs)
  }

  ghost predicate OnTrack(r: Replay, since: nat, srcs: seq<Source>, now: Ring) {
    Faithful(since, r.chunks, srcs, now) && Counted(r, since, now) && RestEvicted(r, srcs)
  }

  /** What holds of a catch-up handshake after any number of accesses. */
  ghost predicate Inv(r: Replay, since: nat, srcs: seq<Source>, now: Ring) {
    && Shape(r, since, now)
    && if BeyondHead(r, since) then Degraded(r, now) else OnTrack(r, since, srcs, now)
  }

  lemma EvictedGrows(srcs: seq<Source>, s: Source)
    ensures forall k | EvictedAt(k, srcs) :: EvictedAt(k, srcs + [s])
    ensures s.running ==> forall k | k < s.ring.Oldest() :: EvictedAt(k, srcs + [s])
  {
    forall k | EvictedAt(k, srcs)
      ensures EvictedAt(k, srcs + [s])
    {
      var j :| 0 <= j < |srcs| && srcs[j].running && k < srcs[j].ring.Oldest();
      assert (srcs + [s])[j] == srcs[j];
    }
    if s.running {
      assert (srcs + [s])[|srcs|] == s;
    }
  }

  lemma FramesSnoc(chunks: seq<Chunk>, c: Chunk)
    ensures FramesOf(chunks + [c]) ==
            FramesOf(chunks) + if chunks == [] then [Sync(c.start, true), Binary(c.data)] else [Binary(c.data)]
  {
    var cs := chunks + [c];
    if chunks != [] {
      assert cs[0] == chunks[0];
    }
  }

  lemma {:induction false} SumSnoc(chunks: seq<Chunk>, c: Chunk, n: nat)
    requires n <= |chunks|
    ensures Sum(chunks + [c], n) == Sum(chunks, n)
    ensures n == |chunks| ==> Sum(chunks + [c], n + 1) == Sum(chunks, n) + |c.data|
  {
    if n > 0 {
      SumSnoc(chunks, c, n - 1);
    }
  }

  lemma ForwardSnoc(since: nat, chunks: seq<Chunk>, c: Chunk)
    requires Forward(since, chunks) && Reached(since, chunks, |chunks|) <= c.start
    ensures Forward(since, chunks + [c])
  {
    var cs := chunks + [c];
    forall i | 0 <= i < |cs|
      ensures Reached(since, cs, i) <= cs[i].start
    {
      assert Reached(since, cs, i) == Reached(since, chunks, i);
    }
  }

  lemma GapsEvictedSnoc(since: nat, chunks: seq<Chunk>, srcs: seq<Source>, s: Source, c: Chunk)
    requires GapsEvicted(since, chunks, srcs)
    requires Reached(since, chunks, |chunks|) == c.start || (s.running && c.start <= s.ring.Oldest())
    ensures GapsEvicted(since, chunks + [c], srcs + [s])
  {
    EvictedGrows(srcs, s);
    var cs := chunks + [c];
    forall i, k | 0 <= i < |cs| && Reached(since, cs, i) <= k < cs[i].start
      ensures EvictedAt(k, srcs + [s])
    {
      assert Reached(since, cs, i) == Reached(since, chunks, i);
      if i < |chunks| {
        assert EvictedAt(k, srcs);
      }
    }
  }

  lemma FaithfulGrows(since: nat, chunks: seq<Chunk>, srcs: seq<Source>, s: Source, now: Ring)
    requires Faithful(since, chunks, srcs, now)
    ensures Faithful(since, chunks, srcs + [s], now)
  {
    EvictedGrows(srcs, s);
  }

  /** A read that answers with bytes hands back a fresh slice at or after the cursor. */
  lemma ReadChunk(s: Source, cursor: nat, a: Answer, now: Ring) returns (c: Chunk)
    requires a == ManagerReadSince(s, cursor, CHUNK) && a.Answer? && a.body != []
    requires Evolves(s.ring, now)
    ensures c == Chunk(a.next - |a.body|, a.body) && c.End() == a.next
    ensures IsSlice(c, now) && |c.data| <= CHUNK
    ensures s.running && c.start == Max(cursor, s.ring.Oldest())
  {
    ReadSinceContract(s.ring, cursor, CHUNK);
    c := Chunk(a.next - |a.body|, a.body);
  }

  lemma SlicesSnoc(chunks: seq<Chunk>, c: Chunk, now: Ring)
    requires Slices(chunks, now) && IsSlice(c, now)
    ensures Slices(chunks + [c], now)
  {
  }

  lemma FaithfulRead(since: nat, chunks: seq<Chunk>, srcs: seq<Source>, s: Source, now: Ring, c: Chunk)
    requires Faithful(since, chunks, srcs, now) && IsSlice(c, now) && s.running
    requires c.start == Max(Reached(since, chunks, |chunks|), s.ring.Oldest())
    ensures Faithful(since, chunks + [c], srcs + [s], now)
  {
    SlicesSnoc(chunks, c, now);
    ForwardSnoc(since, chunks, c);
    GapsEvictedSnoc(since, chunks, srcs, s, c);
  }

  lemma FaithfulChunk(r: Replay, since: nat, srcs: seq<Source>, s: Source, now: Ring, c: Chunk)
    requires Faithful(since, r.chunks, srcs, now) && r.cursor == Reached(since, r.chunks, |r.chunks|)
    requires IsSlice(c, now) && s.running && c.start == Max(r.cursor, s.ring.Oldest())
    ensures Faithful(since, AccessRead(r, Answer(c.data, c.End())).chunks, srcs + [s], now)
  {
    assert AccessRead(r, Answer(c.data, c.End())).chunks == r.chunks + [c];
    FaithfulRead(since, r.chunks, srcs, s, now, c);
  }

  lemma RestAfterChunk(r: Replay, c: Chunk, srcs: seq<Source>)
    requires 0 <= r.cursor <= c.start && c.data != []
    ensures RestEvicted(AccessRead(r, Answer(c.data, c.End())), srcs)
  {
  }

  lemma CountedChunk(r: Replay, since: nat, now: Ring, c: Chunk)
    requires Counted(r, since, now) && r.phase.Reading?
    requires 0 <= r.cursor <= c.start < c.End() <= |now.hist| && |c.data| <= CHUNK
    ensures Counted(AccessRead(r, Answer(c.data, c.End())), since, now)
  {
    SumSnoc(r.chunks, c, |r.chunks|);
  }

  lemma OnTrackChunk(r: Replay, since: nat, srcs: seq<Source>, s: Source, now: Ring, c: Chunk)
    requires OnTrack(r, since, srcs, now) && r.phase.Reading? && 0 <= r.cursor
    requires IsSlice(c, now) && |c.data| <= CHUNK
    requires s.running && c.start == Max(r.cursor, s.ring.Oldest())
    ensures OnTrack(AccessRead(r, Answer(c.data, c.End())), since, srcs + [s], now)
  {
    FaithfulChunk(r, since, srcs, s, now, c);
    CountedChunk(r, since, now, c);
    RestAfterChunk(r, c, srcs + [s]);
  }

  lemma ShapeChunk(r: Replay, since: nat, now: Ring, c: Chunk)
    requires Shape(r, since, now) && r.phase.Reading? && (r.startPublished <==> r.chunks != [])
    requires r.cursor <= c.start < c.End() <= |now.hist|
    ensures Shape(AccessRead(r, Answer(c.data, c.End())), since, now)
  {
    FramesSnoc(r.chunks, c);
  }

  lemma InvReadChunk(r: Replay, since: nat, srcs: seq<Source>, s: Source, now: Ring, c: Chunk)
    requires Inv(r, since, srcs, now) && r.phase.Reading?
    requires IsSlice(c, now) && |c.data| <= CHUNK
    requires s.running && c.start == Max(r.cursor, s.ring.Oldest())
    ensures Inv(AccessRead(r, Answer(c.data, c.End())), since, srcs + [s], now)
  {
    ShapeChunk(r, since, now, c);
    OnTrackChunk(r, since, srcs, s, now, c);
  }

  lemma InvRead(r: Replay, since: nat, srcs: seq<Source>, s: Source, now: Ring)
    requires Inv(r, since, srcs, now) && r.phase.Reading? && Evolves(s.ring, now)
    ensures Inv(Access(r, s), since, srcs + [s], now)
  {
    var a := ManagerReadSince(s, r.cursor, CHUNK);
    if a.Answer? && a.body != [] {
      var c := ReadChunk(s, r.cursor, a, now);
      InvReadChunk(r, since, srcs, s, now, c);
    } else {
      EvictedGrows(srcs, s);
      FaithfulGrows(since, r.chunks, srcs, s, now);
      if a.Answer? && s.running {
        ReadSinceContract(s.ring, r.cursor, CHUNK);
      }
    }
  }

  lemma InvConsult(r: Replay, since: nat, srcs: seq<Source>, s: Source, now: Ring)
    requires Inv(r, since, srcs, now) && r.phase.Consulting? && Evolves(s.ring, now)
    ensures Inv(Access(r, s), since, srcs + [s], now)
  {
    EvictedGrows(srcs, s);
    FaithfulGrows(since, r.chunks, srcs, s, now);
    var a := ManagerTail(s, CHUNK);
    if a.Answer? && a.body != [] {
      FramesSnoc(r.chunks, Chunk(a.next - |a.body|, a.body));
    }
  }

  /** The invariant of every reachable catch-up state, whatever happens between accesses. */
  lemma {:induction false} CatchUpInvariant(since: nat, srcs: seq<Source>, now: Ring)
    requires Timeline(srcs, now)
    ensures Inv(Drive(Begin(since, true), srcs), since, srcs, now)
    decreases |srcs|
  {
    if srcs == [] {
      assert Faithful(since, [], srcs, now);
    } else {
      var past, s := srcs[..|srcs| - 1], srcs[|srcs| - 1];
      assert past + [s] == srcs;
      CatchUpInvariant(since, past, now);
      var p := Drive(Begin(since, true), past);
      if p.phase.Reading? {
        InvRead(p, since, past, s, now);
      } else if p.phase.Consulting? {
        InvConsult(p, since, past, s, now);
      } else {
        EvictedGrows(past, s);
        InvGrows(since, p, past, s, now);
      }
    }
  }

  lemma InvGrows(since: nat, p: Replay, srcs: seq<Source>, s: Source, now: Ring)
    requires Inv(p, since, srcs, now)
    ensures Inv(p, since, srcs + [s], now)
  {
    EvictedGrows(srcs, s);
    if !BeyondHead(p, since) {
      FaithfulGrows(since, p.chunks, srcs, s, now);
    }
  }

  // ---- the client's cursor ----

  /** The browser's cursor: it adopts every sync offset and, once a sync has arrived on this
      connection, adds the length of every binary frame. */
  datatype Client = Client(cursor: int, synced: bool)

  function Receive(c: Client, f: Frame): Client {
    match f
    case Sync(offset, _) => Client(offset, true)
    case Binary(data) => if c.synced then Client(c.cursor + |data|, true) else c
    case Close1013 => c
  }

  function ReceiveAll(c: Client, fs: seq<Frame>): Client {
    if fs == [] then c else Receive(ReceiveAll(c, fs[..|fs| - 1]), fs[|fs| - 1])
  }

  lemma ReceiveSnoc(c: Client, fs: seq<Frame>, f: Frame)
    ensures ReceiveAll(c, fs + [f]) == Receive(ReceiveAll(c, fs), f)
  {
    assert (fs + [f])[..|fs|] == fs;
  }

  /** No eviction overtook the cursor between the reads of the first `n` chunks. */
  ghost predicate Contiguous(chunks: seq<Chunk>, n: nat)
    requires n <= |chunks|
  {
    forall i | 0 < i < n :: chunks[i].start == Reached(0, chunks, i)
  }

  lemma {:induction false} CursorAfterChunks(since: int, chunks: seq<Chunk>, n: nat)
    requires chunks != [] && n <= |chunks|
    ensures ReceiveAll(Client(since, false), FramesOf(chunks)[..n + 1])
            == Client(chunks[0].start + Sum(chunks, n), true)
  {
    var fs := FramesOf(chunks);
    assert fs[..n + 1] == fs[..n] + [fs[n]];
    ReceiveSnoc(Client(since, false), fs[..n], fs[n]);
    if n > 0 {
      CursorAfterChunks(since, chunks, n - 1);
      assert fs[n] == Binary(chunks[n - 1].data);
    }
  }

  /** Adding up lengths from the announced start never passes the end of the last chunk, and
      meets it exactly when no eviction overtook the cursor. */
  lemma {:induction false} SumsBehindEnd(since: nat, chunks: seq<Chunk>, n: nat)
    requires Forward(since, chunks) && 0 < n <= |chunks|
    ensures since <= chunks[0].start
    ensures chunks[0].start + Sum(chunks, n) <= chunks[n - 1].End()
    ensures chunks[0].start + Sum(chunks, n) == chunks[n - 1].End() <==> Contiguous(chunks, n)
  {
    assert Reached(since, chunks, 0) <= chunks[0].start;
    if n == 1 {
      assert Sum(chunks, 0) == 0;
    } else {
      SumsBehindEnd(since, chunks, n - 1);
      assert Reached(since, chunks, n - 1) == Reached(0, chunks, n - 1) == chunks[n - 2].End();
      assert Contiguous(chunks, n) <==> Contiguous(chunks, n - 1) && chunks[n - 1].start == chunks[n - 2].End();
    }
  }

  lemma {:induction false} CoveredUpTo(since: nat, chunks: seq<Chunk>, srcs: seq<Source>, n: nat, k: int)
    requires GapsEvicted(since, chunks, srcs) && n <= |chunks|
    requires since <= k < Reached(since, chunks, n)
    ensures SentIn(k, chunks, n) || EvictedAt(k, srcs)
  {
    if k < Reached(since, chunks, n - 1) {
      CoveredUpTo(since, chunks, srcs, n - 1, k);
    } else if k < chunks[n - 1].start {
      assert EvictedAt(k, srcs);
    }
  }

  function Prefix<T>(s: seq<T>, n: nat): seq<T> { s[..Min(n, |s|)] }

  /** How many chunks are among the first `cut` frames (frame 0 announces the start). */
  function Received(r: Replay, cut: nat): (n: nat)
    ensures n <= |r.chunks|
  {
    Min(|r.chunks|, Max(cut - 1, 0))
  }

  function CursorAfter(since: int, srcs: seq<Source>, cut: nat): int {
    ReceiveAll(Client(since, false), Prefix(Drive(Begin(since, true), srcs).Wire(), cut)).cursor
  }

  lemma CursorInFrames(chunks: seq<Chunk>, since: nat, cut: nat)
    requires cut <= |FramesOf(chunks)|
    ensures ReceiveAll(Client(since, false), FramesOf(chunks)[..cut]).cursor ==
            if cut == 0 || chunks == [] then since else chunks[0].start + Sum(chunks, cut - 1)
  {
    if cut > 0 {
      CursorAfterChunks(since, chunks, cut - 1);
    }
  }

  /** Where a cut leaves the cursor. */
  ghost predicate CutCursor(r: Replay, since: nat, cut: nat, c: int) {
    c == if cut > |r.frames| && r.phase.Done? then r.phase.endOffset
         else if cut == 0 || r.chunks == [] then since
         else r.chunks[0].start + Sum(r.chunks, Received(r, cut))
  }

  lemma WirePrefix(r: Replay, cut: nat)
    requires r.syncCap
    ensures cut <= |r.frames| || r.Active() ==> Prefix(r.Wire(), cut) == r.frames[..Min(cut, |r.frames|)]
    ensures cut > |r.frames| && !r.Active() ==>
              Prefix(r.Wire(), cut) == r.frames + [if r.phase.Done? then Sync(r.phase.endOffset, false) else Close1013]
  {
  }

  lemma CursorOnWire(r: Replay, since: nat, cut: nat)
    requires r.frames == FramesOf(r.chunks) && r.syncCap
    ensures CutCursor(r, since, cut, ReceiveAll(Client(since, false), Prefix(r.Wire(), cut)).cursor)
  {
    var n := Min(cut, |r.frames|);
    WirePrefix(r, cut);
    CursorInFrames(r.chunks, since, n);
    if cut > |r.frames| {
      assert r.frames[..n] == r.frames;
      if !r.Active() {
        var last := if r.phase.Done? then Sync(r.phase.endOffset, false) else Close1013;
        ReceiveSnoc(Client(since, false), r.frames, last);
      }
    }
  }

  /** No live byte is skipped, wherever the connection drops: every offset between the cursor
      the client presented and the cursor it now holds was received on this connection or had
      already been evicted at one of its reads. */
  lemma NoLiveByteSkipped(since: nat, srcs: seq<Source>, now: Ring, cut: nat)
    requires Timeline(srcs, now)
    ensures var r := Drive(Begin(since, true), srcs);
            var c := CursorAfter(since, srcs, cut);
            && 0 <= c <= Max(since, |now.hist|)
            && forall k | since <= k < c :: SentIn(k, r.chunks, Received(r, cut)) || EvictedAt(k, srcs)
  {
    CatchUpInvariant(since, srcs, now);
    var r := Drive(Begin(since, true), srcs);
    CursorOnWire(r, since, cut);
    var c, n := CursorAfter(since, srcs, cut), Received(r, cut);
    if BeyondHead(r, since) {
      assert Sum(r.chunks, 0) == 0;
    } else {
      if r.chunks != [] {
        PrefixBounds(since, r.chunks, now, n);
      }
      forall k | since <= k < c
        ensures SentIn(k, r.chunks, n) || EvictedAt(k, srcs)
      {
        CursorCovered(r, since, srcs, now, cut, c, k);
      }
    }
  }

  lemma PrefixBounds(since: nat, chunks: seq<Chunk>, now: Ring, n: nat)
    requires Forward(since, chunks) && Slices(chunks, now) && chunks != [] && n <= |chunks|
    ensures since <= chunks[0].start + Sum(chunks, n) <= |now.hist|
    ensures n == 0 ==> Sum(chunks, n) == 0
    ensures n > 0 ==> chunks[0].start + Sum(chunks, n) <= Reached(since, chunks, n)
  {
    if n > 0 {
      SumsBehindEnd(since, chunks, n);
      assert IsSlice(chunks[n - 1], now);
    } else {
      assert Reached(since, chunks, 0) <= chunks[0].start;
      assert IsSlice(chunks[0], now);
    }
  }

  lemma CursorCovered(r: Replay, since: nat, srcs: seq<Source>, now: Ring, cut: nat, c: int, k: int)
    requires OnTrack(r, since, srcs, now) && |r.frames| == |FramesOf(r.chunks)|
    requires CutCursor(r, since, cut, c) && since <= k < c
    ensures SentIn(k, r.chunks, Received(r, cut)) || EvictedAt(k, srcs)
  {
    var n := Received(r, cut);
    if r.chunks != [] {
      PrefixBounds(since, r.chunks, now, n);
    }
    if k < Reached(since, r.chunks, n) {
      CoveredUpTo(since, r.chunks, srcs, n, k);
    } else if n == 0 && r.chunks != [] {
      assert Reached(since, r.chunks, 0) <= k < r.chunks[0].start;
    }
  }

  lemma MidReplayCursor(r: Replay, since: nat, cut: nat, c: int)
    requires Forward(since, r.chunks) || (|r.chunks| == 1 && since >= r.chunks[0].End())
    requires CutCursor(r, since, cut, c) && 1 < cut <= |r.frames| && r.chunks != []
    ensures var n := Received(r, cut);
            && c <= r.chunks[n - 1].End()
            && (c == r.chunks[n - 1].End() <==> Contiguous(r.chunks, n))
  {
    var n := Received(r, cut);
    if Forward(since, r.chunks) {
      SumsBehindEnd(since, r.chunks, n);
    } else {
      assert n == 1 && Sum(r.chunks, 0) == 0;
    }
  }

  /** Mid-replay the cursor is at most the end of the last chunk received, with equality
      exactly when no eviction overtook the replay; every chunk is the slice it claims. */
  lemma DropIsSafe(since: nat, srcs: seq<Source>, now: Ring, cut: nat)
    requires Timeline(srcs, now)
    ensures var r := Drive(Begin(since, true), srcs);
            var n := Received(r, cut);
            && Slices(r.chunks, now)
            && (n > 0 && cut <= |r.frames| ==>
                  && CursorAfter(since, srcs, cut) <= r.chunks[n - 1].End()
                  && (CursorAfter(since, srcs, cut) == r.chunks[n - 1].End() <==> Contiguous(r.chunks, n)))
  {
    CatchUpInvariant(since, srcs, now);
    var r := Drive(Begin(since, true), srcs);
    CursorOnWire(r, since, cut);
    if Received(r, cut) > 0 && cut <= |r.frames| {
      MidReplayCursor(r, since, cut, CursorAfter(since, srcs, cut));
    }
  }

  // ---- chains of reconnects ----

  /** One connection of a client that keeps reconnecting: what its accesses saw, and after how
      many frames it dropped. */
  datatype Conn = Conn(srcs: seq<Source>, cut: nat)

  function Chain(since: int, conns: seq<Conn>): int {
    if conns == [] then since
    else
      var last := conns[|conns| - 1];
      CursorAfter(Chain(since, conns[..|conns| - 1]), last.srcs, last.cut)
  }

  /** Offset `k` reached the client, or was evicted, on one of these connections. */
  ghost predicate Settled(k: int, since: int, conns: seq<Conn>) {
    conns != [] &&
    var init, last := conns[..|conns| - 1], conns[|conns| - 1];
    var r := Drive(Begin(Chain(since, init), true), last.srcs);
    || Settled(k, since, init)
    || SentIn(k, r.chunks, Received(r, last.cut))
    || EvictedAt(k, last.srcs)
  }

  /** However many times the connection drops, and wherever, the only offsets the client's
      cursor has passed without receiving them are evicted ones. */
  lemma {:induction false} ChainSkipsNothingLive(since: nat, conns: seq<Conn>, now: Ring)
    requires forall j | 0 <= j < |conns| :: Timeline(conns[j].srcs, now)
    ensures 0 <= Chain(since, conns) <= Max(since, |now.hist|)
    ensures forall k | since <= k < Chain(since, conns) :: Settled(k, since, conns)
    decreases |conns|
  {
    if conns != [] {
      var init, last := conns[..|conns| - 1], conns[|conns| - 1];
      ChainSkipsNothingLive(since, init, now);
      NoLiveByteSkipped(Chain(since, init), last.srcs, now, last.cut);
    }
  }

  // ---- termination and the byte budget ----

  /** Bounds the accesses a handshake can still make. */
  function Rank(r: Replay): nat {
    if !r.Active() then 0
    else Max(BUDGET - r.streamed, 0) +
         (match r.phase case Reading => if r.first then 3 else 1 case _ => 2)
  }

  lemma AccessDecreases(r: Replay, s: Source)
    requires r.Active() && r.streamed < BUDGET
    ensures Rank(Access(r, s)) < Rank(r)
    ensures Access(r, s).Active() ==> Access(r, s).streamed < BUDGET
    ensures Access(r, s).first ==> r.first
    ensures Access(r, s).phase.Consulting? ==> r.first && r.phase.Reading?
    ensures r.phase.Consulting? && Access(r, s).Active() ==> !Access(r, s).first
  {
  }

  lemma {:induction false} RankFalls(since: int, syncCap: bool, srcs: seq<Source>)
    ensures var r := Drive(Begin(since, syncCap), srcs);
            && (r.Active() ==> r.streamed < BUDGET && Rank(r) + |srcs| <= BUDGET + 3)
    decreases |srcs|
  {
    if srcs != [] {
      RankFalls(since, syncCap, srcs[..|srcs| - 1]);
      var p := Drive(Begin(since, syncCap), srcs[..|srcs| - 1]);
      if p.Active() {
        AccessDecreases(p, srcs[|srcs| - 1]);
      }
    }
  }

  /** Whatever the writer does, the handshake is over within BUDGET + 3 accesses and has put
      fewer than BUDGET + CHUNK bytes on the wire. */
  lemma HandshakeTerminates(since: nat, srcs: seq<Source>, now: Ring)
    requires Timeline(srcs, now)
    ensures |srcs| >= BUDGET + 3 ==> !Drive(Begin(since, true), srcs).Active()
    ensures var cs := Drive(Begin(since, true), srcs).chunks; Sum(cs, |cs|) < BUDGET + CHUNK
  {
    RankFalls(since, true, srcs);
    CatchUpInvariant(since, srcs, now);
    var r := Drive(Begin(since, true), srcs);
    if BeyondHead(r, since) && r.chunks != [] {
      assert |r.chunks| == 1 && Sum(r.chunks, 0) == 0 && |r.chunks[0].data| <= CHUNK;
    }
  }

  /** The defensive exit (a body that does not advance the cursor) is unreachable: a chunk
      ends the replay only by exhausting the budget. */
  lemma DefensiveExitUnreachable(since: nat, srcs: seq<Source>, s: Source, now: Ring)
    requires Timeline(srcs, now) && Evolves(s.ring, now)
    requires Drive(Begin(since, true), srcs).phase.Reading?
    ensures var r := Drive(Begin(since, true), srcs);
            var a := ManagerReadSince(s, r.cursor, CHUNK);
            a.Answer? && a.body != [] ==>
              && a.next > r.cursor
              && (Access(r, s).phase.Done? <==> r.streamed + |a.body| >= BUDGET)
  {
    CatchUpInvariant(since, srcs, now);
    var r := Drive(Begin(since, true), srcs);
    var a := ManagerReadSince(s, r.cursor, CHUNK);
    if a.Answer? && a.body != [] {
      var c := ReadChunk(s, r.cursor, a, now);
    }
  }

  /** The two cursorless modes: -1 replays the newest bytes and -2 replays nothing; both
      publish the head the access saw. */
  lemma CursorlessModes(since: int, syncCap: bool, s: Source)
    requires since < 0 && s.running && s.known
    ensures var r := Access(Begin(since, syncCap), s);
            && r.phase == Done(s.ring.Head())
            && (since == FOLLOW_LIVE_END ==> r.frames == [])
            && (since != FOLLOW_LIVE_END ==>
                  var n := Min(CHUNK, s.ring.Used());
                  r.frames == if n == 0 then [] else [Binary(s.ring.hist[s.ring.Head() - n..])])
  {
    ManagerTailExact(s, CHUNK);
  }

  /** Whatever a cursorless handshake publishes is a head that some access saw. */
  lemma {:induction false} CursorlessEnd(since: int, syncCap: bool, srcs: seq<Source>, now: Ring)
    requires since < 0 && Timeline(srcs, now)
    ensures var r := Drive(Begin(since, syncCap), srcs);
            && (srcs == [] ==> r == Begin(since, syncCap))
            && (srcs != [] ==> !r.Active())
            && (r.phase.Done? ==> 0 <= r.phase.endOffset <= |now.hist|)
    decreases |srcs|
  {
    if srcs != [] {
      CursorlessEnd(since, syncCap, srcs[..|srcs| - 1], now);
      assert Evolves(srcs[|srcs| - 1].ring, now);
    }
  }

  // ---- with and without the sync frames ----

  /** The frames a client sees that looks away at every sync. */
  function Unsynced(fs: seq<Frame>): seq<Frame> {
    if fs == [] then []
    else Unsynced(fs[..|fs| - 1]) + if fs[|fs| - 1].Sync? then [] else [fs[|fs| - 1]]
  }

  /** Nothing but the chunks' bytes. */
  function Bare(chunks: seq<Chunk>): seq<Frame> {
    seq(|chunks|, i requires 0 <= i < |chunks| => Binary(chunks[i].data))
  }

  lemma UnsyncedSnoc(fs: seq<Frame>, f: Frame)
    ensures Unsynced(fs + [f]) == Unsynced(fs) + if f.Sync? then [] else [f]
  {
    assert (fs + [f])[..|fs|] == fs;
  }

  /** `q` is the replay `p` of the same client had it not opted in to sync frames. */
  ghost predicate SameButSyncs(q: Replay, p: Replay) {
    && p.syncCap && q == p.(syncCap := false, frames := q.frames)
    && q.frames == Unsynced(p.frames) == Bare(p.chunks)
  }

  lemma TwoMore<T>(s: seq<T>, x: T, y: T)
    ensures s + [x, y] == s + [x] + [y]
  {
  }

  lemma UnsyncedAnnounced(fs: seq<Frame>, sync: Frame, f: Frame)
    requires sync.Sync? && !f.Sync?
    ensures Unsynced(fs + [sync] + [f]) == Unsynced(fs) + [f]
  {
    UnsyncedSnoc(fs + [sync], f);
    UnsyncedSnoc(fs, sync);
  }

  lemma UnsyncedChunk(fs: seq<Frame>, announce: bool, body: seq<byte>, next: int)
    ensures Unsynced(fs + ChunkFrames(announce, body, next)) == Unsynced(fs) + [Binary(body)]
  {
    if announce {
      TwoMore(fs, Sync(next - |body|, true), Binary(body));
      UnsyncedAnnounced(fs, Sync(next - |body|, true), Binary(body));
    } else {
      UnsyncedSnoc(fs, Binary(body));
    }
  }

  lemma BareSnoc(chunks: seq<Chunk>, c: Chunk)
    ensures Bare(chunks + [c]) == Bare(chunks) + [Binary(c.data)]
  {
  }

  /** The same chunk put on both sockets. */
  lemma MoreButSyncs(q: Replay, p: Replay, announce: bool, c: Chunk, q': Replay, p': Replay)
    requires SameButSyncs(q, p)
    requires p'.frames == p.frames + ChunkFrames(announce, c.data, c.End()) && p'.chunks == p.chunks + [c]
    requires q'.frames == q.frames + [Binary(c.data)] && p'.syncCap && q' == p'.(syncCap := false, frames := q'.frames)
    ensures SameButSyncs(q', p')
  {
    UnsyncedChunk(p.frames, announce, c.data, c.End());
    BareSnoc(p.chunks, c);
  }

  lemma FirstTailButSyncs(q: Replay, p: Replay, a: Answer)
    requires SameButSyncs(q, p)
    ensures SameButSyncs(AccessFirstTail(q, a), AccessFirstTail(p, a))
  {
    if a.Answer? && a.body != [] {
      MoreButSyncs(q, p, false, Chunk(a.next - |a.body|, a.body), AccessFirstTail(q, a), AccessFirstTail(p, a));
    }
  }

  lemma ReadButSyncs(q: Replay, p: Replay, a: Answer)
    requires SameButSyncs(q, p)
    ensures SameButSyncs(AccessRead(q, a), AccessRead(p, a))
  {
    if a.Answer? && a.body != [] {
      var c := Chunk(a.next - |a.body|, a.body);
      MoreButSyncs(q, p, !p.startPublished, c, AccessRead(q, a), AccessRead(p, a));
    }
  }

  lemma TailButSyncs(q: Replay, p: Replay, a: Answer)
    requires SameButSyncs(q, p)
    ensures SameButSyncs(AccessTail(q, a), AccessTail(p, a))
  {
    if a.Answer? && a.body != [] && p.cursor > a.next {
      MoreButSyncs(q, p, true, Chunk(a.next - |a.body|, a.body), AccessTail(q, a), AccessTail(p, a));
    }
  }

  lemma AccessButSyncs(q: Replay, p: Replay, s: Source)
    requires SameButSyncs(q, p) && p.Active()
    ensures SameButSyncs(Access(q, s), Access(p, s))
  {
    match p.phase
    case Following =>
    case Tailing => FirstTailButSyncs(q, p, ManagerTail(s, CHUNK));
    case Reading => ReadButSyncs(q, p, ManagerReadSince(s, p.cursor, CHUNK));
    case Consulting => TailButSyncs(q, p, ManagerTail(s, CHUNK));
  }

  lemma {:induction false} DriveButSyncs(since: int, srcs: seq<Source>)
    ensures SameButSyncs(Drive(Begin(since, false), srcs), Drive(Begin(since, true), srcs))
    decreases |srcs|
  {
    if srcs == [] {
      assert Bare([]) == [];
    } else {
      var past := srcs[..|srcs| - 1];
      DriveButSyncs(since, past);
      if Drive(Begin(since, true), past).Active() {
        AccessButSyncs(Drive(Begin(since, false), past), Drive(Begin(since, true), past), srcs[|srcs| - 1]);
      }
    }
  }

  /** A client that did not opt in to sync frames is sent none, in no mode: only the chunks'
      bytes, and the refusal if the handshake is refused. One that did is sent the same and syncs
      besides, the last frame of a finished handshake being the sync of its end. */
  lemma SyncsByOptIn(since: int, srcs: seq<Source>)
    ensures var q, p := Drive(Begin(since, false), srcs), Drive(Begin(since, true), srcs);
            && q.phase == p.phase && q.chunks == p.chunks && q.cursor == p.cursor
            && q.Wire() == Bare(q.chunks) + (if q.phase.Refused? then [Close1013] else [])
            && (forall i | 0 <= i < |q.Wire()| :: !q.Wire()[i].Sync?)
            && Unsynced(p.Wire()) == q.Wire()
            && (p.phase.Done? ==> p.Wire() != [] && p.Wire()[|p.Wire()| - 1] == Sync(p.phase.endOffset, false))
  {
    DriveButSyncs(since, srcs);
    var q, p := Drive(Begin(since, false), srcs), Drive(Begin(since, true), srcs);
    match p.phase
    case Done(end) => UnsyncedSnoc(p.frames, Sync(end, false));
    case Refused => UnsyncedSnoc(p.frames, Close1013);
    case _ =>
  }

  // ---- instances that are not there, and cursors from another life ----

  /** The second look, after an empty first read: whatever has been written meanwhile is read
      from the cursor, and a cursor beyond the head gets the newest bytes held. */
  lemma ConsultExact(r: Replay, s: Source)
    requires r.phase.Consulting? && r.syncCap && s.running && s.known
    ensures var after, head, n := Access(r, s), s.ring.Head(), Min(CHUNK, s.ring.Used());
            && (r.cursor < head ==> after == r.(phase := Reading, first := false))
            && (r.cursor >= head ==> after.phase == Done(head))
            && (r.cursor == head || (r.cursor > head && n == 0) ==> after.frames == r.frames)
            && (r.cursor > head && n > 0 ==>
                  after.frames == r.frames + [Sync(head - n, true), Binary(s.ring.hist[head - n..])])
  {
    ManagerTailExact(s, CHUNK);
  }

  /** A cursor that lies beyond everything ever written is not trusted: over a still ring the
      client is sent the newest bytes held, at most one chunk of them, and the real head. */
  lemma StaleCursorReplay(since: nat, s: Source)
    requires s.running && s.known && s.ring.Head() < since
    ensures var head, n := s.ring.Head(), Min(CHUNK, s.ring.Used());
            Drive(Begin(since, true), [s, s]).Wire()
            == (if n == 0 then [] else [Sync(head - n, true), Binary(s.ring.hist[head - n..])]) + [Sync(head, false)]
  {
    DriveStep(Begin(since, true), [], s);
    assert [] + [s] == [s] && [s] + [s] == [s, s];
    var r := Drive(Begin(since, true), [s]);
    assert r == Begin(since, true).(phase := Consulting);
    DriveStep(Begin(since, true), [s], s);
    ConsultExact(r, s);
  }

  lemma {:induction false} AbsentDrive(since: int, syncCap: bool, srcs: seq<Source>)
    requires forall i | 0 <= i < |srcs| :: !srcs[i].running
    ensures var r := Drive(Begin(since, syncCap), srcs);
            && r.syncCap == syncCap && r.frames == [] && r.cursor == since && r.first
            && (|srcs| == 0 ==> r == Begin(since, syncCap))
            && (|srcs| == 1 ==> r.phase == (if since < 0 then Done(0) else Consulting))
            && (|srcs| >= 2 ==> r.phase == Done(0))
    decreases |srcs|
  {
    if srcs != [] {
      AbsentDrive(since, syncCap, srcs[..|srcs| - 1]);
    }
  }

  /** An instance that is not running replays nothing, whatever the cursor, and publishes 0. */
  lemma AbsentInstance(since: int, syncCap: bool, srcs: seq<Source>)
    requires |srcs| >= 2 && forall i | 0 <= i < |srcs| :: !srcs[i].running
    ensures Drive(Begin(since, syncCap), srcs).Wire() == if syncCap then [Sync(0, false)] else []
  {
    AbsentDrive(since, syncCap, srcs);
  }

  /** A failed access refuses the handshake: what had been sent is followed by the closing frame
      and nothing else, whatever the later snapshots. */
  lemma FailedAccessRefuses(since: int, syncCap: bool, srcs: seq<Source>, s: Source)
    requires Drive(Begin(since, syncCap), srcs).Active() && s.running && !s.known
    ensures Drive(Begin(since, syncCap), srcs + [s]).Wire() == Drive(Begin(since, syncCap), srcs).frames + [Close1013]
  {
    DriveStep(Begin(since, syncCap), srcs, s);
    assert Access(Drive(Begin(since, syncCap), srcs), s).phase.Refused?;
  }

  // ---- convergence over a quiet ring ----

  function Repeat(s: Source, n: nat): seq<Source> { seq(n, _ => s) }

  function Payload(chunks: seq<Chunk>): seq<byte> {
    if chunks == [] then [] else Payload(chunks[..|chunks| - 1]) + chunks[|chunks| - 1].data
  }

  ghost predicate Quiet(s: Source, c: nat) {
    s.running && s.known && s.ring.Oldest() <= c <= s.ring.Head()
  }

  /** Over a ring nobody writes to, the replay is an exact prefix of what is missing. */
  ghost predicate ExactSoFar(r: Replay, s: Source, c: nat) {
    && c <= r.cursor <= Min(c + BUDGET, s.ring.Head())
    && Payload(r.chunks) == s.ring.hist[c..r.cursor]
    && r.streamed == r.cursor - c
    && (r.first ==> r.cursor == c)
    && (r.cursor == s.ring.Head() || r.streamed % CHUNK == 0)
    && (r.phase.Reading? || r.phase.Consulting? || r.phase.Done?)
    && (r.phase.Reading? ==> r.streamed < BUDGET)
    && (r.phase.Consulting? ==> c == s.ring.Head())
    && (r.phase.Done? ==> r.phase.endOffset == r.cursor == Min(c + BUDGET, s.ring.Head()))
  }

  lemma PayloadSnoc(chunks: seq<Chunk>, c: Chunk)
    ensures Payload(chunks + [c]) == Payload(chunks) + c.data
  {
    assert (chunks + [c])[..|chunks|] == chunks;
  }

  /** Whole chunks fill the budget exactly. */
  lemma WholeChunks(streamed: nat)
    requires streamed % CHUNK == 0 && streamed < BUDGET
    ensures streamed + CHUNK <= BUDGET && (streamed + CHUNK) % CHUNK == 0
  {
  }

  lemma ExactChunk(r: Replay, s: Source, c: nat, stop: nat)
    requires Quiet(s, c) && ExactSoFar(r, s, c) && r.phase.Reading?
    requires r.cursor < s.ring.Head() && stop == Min(r.cursor + CHUNK, s.ring.Head())
    ensures ExactSoFar(AccessRead(r, Answer(s.ring.hist[r.cursor..stop], stop)), s, c)
  {
    var body := s.ring.hist[r.cursor..stop];
    PayloadSnoc(r.chunks, Chunk(stop - |body|, body));
    SliceJoin(s.ring.hist, c, r.cursor, stop);
    WholeChunks(r.streamed);
  }

  lemma QuietRead(s: Source, c: nat, cursor: nat)
    requires Quiet(s, c) && c <= cursor <= s.ring.Head()
    ensures var stop := Min(cursor + CHUNK, s.ring.Head());
            ManagerReadSince(s, cursor, CHUNK) == Answer(s.ring.hist[cursor..stop], stop)
  {
  }

  lemma QuietStep(p: Replay, s: Source, c: nat)
    requires Quiet(s, c) && ExactSoFar(p, s, c) && p.Active()
    ensures ExactSoFar(Access(p, s), s, c)
  {
    if p.phase.Reading? {
      QuietRead(s, c, p.cursor);
      var stop := Min(p.cursor + CHUNK, s.ring.Head());
      if p.cursor < s.ring.Head() {
        ExactChunk(p, s, c, stop);
      } else {
        assert s.ring.hist[p.cursor..stop] == [];
      }
    } else {
      ManagerTailExact(s, CHUNK);
    }
  }

  lemma {:induction false} QuietInvariant(s: Source, c: nat, n: nat)
    requires Quiet(s, c)
    ensures ExactSoFar(Drive(Begin(c, true), Repeat(s, n)), s, c)
  {
    if n > 0 {
      QuietInvariant(s, c, n - 1);
      assert Repeat(s, n)[..n - 1] == Repeat(s, n - 1);
      var p := Drive(Begin(c, true), Repeat(s, n - 1));
      if p.Active() {
        QuietStep(p, s, c);
      }
    }
  }

  /** One handshake over a quiet ring delivers exactly the next min(BUDGET, missing) bytes and
      publishes the offset they end at. */
  lemma QuietHandshakeExact(s: Source, c: nat, n: nat)
    requires Quiet(s, c) && n >= BUDGET + 3
    ensures var r := Drive(Begin(c, true), Repeat(s, n));
            var end := Min(c + BUDGET, s.ring.Head());
            && r.phase == Done(end)
            && Payload(r.chunks) == s.ring.hist[c..end]
            && CursorAfter(c, Repeat(s, n), |r.Wire()|) == end
  {
    QuietInvariant(s, c, n);
    RankFalls(c, true, Repeat(s, n));
    CatchUpInvariant(c, Repeat(s, n), s.ring);
    var r := Drive(Begin(c, true), Repeat(s, n));
    CursorOnWire(r, c, |r.Wire()|);
  }

  /** `times` complete handshakes in a row, each resuming from the offset the one before
      published: the bytes they deliver, and the final cursor. */
  function Resume(s: Source, c: nat, times: nat): (seq<byte>, int) {
    if times == 0 then ([], c)
    else
      var (got, cursor) := Resume(s, c, times - 1);
      var r := Drive(Begin(cursor, true), Repeat(s, BUDGET + 3));
      (got + Payload(r.chunks), if r.phase.Done? then r.phase.endOffset else cursor)
  }

  lemma ResumeStep(s: Source, c: nat, times: nat, got: seq<byte>, cursor: nat)
    requires times > 0 && Resume(s, c, times - 1) == (got, cursor) && Quiet(s, cursor)
    ensures var end := Min(cursor + BUDGET, s.ring.Head());
            Resume(s, c, times) == (got + s.ring.hist[cursor..end], end)
  {
    QuietHandshakeExact(s, cursor, BUDGET + 3);
  }

  lemma SliceJoin(h: seq<byte>, a: nat, b: nat, c: nat)
    requires a <= b <= c <= |h|
    ensures h[a..b] + h[b..c] == h[a..c]
  {
  }

  lemma {:induction false} ResumeExact(s: Source, c: nat, times: nat, cursor: nat)
    requires Quiet(s, c) && cursor == Min(c + times * BUDGET, s.ring.Head())
    ensures Resume(s, c, times) == (s.ring.hist[c..cursor], cursor)
    decreases times
  {
    var h := s.ring.hist;
    if times == 0 {
      assert h[c..c] == [];
    } else {
      var before := Min(c + (times - 1) * BUDGET, |h|);
      ResumeExact(s, c, times - 1, before);
      ResumeStep(s, c, times, h[c..before], before);
      SliceJoin(h, c, before, cursor);
    }
  }

  /** The reconnect chain converges exactly: after `times` handshakes the client holds the
      missing bytes up to times * BUDGET, gapless and without repeats, so it has caught up
      exactly when times * BUDGET covers what was missing. */
  lemma ReconnectsConverge(s: Source, c: nat, times: nat)
    requires Quiet(s, c)
    ensures var (got, cursor) := Resume(s, c, times);
            && cursor == Min(c + times * BUDGET, s.ring.Head())
            && got == s.ring.hist[c..cursor]
            && (got == s.ring.hist[c..] <==> times * BUDGET >= s.ring.Head() - c)
  {
    var cursor := Min(c + times * BUDGET, s.ring.Head());
    ResumeExact(s, c, times, cursor);
    assert |s.ring.hist[c..cursor]| == cursor - c && |s.ring.hist[c..]| == s.ring.Head() - c;
  }
}
