/** completeHandshake itself (internal/app/app.go), run against a real ring buffer while a
    schedule decides what the writer and the framework do before each of its accesses. */
module Handshakes {
  import opened RingBuffers
  import opened Replays

  /** A step of the rest of the program: a ring operation, or the instance entering or leaving
      the running map. */
  datatype EnvStep = RingStep(op: Op) | SetRunning(on: bool)

  function Play(s: Source, steps: seq<EnvStep>): Source
    decreases |steps|
  {
    if steps == [] then s
    else
      var next := match steps[0]
                  case RingStep(op) => s.(ring := Apply(s.ring, op))
                  case SetRunning(on) => s.(running := on);
      Play(next, steps[1..])
  }

  /** What the first `n` accesses see when `sched(i)` runs just before access `i`. */
  function Snapshots(s: Source, sched: nat -> seq<EnvStep>, n: nat): seq<Source> {
    if n == 0 then []
    else
      var past := Snapshots(s, sched, n - 1);
      past + [Play(if past == [] then s else past[|past| - 1], sched(n - 1))]
  }

  lemma EvolvesChain(a: Ring, b: Ring, c: Ring)
    requires Evolves(a, b) && Evolves(b, c)
    ensures Evolves(a, c)
  {
  }

  lemma {:induction false} PlayEvolves(s: Source, steps: seq<EnvStep>)
    ensures Evolves(s.ring, Play(s, steps).ring)
    ensures Play(s, steps).known == s.known
    decreases |steps|
  {
    if steps != [] {
      var next := match steps[0]
                  case RingStep(op) => s.(ring := Apply(s.ring, op))
                  case SetRunning(on) => s.(running := on);
      PlayEvolves(next, steps[1..]);
      EvolvesChain(s.ring, next.ring, Play(s, steps).ring);
    }
  }

  /** Every schedule yields a timeline, so every theorem about replays applies to it. */
  lemma {:induction false} SnapshotsTimeline(s: Source, sched: nat -> seq<EnvStep>, n: nat)
    ensures var srcs := Snapshots(s, sched, n);
            && |srcs| == n
            && (forall i | 0 <= i < n :: Evolves(s.ring, srcs[i].ring))
            && Timeline(srcs, if n == 0 then s.ring else srcs[n - 1].ring)
  {
    if n > 0 {
      SnapshotsTimeline(s, sched, n - 1);
      var past := Snapshots(s, sched, n - 1);
      var last := if past == [] then s else past[n - 2];
      PlayEvolves(last, sched(n - 1));
      var newest := Play(last, sched(n - 1));
      forall i | 0 <= i < n - 1
        ensures Evolves(past[i].ring, newest.ring)
      {
        EvolvesChain(past[i].ring, last.ring, newest.ring);
      }
      EvolvesChain(s.ring, last.ring, newest.ring);
    }
  }

  lemma PrefixSnoc(sent: seq<Frame>, f: Frame, accepts: nat)
    requires |sent| <= accepts
    ensures Prefix(sent + [f], accepts) == if |sent| < accepts then sent + [f] else sent
  {
  }

  /** What a handshake that stops here has put on the socket. */
  ghost predicate Stopped(before: seq<Frame>, after: seq<Frame>, accepts: nat, r: Replay) {
    && after == Prefix(before + r.Wire(), accepts)
    && (r.phase.Refused? || |before + r.Wire()| > accepts)
  }

  lemma StoppedShort(before: seq<Frame>, after: seq<Frame>, accepts: nat, r: Replay)
    requires |before + r.frames| > accepts && after == Prefix(before + r.frames, accepts)
    ensures Stopped(before, after, accepts, r)
  {
    assert r.frames <= r.Wire();
    assert before + r.frames <= before + r.Wire();
  }

  lemma StoppedRefused(before: seq<Frame>, after: seq<Frame>, accepts: nat, r: Replay)
    requires r.phase.Refused? && after == Prefix(before + r.frames + [Close1013], accepts)
    ensures Stopped(before, after, accepts, r)
  {
    assert before + r.frames + [Close1013] == before + r.Wire();
  }

  /** The socket carries the replay's wire form behind `before`, cut after `accepts` frames; `ok`
      says whether the replay finished and all of it got through. */
  ghost predicate Carried(before: seq<Frame>, after: seq<Frame>, accepts: nat, r: Replay, ok: bool) {
    && after == Prefix(before + r.Wire(), accepts)
    && (ok <==> r.phase.Done? && |before + r.Wire()| <= accepts)
    && (!ok ==> r.phase.Refused? || |before + r.Wire()| > accepts)
  }

  /** Only a client that opted in was sent sync frames after `before`; the last frame of a
      success is then the sync of its end. */
  ghost predicate SyncsAgreed(before: seq<Frame>, after: seq<Frame>, syncCap: bool, r: Replay, ok: bool) {
    && (!syncCap ==> |before| <= |after| && forall i | |before| <= i < |after| :: !after[i].Sync?)
    && (syncCap && ok ==>
          r.phase.Done? && after != [] && after[|after| - 1] == Sync(r.phase.endOffset, false))
  }

  lemma NoSyncAfter(before: seq<Frame>, wire: seq<Frame>, accepts: nat)
    requires |before| <= accepts && forall i | 0 <= i < |wire| :: !wire[i].Sync?
    ensures var after := Prefix(before + wire, accepts);
            |before| <= |after| && forall i | |before| <= i < |after| :: !after[i].Sync?
  {
    var after := Prefix(before + wire, accepts);
    forall i | |before| <= i < |after|
      ensures !after[i].Sync?
    {
      assert after[i] == wire[i - |before|];
    }
  }

  lemma AllCarried(before: seq<Frame>, wire: seq<Frame>, accepts: nat)
    requires |before + wire| <= accepts && wire != []
    ensures var after := Prefix(before + wire, accepts); after != [] && after[|after| - 1] == wire[|wire| - 1]
  {
  }

  lemma CarriedSyncs(before: seq<Frame>, after: seq<Frame>, accepts: nat, since: int, syncCap: bool, srcs: seq<Source>,
                     ok: bool)
    requires |before| <= accepts && Carried(before, after, accepts, Drive(Begin(since, syncCap), srcs), ok)
    ensures SyncsAgreed(before, after, syncCap, Drive(Begin(since, syncCap), srcs), ok)
  {
    SyncsByOptIn(since, srcs);
    var wire := Drive(Begin(since, syncCap), srcs).Wire();
    if !syncCap {
      NoSyncAfter(before, wire, accepts);
    } else if ok {
      AllCarried(before, wire, accepts);
    }
  }

  /** One handshake in progress: the instance as the manager sees it (its ring and whether the
      id is in the running map), the client's socket, which fails for good after `accepts`
      frames, and the schedule of everything else. */
  class Handshake {
    const buf: RingBuffer
    const known: bool
    const accepts: nat
    const sched: nat -> seq<EnvStep>
    var running: bool
    var sent: seq<Frame>
    var turn: nat
    ghost const start: Source
    ghost var seen: seq<Source>

    constructor (b: RingBuffer, kindRegistered: bool, inRunningMap: bool, limit: nat, schedule: nat -> seq<EnvStep>)
      requires b.Valid()
      ensures Valid() && sent == [] && turn == 0
      ensures start == Source(b.Model(), inRunningMap, kindRegistered)
      ensures buf == b && accepts == limit && sched == schedule
    {
      buf, known, running, accepts, sched := b, kindRegistered, inRunningMap, limit, schedule;
      sent, turn, seen := [], 0, [];
      start := Source(b.Model(), inRunningMap, kindRegistered);
    }

    ghost predicate Valid()
      reads this, buf, buf.Repr
    {
      && buf.Valid() && this !in buf.Repr
      && |sent| <= accepts
      && |seen| == turn && seen == Snapshots(start, sched, turn)
      && Now() == if turn == 0 then start else seen[turn - 1]
    }

    ghost function Now(): Source
      reads this, buf
    {
      Source(buf.Model(), running, known)
    }

    /** The replay state the accesses so far have led to. */
    ghost function State(since: int, syncCap: bool): Replay
      reads this
    {
      Drive(Begin(since, syncCap), seen)
    }

    method Interfere(steps: seq<EnvStep>)
      requires buf.Valid() && this !in buf.Repr
      modifies this`running, buf.Repr
      ensures buf.Valid() && Now() == Play(old(Now()), steps)
    {
      var i := 0;
      while i < |steps|
        invariant 0 <= i <= |steps| && buf.Valid()
        invariant Play(old(Now()), steps) == Play(Now(), steps[i..])
      {
        match steps[i] {
          case RingStep(op) =>
            buf.Perform([op]);
            assert Run(Apply(old(Now()).ring, op), []) == Apply(old(Now()).ring, op);
          case SetRunning(on) =>
            running := on;
        }
        assert steps[i..][1..] == steps[i + 1..];
        i := i + 1;
      }
    }

    /** Let the rest of the program run, then look at the instance. */
    method Reach(ghost since: int, ghost syncCap: bool)
      requires Valid() && State(since, syncCap).Active()
      modifies this`running, this`turn, this`seen, buf.Repr
      ensures Valid() && sent == old(sent)
      ensures State(since, syncCap) == Access(old(State(since, syncCap)), Now())
    {
      DriveStep(Begin(since, syncCap), seen, Play(Now(), sched(turn)));
      Interfere(sched(turn));
      seen := seen + [Now()];
      turn := turn + 1;
    }

    /** Manager.Tail. */
    method Tail(n: int) returns (a: Answer)
      requires Valid()
      ensures a == ManagerTail(Now(), n)
    {
      if !running {
        return Answer([], 0);
      }
      var m := n;
      if m <= 0 {
        m := 4096;
      }
      if !known {
        return Failed;
      }
      var body, off := buf.Tail(m);
      if off < 0 {
        off := 0;
      }
      if |body| > off {
        off := |body|;
      }
      return Answer(body, off);
    }

    /** Manager.EndOffset. */
    method EndOffset() returns (a: Answer)
      requires Valid()
      ensures a == ManagerEndOffset(Now())
    {
      if !running {
        return Answer([], 0);
      }
      if !known {
        return Failed;
      }
      var body, off := buf.Tail(0);
      return Answer([], off);
    }

    /** Manager.ReadSince. */
    method ReadSince(since: int, maxBytes: nat) returns (a: Answer)
      requires Valid()
      ensures a == ManagerReadSince(Now(), since, maxBytes)
    {
      var from := since;
      if from < 0 {
        from := 0;
      }
      if !running {
        return Answer([], from);
      }
      if !known {
        return Failed;
      }
      var rd := buf.ReadSince(from, maxBytes);
      return Answer(rd.body, rd.next);
    }

    method Write(f: Frame) returns (ok: bool)
      requires Valid()
      modifies this`sent
      ensures Valid() && sent == Prefix(old(sent) + [f], accepts)
      ensures ok <==> |old(sent)| < accepts
    {
      PrefixSnoc(sent, f, accepts);
      ok := |sent| < accepts;
      if ok {
        sent := sent + [f];
      }
    }

    /** Write one chunk, announcing its start first on request; stops at the first failed
        write. */
    method WriteChunk(announce: bool, body: seq<byte>, next: int) returns (ok: bool)
      requires Valid()
      modifies this`sent
      ensures Valid()
      ensures var fs := ChunkFrames(announce, body, next);
              && sent == Prefix(old(sent) + fs, accepts)
              && (ok <==> |old(sent) + fs| <= accepts)
    {
      if announce {
        ok := Write(Sync(next - |body|, true));
        if !ok {
          return;
        }
      }
      ok := Write(Binary(body));
    }

    /** Put a chunk on the socket as the step from replay `p` to replay `r` demands. */
    method SendChunk(announce: bool, body: seq<byte>, next: int, ghost before: seq<Frame>,
                     ghost p: Replay, ghost r: Replay)
      returns (ok: bool)
      requires Valid() && sent == before + p.frames
      requires r.frames == p.frames + ChunkFrames(announce, body, next)
      modifies this`sent
      ensures Valid()
      ensures ok ==> sent == before + r.frames
      ensures !ok ==> Stopped(before, sent, accepts, r)
    {
      ok := WriteChunk(announce, body, next);
      assert before + p.frames + ChunkFrames(announce, body, next) == before + r.frames;
      if !ok {
        StoppedShort(before, sent, accepts, r);
      }
    }

    method Refuse(ghost before: seq<Frame>, ghost r: Replay)
      requires Valid() && sent == before + r.frames && r.phase.Refused?
      modifies this`sent
      ensures Valid() && Stopped(before, sent, accepts, r)
    {
      var _ := Write(Close1013);
      StoppedRefused(before, sent, accepts, r);
    }

    /** The one-shot head consult after an empty first read. It either sends the loop back to
        reading, or settles the replay. */
    method Consult(since: int, syncCap: bool, cursor: nat, ghost before: seq<Frame>)
      returns (again: bool, ok: bool, endOffset: int)
      requires Valid()
      requires var r := State(since, syncCap);
               r.phase.Consulting? && r.cursor == cursor && r.syncCap == syncCap && sent == before + r.frames
      modifies this`running, this`turn, this`seen, this`sent, buf.Repr
      ensures Valid()
      ensures again ==>
                && State(since, syncCap) == old(State(since, syncCap)).(phase := Reading, first := false)
                && sent == old(sent)
      ensures !again && ok ==>
                State(since, syncCap).phase == Done(endOffset) && sent == before + State(since, syncCap).frames
      ensures !again && !ok ==> Stopped(before, sent, accepts, State(since, syncCap))
      ensures State(since, syncCap).syncCap == syncCap
    {
      ghost var p := State(since, syncCap);
      Reach(since, syncCap);
      var t := Tail(CHUNK);
      ghost var r := State(since, syncCap);
      assert r == AccessTail(p, t);
      again, ok, endOffset := false, true, 0;
      if t.Failed? {
        Refuse(before, r);
        ok := false;
        return;
      }
      endOffset := t.next;
      if cursor > t.next {
        if t.body != [] {
          ok := SendChunk(syncCap, t.body, t.next, before, p, r);
        }
      } else if t.next > cursor {
        again := true;
      }
    }

    /** One read of the catch-up loop, with the chunk it answers put on the socket; `ok` is false
        when the read failed (and the client was told) or a write did. */
    method ReadAndSend(since: int, syncCap: bool, cursor: nat, startPublished: bool, ghost before: seq<Frame>)
      returns (a: Answer, ok: bool)
      requires Valid()
      requires var p := State(since, syncCap);
               && p.phase.Reading? && p.cursor == cursor && p.syncCap == syncCap && p.startPublished == startPublished
               && sent == before + p.frames
      modifies this`running, this`turn, this`seen, this`sent, buf.Repr
      ensures Valid()
      ensures State(since, syncCap) == AccessRead(old(State(since, syncCap)), a)
      ensures ok ==> a.Answer? && sent == before + State(since, syncCap).frames
      ensures !ok ==> Stopped(before, sent, accepts, State(since, syncCap))
    {
      ghost var p := State(since, syncCap);
      Reach(since, syncCap);
      a := ReadSince(cursor, CHUNK);
      ghost var r := State(since, syncCap);
      assert r == AccessRead(p, a);
      ok := true;
      if a.Failed? {
        Refuse(before, r);
        ok := false;
      } else if a.body != [] {
        ok := SendChunk(!startPublished && syncCap, a.body, a.next, before, p, r);
      }
    }

    /** The catch-up loop of a handshake that presented a real cursor. */
    method CatchUp(since: nat, syncCap: bool) returns (ok: bool, endOffset: int)
      requires Valid() && turn == 0
      modifies this`running, this`turn, this`seen, this`sent, buf.Repr
      ensures Valid() && State(since, syncCap).syncCap == syncCap
      ensures ok ==> State(since, syncCap).phase == Done(endOffset) && sent == old(sent) + State(since, syncCap).frames
      ensures !ok ==> Stopped(old(sent), sent, accepts, State(since, syncCap))
    {
      var cursor, first, streamed, startPublished := since, true, 0, false;
      endOffset := 0;
      ghost var before := sent;
      while true
        invariant Valid() && 0 <= cursor
        invariant streamed >= BUDGET ==> State(since, syncCap).phase == Done(endOffset)
        invariant streamed < BUDGET ==> State(since, syncCap).phase == Reading
        invariant var r := State(since, syncCap);
                  && r.syncCap == syncCap && r.cursor == cursor && r.first == first
                  && r.streamed == streamed && r.startPublished == startPublished
        invariant sent == before + State(since, syncCap).frames
        decreases BUDGET - streamed, first
      {
        if streamed >= BUDGET {
          return true, endOffset;
        }
        var a;
        a, ok := ReadAndSend(since, syncCap, cursor, startPublished, before);
        if !ok {
          return false, 0;
        }
        if a.body == [] {
          if !first {
            return true, a.next;
          }
          var again;
          again, ok, endOffset := Consult(since, syncCap, cursor, before);
          if !again {
            return;
          }
          first := false;
          continue;
        }
        startPublished := true;
        endOffset := a.next;
        streamed := streamed + |a.body|;
        if a.next <= cursor {
          return true, endOffset;
        }
        cursor := a.next;
        first := false;
      }
    }

    /** The two modes without a cursor. */
    method FirstConnect(since: int, syncCap: bool) returns (ok: bool, endOffset: int)
      requires Valid() && turn == 0 && since < 0
      modifies this`running, this`turn, this`seen, this`sent, buf.Repr
      ensures Valid() && State(since, syncCap).syncCap == syncCap
      ensures ok ==> State(since, syncCap).phase == Done(endOffset) && sent == old(sent) + State(since, syncCap).frames
      ensures !ok ==> Stopped(old(sent), sent, accepts, State(since, syncCap))
    {
      ghost var before := sent;
      ghost var p := State(since, syncCap);
      Reach(since, syncCap);
      ghost var r := State(since, syncCap);
      var a;
      if since == FOLLOW_LIVE_END {
        a := EndOffset();
      } else {
        a := Tail(CHUNK);
      }
      if a.Failed? {
        Refuse(before, r);
        return false, 0;
      }
      if since != FOLLOW_LIVE_END && a.body != [] {
        ok := Write(Binary(a.body));
        assert before + [Binary(a.body)] == before + r.frames;
        if !ok {
          StoppedShort(before, sent, accepts, r);
          return false, 0;
        }
      }
      ok, endOffset := true, a.next;
    }

    /** The whole handshake: what reaches the socket is exactly the replay's wire form, cut
        where the connection fails, and it succeeds exactly when the replay finished and every
        frame was accepted. Only a client that opted in is sent sync frames, the last frame of a
        success being the sync of the replay's end. */
    method Complete(since: int, syncCap: bool) returns (ok: bool)
      requires Valid() && turn == 0
      modifies this`running, this`turn, this`seen, this`sent, buf.Repr
      ensures Valid()
      ensures var r := Drive(Begin(since, syncCap), Snapshots(start, sched, turn));
              && Carried(old(sent), sent, accepts, r, ok)
              && SyncsAgreed(old(sent), sent, syncCap, r, ok)
    {
      ghost var before := sent;
      var endOffset;
      if since >= 0 {
        ok, endOffset := CatchUp(since, syncCap);
      } else {
        ok, endOffset := FirstConnect(since, syncCap);
      }
      if ok {
        ghost var r := State(since, syncCap);
        assert before + r.Wire() == (before + r.frames) + if syncCap then [Sync(endOffset, false)] else [];
        if syncCap {
          ok := Write(Sync(endOffset, false));
        }
      }
      CarriedSyncs(before, sent, accepts, since, syncCap, seen, ok);
    }
  }
}
