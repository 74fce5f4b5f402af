/** Whole runs of one terminal client: the output pump, the replay handshake, the subscription
    and the live stream together (pumpLogs in internal/instance/pty/driver.go, the TTY handler
    in internal/app/app.go). The ring stays open throughout. */
module Sessions {
  import opened RingBuffers
  import opened Replays
  import opened Fanout

  /** The client: offline with a cursor; in a handshake that presented `since` (its cursor or a
      sentinel), with what the accesses so far have seen; past the closing sync, which named
      `end`, but not yet subscribed; or live on subscription `h`, with `join` the number of
      bytes that had been broadcast when it subscribed. */
  datatype Phase =
    | Offline(cursor: nat)
    | Replaying(kept: nat, since: int, srcs: seq<Source>)
    | Synced(end: nat, since: int, srcs: seq<Source>)
    | Live(h: nat, end: nat, since: int, srcs: seq<Source>, join: int)

  /** Whether the id is in the running map: an instance is entered once and, when it has ended,
      removed for good, since ids are not used again. */
  datatype Presence = Unborn | Alive | Gone

  /** `pending` is the chunk the pump has written to the ring and not broadcast yet, and `lead`
      the length of the chunk that was pending at the client's latest subscription. */
  datatype Session = Session(id: string, presence: Presence, ring: Ring, pending: Text, hub: World, client: Phase,
                             lead: nat)

  datatype Event =
    | PumpWrite(chunk: Text)
    | PumpBroadcast
    | Connect(since: int)
    | Appear
    | Vanish
    | HandshakeAccess(known: bool)
    | ReceiveClosingSync
    | SubscribeLive(h: nat)
    | ReceiveLive
    | DropConnection(frames: nat)
    | OtherFanOut(step: Step)

  /** The chunks in one piece. */
  function Join(chunks: seq<Text>): Text {
    if chunks == [] then [] else Join(chunks[..|chunks| - 1]) + chunks[|chunks| - 1]
  }

  /** The state of the handshake the client is in. */
  function Handshake(c: Phase): Replay
    requires c.Replaying?
  {
    Drive(Begin(c.since, true), c.srcs)
  }

  /** The cursor the client is left with if the connection drops now (mid-handshake, after
      `frames` frames). */
  function Cursor(s: Session, frames: nat): int {
    match s.client
    case Offline(cursor) => cursor
    case Replaying(kept, since, srcs) => if since < 0 then kept else CursorAfter(since, srcs, frames)
    case Synced(end, _, _) => end
    case Live(h, end, _, _, _) => end + if h in s.hub.taken then |Join(s.hub.taken[h])| else 0
  }

  /** Steps of the rest of the program on the registry: anything but broadcasting to this id or
      using the client's own subscription. */
  predicate Foreign(s: Session, step: Step) {
    && Enabled(s.hub, step)
    && (match step
        case SubscribeStep(_, _) => true
        case CancelStep(h) => !(s.client.Live? && s.client.h == h)
        case BroadcastStep(id, _) => id != s.id
        case TakeStep(h) => !(s.client.Live? && s.client.h == h)
        case DrainStep(_) => true)
  }

  predicate Can(s: Session, e: Event) {
    match e
    case PumpWrite(chunk) => s.pending == []
    case PumpBroadcast => true
    case Connect(since) => s.client.Offline? && (since == s.client.cursor || since == -1 || since == FOLLOW_LIVE_END)
    case Appear => s.presence.Unborn?
    case Vanish => s.presence.Alive?
    case HandshakeAccess(_) => s.client.Replaying? && Handshake(s.client).Active()
    case ReceiveClosingSync =>
      s.client.Replaying? && Handshake(s.client).phase.Done? && Handshake(s.client).phase.endOffset >= 0
    case SubscribeLive(h) => s.client.Synced? && s.presence.Alive? && h !in s.hub.fan.chans
    case ReceiveLive => s.client.Live? && Enabled(s.hub, TakeStep(s.client.h))
    case DropConnection(frames) => Cursor(s, frames) >= 0 && (s.client.Live? ==> s.client.h in s.hub.fan.chans)
    case OtherFanOut(step) => Foreign(s, step)
  }

  function Do(s: Session, e: Event): Session
    requires Can(s, e)
  {
    match e
    case PumpWrite(chunk) => s.(ring := s.ring.Append(chunk), pending := chunk)
    case PumpBroadcast => s.(hub := Next(s.hub, BroadcastStep(s.id, s.pending)), pending := [])
    case Connect(since) => s.(client := Replaying(s.client.cursor, since, []))
    case Appear => s.(presence := Alive)
    case Vanish => s.(presence := Gone)
    case HandshakeAccess(known) =>
      s.(client := Replaying(s.client.kept, s.client.since,
                             s.client.srcs + [Source(s.ring, s.presence.Alive?, known)]))
    case ReceiveClosingSync =>
      s.(client := Synced(Handshake(s.client).phase.endOffset, s.client.since, s.client.srcs))
    case SubscribeLive(h) =>
      s.(hub := Next(s.hub, SubscribeStep(s.id, h)), lead := |s.pending|,
      client := Live(h, s.client.end, s.client.since, s.client.srcs, |s.ring.hist| - |s.pending|))
    case ReceiveLive => s.(hub := Next(s.hub, TakeStep(s.client.h)))
    case DropConnection(frames) =>
      s.(client := Offline(Cursor(s, frames)),
      hub := if s.client.Live? then Next(s.hub, CancelStep(s.client.h)) else s.hub)
    case OtherFanOut(step) => s.(hub := Next(s.hub, step))
  }

  function Start(id: string, cap: int): Session {
    Session(id, Unborn, Ring(cap, [], false), [], EMPTY, Offline(0), 0)
  }

  predicate Feasible(s: Session, es: seq<Event>)
    decreases |es|
  {
    es == [] || (Can(s, es[0]) && Feasible(Do(s, es[0]), es[1..]))
  }

  function Play(s: Session, es: seq<Event>): Session
    requires Feasible(s, es)
    decreases |es|
  {
    if es == [] then s else Play(Do(s, es[0]), es[1..])
  }

  ghost predicate ClientOk(s: Session) {
    match s.client
    case Offline(cursor) => cursor <= |s.ring.hist| + s.lead
    case Replaying(kept, since, srcs) =>
      kept <= |s.ring.hist| + s.lead && (since < 0 || since == kept) && Timeline(srcs, s.ring)
    case Synced(end, _, _) => end <= |s.ring.hist|
    case Live(h, end, _, _, _) =>
      && h in s.hub.fan.chans && s.hub.fan.chans[h].id == s.id && h in s.hub.taken
      && end + Account(s.hub, h) <= |Join(s.hub.Log(s.id))| + s.lead
  }

  /** The ring holds everything broadcast plus the pending chunk: each chunk reached the ring
      before it reached any subscriber. */
  ghost predicate SessionInv(s: Session) {
    && s.id != ""
    && !s.ring.closed
    && s.ring.hist == Join(s.hub.Log(s.id)) + s.pending
    && Fanout.Inv(s.hub)
    && ClientOk(s)
  }

  lemma {:induction false} JoinConcat(a: seq<Text>, b: seq<Text>)
    ensures Join(a + b) == Join(a) + Join(b)
    decreases |b|
  {
    if b == [] {
      assert a + b == a;
    } else {
      var init := b[..|b| - 1];
      JoinConcat(a, init);
      assert (a + b)[..|a + b| - 1] == a + init;
    }
  }

  lemma JoinSnoc(a: seq<Text>, c: Text)
    ensures Join(a + [c]) == Join(a) + c
  {
    assert (a + [c])[..|a|] == a;
  }

  lemma TimelineGrows(srcs: seq<Source>, now: Ring, later: Ring)
    requires Timeline(srcs, now) && Evolves(now, later)
    ensures Timeline(srcs, later)
  {
  }

  lemma TimelineSnoc(srcs: seq<Source>, now: Ring, running: bool, known: bool)
    requires Timeline(srcs, now)
    ensures Timeline(srcs + [Source(now, running, known)], now)
  {
  }

  lemma JoinHead(q: seq<Text>)
    requires q != []
    ensures Join(q) == q[0] + Join(q[1..])
  {
    JoinConcat([q[0]], q[1..]);
    JoinSnoc([], q[0]);
    assert [q[0]] + q[1..] == q && [] + [q[0]] == [q[0]];
  }

  /** How many bytes a subscriber has been handed or has queued. */
  function Account(w: World, h: nat): nat
    requires h in w.fan.chans && h in w.taken
  {
    |Join(w.taken[h])| + |Join(w.fan.chans[h].queue)|
  }

  lemma AccountBroadcast(w: World, id: string, chunk: Text, h: nat)
    requires h in w.fan.chans && h in w.taken
    ensures var v := Next(w, BroadcastStep(id, chunk));
            && h in v.fan.chans && v.taken == w.taken && v.fan.chans[h].id == w.fan.chans[h].id
            && Account(v, h) <= Account(w, h) + |chunk|
            && (h !in w.fan.Of(id) ==> Account(v, h) == Account(w, h))
  {
    JoinSnoc(w.fan.chans[h].queue, chunk);
  }

  lemma AccountPop(w: World, step: Step, h: nat)
    requires Enabled(w, step) && (step == TakeStep(h) || step == DrainStep(h)) && h in w.taken
    ensures var v := Next(w, step);
            && h in v.fan.chans && h in v.taken && v.fan.chans[h].id == w.fan.chans[h].id
            && Account(v, h) <= Account(w, h)
  {
    var q := w.fan.chans[h].queue;
    if q != [] {
      JoinHead(q);
      JoinSnoc(w.taken[h], q[0]);
    }
  }

  /** What any registry step does to one subscriber's account: it grows by no more than the log
      of its id. */
  lemma AccountStep(w: World, step: Step, h: nat, id: string)
    requires Fanout.Inv(w) && Enabled(w, step) && h in w.fan.chans && h in w.taken
    requires w.fan.chans[h].id == id && id != ""
    ensures var v := Next(w, step);
            && h in v.fan.chans && h in v.taken && v.fan.chans[h].id == id
            && Account(v, h) - Account(w, h) <= |Join(v.Log(id))| - |Join(w.Log(id))|
  {
    LogOnlyByBroadcast(w, step, id);
    match step
    case SubscribeStep(_, _) =>
    case CancelStep(_) =>
    case BroadcastStep(id', chunk) =>
      AccountBroadcast(w, id', chunk, h);
      JoinSnoc(w.Log(id), chunk);
    case TakeStep(g) =>
      if g == h {
        AccountPop(w, step, h);
      }
    case DrainStep(g) =>
      if g == h {
        AccountPop(w, step, h);
      }
  }

  lemma LogOnlyByBroadcast(w: World, step: Step, id: string)
    requires Enabled(w, step)
    ensures Next(w, step).Log(id) ==
            match step
            case BroadcastStep(id', chunk) =>
              if id' == id && chunk != [] && id != "" then w.Log(id) + [chunk] else w.Log(id)
            case _ => w.Log(id)
  {
  }

  /** A registry step keeps a live client's account in order. */
  lemma LiveStep(s: Session, step: Step, pending: Text)
    requires SessionInv(s) && s.client.Live? && Enabled(s.hub, step)
    ensures ClientOk(s.(hub := Next(s.hub, step), pending := pending))
  {
    AccountStep(s.hub, step, s.client.h, s.id);
  }

  /** The offset a handshake leaves behind, wherever it drops, is no further ahead of the ring
      than the cursor it was given. */
  lemma HandshakeBounds(s: Session, frames: nat)
    requires SessionInv(s) && s.client.Replaying?
    ensures 0 <= Cursor(s, frames) <= |s.ring.hist| + s.lead
    ensures Handshake(s.client).phase.Done? ==> 0 <= Handshake(s.client).phase.endOffset <= |s.ring.hist|
  {
    var Replaying(kept, since, srcs) := s.client;
    if since < 0 {
      CursorlessEnd(since, true, srcs, s.ring);
    } else {
      CatchUpInvariant(since, srcs, s.ring);
      NoLiveByteSkipped(since, srcs, s.ring, frames);
    }
  }

  lemma ClientEvent(s: Session, e: Event)
    requires SessionInv(s) && Can(s, e)
    requires e.Connect? || e.HandshakeAccess? || e.ReceiveClosingSync? || e.DropConnection? || e.Appear? || e.Vanish?
    ensures SessionInv(Do(s, e))
  {
    match e
    case Connect(since) => assert Timeline([], s.ring);
    case Appear =>
    case Vanish =>
    case HandshakeAccess(known) => TimelineSnoc(s.client.srcs, s.ring, s.presence.Alive?, known);
    case ReceiveClosingSync => HandshakeBounds(s, 0);
    case DropConnection(frames) =>
      if s.client.Replaying? {
        HandshakeBounds(s, frames);
      } else if s.client.Live? {
        InvNext(s.hub, CancelStep(s.client.h));
        LogOnlyByBroadcast(s.hub, CancelStep(s.client.h), s.id);
      }
  }

  lemma HubEvent(s: Session, e: Event, step: Step)
    requires SessionInv(s) && Can(s, e)
    requires (e == OtherFanOut(step)) || (e == ReceiveLive && step == TakeStep(s.client.h))
    ensures SessionInv(Do(s, e))
  {
    InvNext(s.hub, step);
    LogOnlyByBroadcast(s.hub, step, s.id);
    if s.client.Live? {
      LiveStep(s, step, s.pending);
    }
  }

  lemma PumpEvent(s: Session, e: Event)
    requires SessionInv(s) && Can(s, e) && (e.PumpWrite? || e.PumpBroadcast?)
    ensures SessionInv(Do(s, e))
  {
    match e
    case PumpWrite(chunk) =>
      if s.client.Replaying? {
        TimelineGrows(s.client.srcs, s.ring, s.ring.Append(chunk));
      }
    case PumpBroadcast =>
      var step := BroadcastStep(s.id, s.pending);
      InvNext(s.hub, step);
      LogOnlyByBroadcast(s.hub, step, s.id);
      JoinSnoc(s.hub.Log(s.id), s.pending);
      if s.client.Live? {
        LiveStep(s, step, []);
      }
  }

  lemma SubscribeEvent(s: Session, h: nat)
    requires SessionInv(s) && Can(s, SubscribeLive(h))
    ensures SessionInv(Do(s, SubscribeLive(h)))
  {
    InvNext(s.hub, SubscribeStep(s.id, h));
    LogOnlyByBroadcast(s.hub, SubscribeStep(s.id, h), s.id);
  }

  lemma EventKeepsInv(s: Session, e: Event)
    requires SessionInv(s) && Can(s, e)
    ensures SessionInv(Do(s, e))
  {
    match e
    case PumpWrite(_) => PumpEvent(s, e);
    case PumpBroadcast => PumpEvent(s, e);
    case SubscribeLive(h) => SubscribeEvent(s, h);
    case ReceiveLive => HubEvent(s, e, TakeStep(s.client.h));
    case OtherFanOut(step) => HubEvent(s, e, step);
    case _ => ClientEvent(s, e);
  }

  lemma {:induction false} RunKeepsInv(s: Session, es: seq<Event>)
    requires SessionInv(s) && Feasible(s, es)
    ensures SessionInv(Play(s, es))
    decreases |es|
  {
    if es != [] {
      EventKeepsInv(s, es[0]);
      RunKeepsInv(Do(s, es[0]), es[1..]);
    }
  }

  /** Every subscription of the run happens between two pump turns, never between a chunk's
      ring write and its broadcast. */
  predicate AtomicPump(s: Session, es: seq<Event>)
    requires Feasible(s, es)
    decreases |es|
  {
    es == [] || ((es[0].SubscribeLive? ==> s.pending == []) && AtomicPump(Do(s, es[0]), es[1..]))
  }

  lemma {:induction false} NoLead(s: Session, es: seq<Event>)
    requires Feasible(s, es) && AtomicPump(s, es) && s.lead == 0
    ensures Play(s, es).lead == 0
    decreases |es|
  {
    if es != [] {
      NoLead(Do(s, es[0]), es[1..]);
    }
  }

  /** In every run with any number of reconnects the client's cursor is ahead of the ring by at
      most the one chunk that sat between its ring write and its broadcast when the client last
      subscribed, and never ahead when the pump's two steps are one. */
  lemma CursorNeverRunsAhead(id: string, cap: int, es: seq<Event>, frames: nat)
    requires id != "" && Feasible(Start(id, cap), es)
    ensures var s := Play(Start(id, cap), es);
            && 0 <= Cursor(s, frames) <= |s.ring.hist| + s.lead
            && (AtomicPump(Start(id, cap), es) ==> Cursor(s, frames) <= |s.ring.hist|)
  {
    RunKeepsInv(Start(id, cap), es);
    var s := Play(Start(id, cap), es);
    if s.client.Replaying? {
      HandshakeBounds(s, frames);
    }
    if AtomicPump(Start(id, cap), es) {
      NoLead(Start(id, cap), es);
    }
  }

  // ---- what a live cursor means ----

  /** The offset in the instance's output where subscriber `h` joined the live stream. */
  function JoinedAt(w: World, id: string, h: nat): nat
    requires h in w.joined && w.joined[h] <= |w.Log(id)|
  {
    |Join(w.Log(id)[..w.joined[h]])|
  }

  lemma MiddleSlice(a: Text, b: Text, c: Text, d: Text)
    ensures (a + (b + c) + d)[|a|..|a| + |b|] == b
  {
  }

  lemma LiveSlice(hist: Text, pending: Text, log: seq<Text>, from: nat, taken: seq<Text>, queue: seq<Text>)
    requires from <= |log| && hist == Join(log) + pending && log[from..] == taken + queue
    ensures var at, got := |Join(log[..from])|, Join(taken);
            at + |got| <= |hist| && hist[at..at + |got|] == got
  {
    var before, got := Join(log[..from]), Join(taken);
    assert log == log[..from] + log[from..];
    JoinConcat(log[..from], log[from..]);
    JoinConcat(taken, queue);
    MiddleSlice(before, got, Join(queue), pending);
  }

  /** While the client is live and has not been disconnected, what it received live is exactly
      the output from the point where it joined. */
  lemma LiveBytesExact(id: string, cap: int, es: seq<Event>)
    requires id != "" && Feasible(Start(id, cap), es)
    requires var s := Play(Start(id, cap), es);
             s.client.Live? && s.client.h in s.hub.fan.chans && !s.hub.fan.chans[s.client.h].closed
    ensures var s := Play(Start(id, cap), es);
            var h := s.client.h;
            && h in s.hub.joined && h in s.hub.taken && s.hub.joined[h] <= |s.hub.Log(s.id)|
            && var at := JoinedAt(s.hub, s.id, h);
               var got := Join(s.hub.taken[h]);
               && at + |got| <= |s.ring.hist|
               && s.ring.hist[at..at + |got|] == got
               && Cursor(s, 0) == s.client.end + |got|
  {
    RunKeepsInv(Start(id, cap), es);
    var s := Play(Start(id, cap), es);
    LiveBytes(s);
  }

  lemma LiveBytes(s: Session)
    requires SessionInv(s) && s.client.Live? && !s.hub.fan.chans[s.client.h].closed
    ensures var h := s.client.h;
            && h in s.hub.joined && h in s.hub.taken && s.hub.joined[h] <= |s.hub.Log(s.id)|
            && var at := JoinedAt(s.hub, s.id, h);
               var got := Join(s.hub.taken[h]);
               && at + |got| <= |s.ring.hist|
               && s.ring.hist[at..at + |got|] == got
  {
    var h := s.client.h;
    assert NoGaps(s.hub, h);
    LiveSlice(s.ring.hist, s.pending, s.hub.Log(s.id), s.hub.joined[h], s.hub.taken[h], s.hub.fan.chans[h].queue);
  }

  // ---- what the handshake before it had delivered ----

  /** The handshake went exactly as far as its last access. */
  ghost predicate LastUsed(since: int, srcs: seq<Source>) {
    srcs != [] ==> Drive(Begin(since, true), srcs[..|srcs| - 1]).Active()
  }

  ghost predicate HandshakeDone(since: int, srcs: seq<Source>, end: int, now: Ring) {
    && srcs != [] && LastUsed(since, srcs) && Timeline(srcs, now)
    && Drive(Begin(since, true), srcs).phase == Done(end)
  }

  /** Once an access found the instance running, every later one did. */
  ghost predicate Rising(srcs: seq<Source>) {
    forall i, j | 0 <= i < j < |srcs| && srcs[i].running :: srcs[j].running
  }

  ghost predicate SawPresence(presence: Presence, srcs: seq<Source>) {
    && (!presence.Gone? ==> Rising(srcs))
    && (presence.Unborn? ==> forall i | 0 <= i < |srcs| :: !srcs[i].running)
  }

  ghost predicate JoinOk(w: World, id: string, h: nat, join: int) {
    h in w.fan.chans && h in w.joined && w.joined[h] <= |w.Log(id)| && JoinedAt(w, id, h) == join
  }

  /** What the phases remember is what happened. */
  ghost predicate Remembers(s: Session) {
    match s.client
    case Offline(_) => true
    case Replaying(_, since, srcs) => LastUsed(since, srcs) && Timeline(srcs, s.ring) && SawPresence(s.presence, srcs)
    case Synced(end, since, srcs) => HandshakeDone(since, srcs, end, s.ring) && SawPresence(s.presence, srcs)
    case Live(h, end, since, srcs, join) =>
      HandshakeDone(since, srcs, end, s.ring) && Rising(srcs) && JoinOk(s.hub, s.id, h, join)
  }

  lemma DoneGrows(since: int, srcs: seq<Source>, end: int, now: Ring, later: Ring)
    requires HandshakeDone(since, srcs, end, now) && Evolves(now, later)
    ensures HandshakeDone(since, srcs, end, later)
  {
    TimelineGrows(srcs, now, later);
  }

  lemma JoinStays(w: World, step: Step, id: string, h: nat, join: int)
    requires Enabled(w, step) && JoinOk(w, id, h, join)
    ensures JoinOk(Next(w, step), id, h, join)
  {
    LogOnlyByBroadcast(w, step, id);
    var n := w.joined[h];
    assert Next(w, step).Log(id)[..n] == w.Log(id)[..n];
  }

  lemma RemembersHub(s: Session, step: Step, pending: Text)
    requires Remembers(s) && Enabled(s.hub, step)
    ensures Remembers(s.(hub := Next(s.hub, step), pending := pending))
  {
    if s.client.Live? {
      JoinStays(s.hub, step, s.id, s.client.h, s.client.join);
    }
  }

  lemma RemembersWrite(s: Session, chunk: Text)
    requires SessionInv(s) && Remembers(s) && Can(s, PumpWrite(chunk))
    ensures Remembers(Do(s, PumpWrite(chunk)))
  {
    var later := s.ring.Append(chunk);
    match s.client
    case Offline(_) =>
    case Replaying(_, _, srcs) => TimelineGrows(srcs, s.ring, later);
    case Synced(end, since, srcs) => DoneGrows(since, srcs, end, s.ring, later);
    case Live(_, end, since, srcs, _) => DoneGrows(since, srcs, end, s.ring, later);
  }

  lemma RemembersAccess(s: Session, known: bool)
    requires Remembers(s) && Can(s, HandshakeAccess(known))
    ensures Remembers(Do(s, HandshakeAccess(known)))
  {
    var srcs := s.client.srcs;
    var src := Source(s.ring, s.presence.Alive?, known);
    TimelineSnoc(srcs, s.ring, s.presence.Alive?, known);
    assert (srcs + [src])[..|srcs|] == srcs;
  }

  lemma RemembersSubscribe(s: Session, h: nat)
    requires SessionInv(s) && Remembers(s) && Can(s, SubscribeLive(h))
    ensures Remembers(Do(s, SubscribeLive(h)))
  {
    var log := s.hub.Log(s.id);
    assert log[..|log|] == log;
  }

  lemma EventRemembers(s: Session, e: Event)
    requires SessionInv(s) && Remembers(s) && Can(s, e)
    ensures Remembers(Do(s, e))
  {
    match e
    case PumpWrite(chunk) => RemembersWrite(s, chunk);
    case PumpBroadcast => RemembersHub(s, BroadcastStep(s.id, s.pending), []);
    case Connect(_) =>
    case Appear =>
    case Vanish =>
    case HandshakeAccess(known) => RemembersAccess(s, known);
    case ReceiveClosingSync => assert s.client.srcs != [];
    case SubscribeLive(h) => RemembersSubscribe(s, h);
    case ReceiveLive => RemembersHub(s, TakeStep(s.client.h), s.pending);
    case DropConnection(_) =>
    case OtherFanOut(step) => RemembersHub(s, step, s.pending);
  }

  lemma {:induction false} RunRemembers(s: Session, es: seq<Event>)
    requires SessionInv(s) && Remembers(s) && Feasible(s, es)
    ensures Remembers(Play(s, es))
    decreases |es|
  {
    if es != [] {
      EventRemembers(s, es[0]);
      EventKeepsInv(s, es[0]);
      RunRemembers(Do(s, es[0]), es[1..]);
    }
  }

  /** Where a finished handshake began to deliver: at the presented cursor or, without a usable
      one, at the first byte of the tail it sent (at its end when it sent none). */
  function DeliveredFrom(since: int, r: Replay): int
    requires r.phase.Done?
  {
    if 0 <= since <= r.phase.endOffset then since else r.phase.endOffset - Sum(r.chunks, |r.chunks|)
  }

  /** The client was sent offset `k` by its replay or live, or `k` had been evicted at one of
      the replay's reads. */
  ghost predicate Got(k: int, since: int, srcs: seq<Source>, join: int, live: nat) {
    var chunks := Drive(Begin(since, true), srcs).chunks;
    SentIn(k, chunks, |chunks|) || EvictedAt(k, srcs) || join <= k < join + live
  }

  lemma {:induction false} ChunkBelow(since: int, chunks: seq<Chunk>, i: nat, n: nat)
    requires Forward(since, chunks) && i < n <= |chunks|
    ensures chunks[i].End() <= Reached(since, chunks, n)
    decreases n
  {
    if i < n - 1 {
      ChunkBelow(since, chunks, i, n - 1);
      assert Reached(since, chunks, n - 1) <= chunks[n - 1].start <= chunks[n - 1].End();
    }
  }

  lemma ChunksBelow(since: int, chunks: seq<Chunk>, k: int)
    requires Forward(since, chunks) && k >= Reached(since, chunks, |chunks|)
    ensures !SentIn(k, chunks, |chunks|)
  {
    if SentIn(k, chunks, |chunks|) {
      var i :| 0 <= i < |chunks| && chunks[i].start <= k < chunks[i].End();
      ChunkBelow(since, chunks, i, |chunks|);
    }
  }

  lemma OldestGrows(a: Ring, b: Ring)
    requires Evolves(a, b) && !b.closed
    ensures a.Oldest() <= b.Oldest()
  {
  }

  /** The offset a replay ends with is not below what its last access still held. */
  lemma EndsHeld(p: Replay, s: Source, end: int)
    requires p.Active() && s.running && Access(p, s).phase == Done(end)
    ensures s.ring.Oldest() <= end
  {
    if p.phase.Reading? && p.cursor >= 0 {
      ReadSinceContract(s.ring, p.cursor, CHUNK);
    }
  }

  lemma NothingEvictedPast(since: int, srcs: seq<Source>, end: int, now: Ring, k: int)
    requires HandshakeDone(since, srcs, end, now) && Rising(srcs) && !now.closed && k >= end
    ensures !EvictedAt(k, srcs)
  {
    var n := |srcs| - 1;
    assert srcs[..n] + [srcs[n]] == srcs;
    if srcs[n].running {
      EndsHeld(Drive(Begin(since, true), srcs[..n]), srcs[n], end);
    }
    forall j | 0 <= j < |srcs| && srcs[j].running
      ensures srcs[j].ring.Oldest() <= end
    {
      assert Evolves(srcs[n].ring, now);
      if j < n {
        OldestGrows(srcs[j].ring, srcs[n].ring);
      }
    }
  }

  /** A replay that ended has sent or found evicted every offset from where it began up to its
      end, and sent none beyond. */
  lemma ReplayCovers(since: int, srcs: seq<Source>, end: int, now: Ring, k: int)
    requires HandshakeDone(since, srcs, end, now)
    ensures var r := Drive(Begin(since, true), srcs);
            && 0 <= DeliveredFrom(since, r) <= end
            && (DeliveredFrom(since, r) <= k < end ==> SentIn(k, r.chunks, |r.chunks|) || EvictedAt(k, srcs))
            && (k >= end ==> !SentIn(k, r.chunks, |r.chunks|))
  {
    if since >= 0 {
      CatchUpCovers(since, srcs, end, now, k);
    } else {
      TailCovers(since, srcs, end, now, k);
    }
  }

  lemma CatchUpCovers(since: nat, srcs: seq<Source>, end: int, now: Ring, k: int)
    requires HandshakeDone(since, srcs, end, now)
    ensures var r := Drive(Begin(since, true), srcs);
            && 0 <= DeliveredFrom(since, r) <= end
            && (DeliveredFrom(since, r) <= k < end ==> SentIn(k, r.chunks, |r.chunks|) || EvictedAt(k, srcs))
            && (k >= end ==> !SentIn(k, r.chunks, |r.chunks|))
  {
    var r := Drive(Begin(since, true), srcs);
    CatchUpInvariant(since, srcs, now);
    if BeyondHead(r, since) {
      OneChunk(r.chunks, end, now, k);
    } else {
      if since <= k < r.cursor {
        CoveredUpTo(since, r.chunks, srcs, |r.chunks|, k);
      }
      if k >= end {
        ChunksBelow(since, r.chunks, k);
      }
    }
  }

  /** At most one chunk, and it ends at `end`. */
  lemma OneChunk(chunks: seq<Chunk>, end: int, now: Ring, k: int)
    requires |chunks| <= 1 && 0 <= end
    requires forall i | 0 <= i < |chunks| :: IsSlice(chunks[i], now) && chunks[i].End() == end
    ensures 0 <= end - Sum(chunks, |chunks|) <= end
    ensures SentIn(k, chunks, |chunks|) <==> end - Sum(chunks, |chunks|) <= k < end
  {
    if |chunks| == 1 {
      assert Sum(chunks, 1) == Sum(chunks, 0) + |chunks[0].data|;
      assert IsSlice(chunks[0], now);
    }
  }

  /** A cursorless handshake is one access. */
  lemma CursorlessOnce(since: int, srcs: seq<Source>, now: Ring)
    requires since < 0 && srcs != [] && LastUsed(since, srcs) && Timeline(srcs, now)
    ensures |srcs| == 1 && Drive(Begin(since, true), srcs) == Access(Begin(since, true), srcs[0])
  {
    CursorlessEnd(since, true, srcs[..|srcs| - 1], now);
    assert srcs[..0] == [];
  }

  lemma TailCovers(since: int, srcs: seq<Source>, end: int, now: Ring, k: int)
    requires since < 0 && HandshakeDone(since, srcs, end, now)
    ensures var r := Drive(Begin(since, true), srcs);
            && 0 <= DeliveredFrom(since, r) <= end
            && (DeliveredFrom(since, r) <= k < end <==> SentIn(k, r.chunks, |r.chunks|))
  {
    CursorlessOnce(since, srcs, now);
    var r, s := Drive(Begin(since, true), srcs), srcs[0];
    assert Evolves(s.ring, now);
    if s.running && s.known {
      ManagerTailExact(s, CHUNK);
    }
    OneChunk(r.chunks, end, now, k);
  }

  /** How much a cursorless handshake with a live instance sends. */
  lemma CursorlessSum(since: int, s: Source)
    requires since < 0 && s.running && s.known
    ensures var r := Access(Begin(since, true), s);
            && r.phase == Done(s.ring.Head())
            && Sum(r.chunks, |r.chunks|) == if since == FOLLOW_LIVE_END then 0 else Min(CHUNK, s.ring.Used())
  {
    ManagerTailExact(s, CHUNK);
    var r := Access(Begin(since, true), s);
    if r.chunks != [] {
      assert Sum(r.chunks, 1) == Sum(r.chunks, 0) + |r.chunks[0].data|;
    }
  }

  /** The modes without a cursor send at most the newest 64 KB or nothing: exactly the offsets
      below this are behind the client's cursor without ever having been sent, held or not. */
  lemma CursorlessSkips(since: int, srcs: seq<Source>, end: int, now: Ring, k: int)
    requires since < 0 && HandshakeDone(since, srcs, end, now) && srcs[0].running
    ensures var r := Drive(Begin(since, true), srcs);
            && end == srcs[0].ring.Head()
            && DeliveredFrom(since, r)
               == end - (if since == FOLLOW_LIVE_END then 0 else Min(CHUNK, srcs[0].ring.Used()))
            && (0 <= k < end && !SentIn(k, r.chunks, |r.chunks|) <==> 0 <= k < DeliveredFrom(since, r))
  {
    CursorlessOnce(since, srcs, now);
    TailCovers(since, srcs, end, now, k);
    assert srcs[0].known;
    CursorlessSum(since, srcs[0]);
  }

  /** Every offset from where delivery began up to `upTo` reached the client or was evicted. */
  ghost predicate GotAll(since: int, srcs: seq<Source>, upTo: int, join: int, live: nat)
    requires Drive(Begin(since, true), srcs).phase.Done?
  {
    forall k | DeliveredFrom(since, Drive(Begin(since, true), srcs)) <= k < upTo :: Got(k, since, srcs, join, live)
  }

  /** A client that has not been disconnected stands at the closing sync's offset plus what it
      received live, which is the output from where it joined; and this cursor has passed only
      offsets it got exactly when the closing sync named the joining offset or nothing has
      arrived live. */
  ghost predicate CursorTruth(s: Session) {
    match s.client
    case Live(h, end, since, srcs, join) =>
      h in s.hub.fan.chans && !s.hub.fan.chans[h].closed ==>
        && h in s.hub.taken && srcs != [] && Drive(Begin(since, true), srcs).phase == Done(end)
        && var got := Join(s.hub.taken[h]);
           && Cursor(s, 0) == end + |got|
           && 0 <= join && join + |got| <= |s.ring.hist| && s.ring.hist[join..join + |got|] == got
           && (GotAll(since, srcs, end + |got|, join, |got|) <==> end == join || |got| == 0)
    case _ => true
  }

  ghost predicate LiveFacts(s: Session)
    requires s.client.Live?
  {
    var Live(h, end, since, srcs, join) := s.client;
    && HandshakeDone(since, srcs, end, s.ring) && Rising(srcs) && !s.ring.closed && h in s.hub.taken
    && var got := Join(s.hub.taken[h]);
       0 <= join && join + |got| <= |s.ring.hist| && s.ring.hist[join..join + |got|] == got
  }

  lemma LiveHasFacts(s: Session)
    requires SessionInv(s) && Remembers(s) && s.client.Live? && !s.hub.fan.chans[s.client.h].closed
    ensures LiveFacts(s)
  {
    LiveBytes(s);
  }

  lemma FactsGiveTruth(s: Session)
    requires s.client.Live? && LiveFacts(s)
    ensures CursorTruth(s)
  {
    CoverageIff(s.client.since, s.client.srcs, s.client.end, s.ring, s.client.join, |Join(s.hub.taken[s.client.h])|);
  }

  lemma LiveTruth(s: Session)
    requires SessionInv(s) && Remembers(s)
    ensures CursorTruth(s)
  {
    if s.client.Live? && !s.hub.fan.chans[s.client.h].closed {
      LiveHasFacts(s);
      FactsGiveTruth(s);
    }
  }

  /** In every run, for a client live on an open subscription: its cursor has passed only
      offsets that were sent to it or had been evicted exactly when the closing sync named the
      offset at which the subscription joined (so that nothing was written in between and no
      chunk was caught between its write and its broadcast), or nothing has arrived live.
      Otherwise the cursor stands past a byte nobody delivered, and a reconnect will not ask for
      it. */
  lemma LiveCursorTruthful(id: string, cap: int, es: seq<Event>)
    requires id != "" && Feasible(Start(id, cap), es)
    ensures CursorTruth(Play(Start(id, cap), es))
  {
    RunKeepsInv(Start(id, cap), es);
    RunRemembers(Start(id, cap), es);
    LiveTruth(Play(Start(id, cap), es));
  }

  lemma CoverageIff(since: int, srcs: seq<Source>, end: nat, now: Ring, join: int, live: nat)
    requires HandshakeDone(since, srcs, end, now) && Rising(srcs) && !now.closed
    ensures GotAll(since, srcs, end + live, join, live) <==> end == join || live == 0
  {
    var from := DeliveredFrom(since, Drive(Begin(since, true), srcs));
    ReplayCovers(since, srcs, end, now, end);
    if end == join || live == 0 {
      forall k | from <= k < end + live
        ensures Got(k, since, srcs, join, live)
      {
        ReplayCovers(since, srcs, end, now, k);
      }
    } else {
      var k := if end < join then end else end + live - 1;
      ReplayCovers(since, srcs, end, now, k);
      NothingEvictedPast(since, srcs, end, now, k);
      assert !Got(k, since, srcs, join, live);
    }
  }

  lemma FeasibleCons(s: Session, e: Event, es: seq<Event>)
    requires Can(s, e) && Feasible(Do(s, e), es)
    ensures Feasible(s, [e] + es) && Play(s, [e] + es) == Play(Do(s, e), es)
  {
    assert ([e] + es)[1..] == es;
  }

  /** The idle reconnect: cursor 0 over an empty ring. */
  lemma IdleHandshake(ring: Ring)
    requires ring.hist == []
    ensures var s := Source(ring, true, true);
            && Drive(Begin(0, true), []).phase.Reading?
            && Drive(Begin(0, true), [s]).phase.Consulting?
            && Drive(Begin(0, true), [s, s]).phase == Done(0)
            && Drive(Begin(0, true), [s, s]).chunks == []
  {
    var s := Source(ring, true, true);
    DriveStep(Begin(0, true), [], s);
    DriveStep(Begin(0, true), [s], s);
    assert [] + [s] == [s] && [s] + [s] == [s, s];
  }

  /** Live on subscription 0 after one byte nobody delivered: the next byte arrives live. */
  lemma ThenLive(s7: Session, srcs: seq<Source>) returns (es: seq<Event>)
    requires IdleReads(srcs)
    requires s7.id == "pty" && s7.ring == Ring(16, [65], false) && s7.pending == []
    requires s7.client == Live(0, 0, 0, srcs, 1)
    requires s7.hub.fan.Of("pty") == {0} && s7.hub.fan.chans == map[0 := Chan("pty", [], false)]
    requires 0 in s7.hub.taken && s7.hub.taken[0] == []
    ensures Feasible(s7, es) && Lies(Play(s7, es))
  {
    var s8 := Do(s7, PumpWrite([66]));
    var s9 := Do(s8, PumpBroadcast);
    assert s9.hub.fan.chans[0].queue == [[66]];
    WindowFinal(Do(s9, ReceiveLive), srcs);
    es := [];
    FeasibleCons(s9, ReceiveLive, es); es := [ReceiveLive] + es;
    FeasibleCons(s8, PumpBroadcast, es); es := [PumpBroadcast] + es;
    FeasibleCons(s7, PumpWrite([66]), es); es := [PumpWrite([66])] + es;
  }

  /** One byte written before the subscription, the next one received live. */
  lemma WindowThenLive(s4: Session, srcs: seq<Source>) returns (es: seq<Event>)
    requires IdleReads(srcs) && s4 == Start("pty", 16).(presence := Alive, client := Synced(0, 0, srcs))
    ensures Feasible(s4, es) && Lies(Play(s4, es))
  {
    var s5 := Do(s4, PumpWrite([65]));
    var s6 := Do(s5, PumpBroadcast);
    es := ThenLive(Do(s6, SubscribeLive(0)), srcs);
    FeasibleCons(s6, SubscribeLive(0), es); es := [SubscribeLive(0)] + es;
    FeasibleCons(s5, PumpBroadcast, es); es := [PumpBroadcast] + es;
    FeasibleCons(s4, PumpWrite([65]), es); es := [PumpWrite([65])] + es;
  }

  /** Two reads of the empty ring, nothing sent. */
  ghost predicate IdleReads(srcs: seq<Source>) {
    && srcs == [Source(Ring(16, [], false), true, true), Source(Ring(16, [], false), true, true)]
    && Drive(Begin(0, true), srcs).chunks == []
  }

  /** The cursor stands at 1; byte 0 was never sent, was not evicted, and the ring holds it. */
  ghost predicate Lies(s: Session) {
    && s.client.Live? && Cursor(s, 0) == 1 && s.client.since == 0
    && 0 in s.hub.taken && s.client.h == 0
    && !Got(0, s.client.since, s.client.srcs, s.client.join, |Join(s.hub.taken[0])|)
    && s.ring.hist == [65, 66] && s.ring.Oldest() == 0
  }

  lemma WindowFinal(s: Session, srcs: seq<Source>)
    requires IdleReads(srcs)
    requires s.id == "pty" && s.ring == Ring(16, [65, 66], false) && s.client == Live(0, 0, 0, srcs, 1)
    requires 0 in s.hub.taken && s.hub.taken[0] == [[66]]
    ensures Lies(s)
  {
    JoinHead([[66]]);
    assert !EvictedAt(0, srcs);
  }

  /** A run in which the live cursor lies: one byte is written between the last replay read and
      the subscription, the next one arrives live, and the cursor then stands past a byte that
      was never delivered and is still in the ring. */
  lemma WindowIsSkipped() returns (es: seq<Event>)
    ensures Feasible(Start("pty", 16), es)
    ensures Lies(Play(Start("pty", 16), es))
  {
    var start := Start("pty", 16);
    IdleHandshake(start.ring);
    var src := Source(start.ring, true, true);
    var s0 := Do(start, Appear);
    var s1 := Do(s0, Connect(0));
    var s2 := Do(s1, HandshakeAccess(true));
    assert s2.client.srcs == [src];
    var s3 := Do(s2, HandshakeAccess(true));
    assert s3.client.srcs == [src, src];
    es := WindowThenLive(Do(s3, ReceiveClosingSync), [src, src]);
    FeasibleCons(s3, ReceiveClosingSync, es); es := [ReceiveClosingSync] + es;
    FeasibleCons(s2, HandshakeAccess(true), es); es := [HandshakeAccess(true)] + es;
    FeasibleCons(s1, HandshakeAccess(true), es); es := [HandshakeAccess(true)] + es;
    FeasibleCons(s0, Connect(0), es); es := [Connect(0)] + es;
    FeasibleCons(start, Appear, es); es := [Appear] + es;
  }
}
