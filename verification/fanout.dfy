/** The live output fan-out of the PTY kind (internal/instance/pty/driver.go): a registry of
    subscribers per instance id, each with a bounded queue, where a subscriber that cannot keep
    up is disconnected rather than made to miss a chunk. */
module Fanout {
  import opened RingBuffers

  const QUEUE: nat := 64

  type Text = seq<byte>

  /** A subscriber's channel. Subscribers are pointers in the source and numbers here; `id` is
      the instance its registration and its cancel closure captured. */
  datatype Chan = Chan(id: string, queue: seq<Text>, closed: bool)

  datatype Fan = Fan(subs: map<string, set<nat>>, chans: map<nat, Chan>) {
    function Of(id: string): set<nat> { if id in subs then subs[id] else {} }
  }

  /** Every registered subscriber is open and sits under its own id, every open channel is
      registered, an id is a key only while it has a subscriber, and no queue overruns. */
  ghost predicate Sound(f: Fan) {
    && "" !in f.subs
    && (forall id | id in f.subs :: f.subs[id] != {})
    && (forall id, h | id in f.subs && h in f.subs[id] :: h in f.chans && f.chans[h].id == id && !f.chans[h].closed)
    && (forall h | h in f.chans && !f.chans[h].closed :: f.chans[h].id in f.subs && h in f.subs[f.chans[h].id])
    && (forall h | h in f.chans :: |f.chans[h].queue| <= QUEUE)
  }

  /** Delete `gone` from the set under `id`, and the key with its last subscriber. */
  function Shrunk(subs: map<string, set<nat>>, id: string, gone: set<nat>): map<string, set<nat>> {
    if id !in subs then subs
    else if subs[id] - gone == {} then subs - {id}
    else subs[id := subs[id] - gone]
  }

  lemma ShrunkByNone(subs: map<string, set<nat>>, id: string)
    requires id in subs ==> subs[id] != {}
    ensures Shrunk(subs, id, {}) == subs
  {
    if id in subs {
      assert subs[id] - {} == subs[id];
    }
  }

  function Subscribe(f: Fan, id: string, h: nat): Fan {
    if id == "" then f else Fan(f.subs[id := f.Of(id) + {h}], f.chans[h := Chan(id, [], false)])
  }

  function Cancel(f: Fan, h: nat): Fan
    requires h in f.chans
  {
    Fan(Shrunk(f.subs, f.chans[h].id, {h}), f.chans[h := f.chans[h].(closed := true)])
  }

  /** The subscribers a broadcast to `id` disconnects. */
  function Overflowing(f: Fan, id: string): set<nat> {
    set h | h in f.Of(id) && h in f.chans && |f.chans[h].queue| >= QUEUE
  }

  function Offer(c: Chan, chunk: Text): Chan {
    if |c.queue| < QUEUE then c.(queue := c.queue + [chunk]) else c.(closed := true)
  }

  function Broadcast(f: Fan, id: string, chunk: Text): Fan {
    if chunk == [] || id == "" then f
    else
      Fan(Shrunk(f.subs, id, Overflowing(f, id)),
          map h | h in f.chans :: if h in f.Of(id) then Offer(f.chans[h], chunk) else f.chans[h])
  }

  /** One receive from the channel, by the consumer or by a drain. */
  function Pop(f: Fan, h: nat): Fan
    requires h in f.chans && f.chans[h].queue != []
  {
    f.(chans := f.chans[h := f.chans[h].(queue := f.chans[h].queue[1..])])
  }

  // ---- histories ----

  /** What has happened so far: the non-empty chunks broadcast to each id, where in that log
      each subscriber joined, what its consumer has received, whose backlog an overflow is
      discarding, and who has lost chunks to that. */
  datatype World = World(fan: Fan, log: map<string, seq<Text>>, joined: map<nat, nat>, taken: map<nat, seq<Text>>,
                         draining: set<nat>, lossy: set<nat>)
  {
    function Log(id: string): seq<Text> { if id in log then log[id] else [] }
  }

  const EMPTY := World(Fan(map[], map[]), map[], map[], map[], {}, {})

  datatype Step =
    | SubscribeStep(id: string, h: nat)
    | CancelStep(h: nat)
    | BroadcastStep(id: string, chunk: Text)
    | TakeStep(h: nat)
    | DrainStep(h: nat)

  /** A step is enabled when the source could take it: handles are fresh pointers, cancel and
      receive need a subscription, and a receive needs a value to receive. */
  predicate Enabled(w: World, s: Step) {
    match s
    case SubscribeStep(id, h) => h !in w.fan.chans
    case CancelStep(h) => h in w.fan.chans
    case BroadcastStep(id, chunk) => true
    case TakeStep(h) => h in w.fan.chans && w.fan.chans[h].queue != [] && h in w.taken
    case DrainStep(h) => h in w.draining && h in w.fan.chans
  }

  function Next(w: World, s: Step): World
    requires Enabled(w, s)
  {
    match s
    case SubscribeStep(id, h) =>
      if id == "" then w
      else w.(fan := Subscribe(w.fan, id, h), joined := w.joined[h := |w.Log(id)|], taken := w.taken[h := []])
    case CancelStep(h) => w.(fan := Cancel(w.fan, h))
    case BroadcastStep(id, chunk) =>
      if chunk == [] || id == "" then w
      else
        w.(fan := Broadcast(w.fan, id, chunk), log := w.log[id := w.Log(id) + [chunk]],
        draining := w.draining + Overflowing(w.fan, id))
    case TakeStep(h) =>
      w.(fan := Pop(w.fan, h), taken := w.taken[h := w.taken[h] + [w.fan.chans[h].queue[0]]])
    case DrainStep(h) =>
      if w.fan.chans[h].queue == [] then w.(draining := w.draining - {h})
      else w.(fan := Pop(w.fan, h), lossy := w.lossy + {h})
  }

  /** What `h` has received and what is queued for it, in order. */
  function Held(w: World, h: nat): seq<Text>
    requires h in w.fan.chans && h in w.taken
  {
    w.taken[h] + w.fan.chans[h].queue
  }

  /** What was broadcast to `h`'s id since it subscribed. */
  function Owed(w: World, h: nat): seq<Text>
    requires h in w.fan.chans && h in w.joined && w.joined[h] <= |w.Log(w.fan.chans[h].id)|
  {
    w.Log(w.fan.chans[h].id)[w.joined[h]..]
  }

  /** While its channel is open a subscriber holds exactly what it is owed; after a cancel it
      still holds an exact prefix of it. */
  ghost predicate NoGaps(w: World, h: nat)
    requires h in w.fan.chans
  {
    && h in w.joined && h in w.taken
    && w.joined[h] <= |w.Log(w.fan.chans[h].id)|
    && (h !in w.lossy ==> Held(w, h) <= Owed(w, h))
    && (!w.fan.chans[h].closed ==> h !in w.lossy && Held(w, h) == Owed(w, h))
  }

  ghost predicate Inv(w: World) {
    && Sound(w.fan)
    && (forall h | h in w.fan.chans :: NoGaps(w, h))
    && (forall h | h in w.draining :: h in w.fan.chans && w.fan.chans[h].closed)
    && (forall h | h in w.lossy :: h in w.fan.chans)
  }

  lemma SoundSubscribe(f: Fan, id: string, h: nat)
    requires Sound(f) && h !in f.chans
    ensures Sound(Subscribe(f, id, h))
  {
  }

  lemma SoundCancel(f: Fan, h: nat)
    requires Sound(f) && h in f.chans
    ensures Sound(Cancel(f, h))
  {
    var g, id := Cancel(f, h), f.chans[h].id;
    forall h' | h' in g.chans && !g.chans[h'].closed
      ensures g.chans[h'].id in g.subs && h' in g.subs[g.chans[h'].id]
    {
      assert h' != h && h' in f.subs[f.chans[h'].id];
      if f.chans[h'].id == id {
        assert h' in f.subs[id] - {h};
      }
    }
  }

  lemma SoundBroadcast(f: Fan, id: string, chunk: Text)
    requires Sound(f)
    ensures Sound(Broadcast(f, id, chunk))
  {
    if chunk != [] && id != "" {
      var g := Broadcast(f, id, chunk);
      var keep := f.Of(id) - Overflowing(f, id);
      forall h | h in g.chans && !g.chans[h].closed
        ensures g.chans[h].id in g.subs && h in g.subs[g.chans[h].id]
      {
        assert !f.chans[h].closed;
        if f.chans[h].id == id {
          assert h in keep;
        }
      }
    }
  }

  lemma SoundPop(f: Fan, h: nat)
    requires Sound(f) && h in f.chans && f.chans[h].queue != []
    ensures Sound(Pop(f, h))
  {
  }

  lemma SoundNext(w: World, s: Step)
    requires Sound(w.fan) && Enabled(w, s)
    ensures Sound(Next(w, s).fan)
  {
    match s
    case SubscribeStep(id, h) => SoundSubscribe(w.fan, id, h);
    case CancelStep(h) => SoundCancel(w.fan, h);
    case BroadcastStep(id, chunk) => SoundBroadcast(w.fan, id, chunk);
    case TakeStep(h) => SoundPop(w.fan, h);
    case DrainStep(h) =>
      if w.fan.chans[h].queue != [] {
        SoundPop(w.fan, h);
      }
  }

  /** One subscriber's view of a broadcast to its own id. */
  lemma OfferKeepsOwed(c: Chan, chunk: Text, got: seq<Text>, log: seq<Text>, from: nat)
    requires from <= |log|
    ensures (log + [chunk])[from..] == log[from..] + [chunk]
    ensures got + c.queue <= log[from..] ==> got + c.queue <= (log + [chunk])[from..]
    ensures !Offer(c, chunk).closed && got + c.queue == log[from..] ==>
              got + Offer(c, chunk).queue == (log + [chunk])[from..]
    ensures Offer(c, chunk).closed && !c.closed ==> Offer(c, chunk).queue == c.queue
  {
    assert got + (c.queue + [chunk]) == got + c.queue + [chunk];
  }

  lemma NoGapsBroadcast(w: World, id: string, chunk: Text, h: nat)
    requires Sound(w.fan) && h in w.fan.chans && NoGaps(w, h) && chunk != [] && id != ""
    ensures NoGaps(Next(w, BroadcastStep(id, chunk)), h)
  {
    var c := w.fan.chans[h];
    if c.id == id {
      OfferKeepsOwed(c, chunk, w.taken[h], w.Log(id), w.joined[h]);
      if !c.closed {
        assert h in w.fan.Of(id);
      } else {
        assert h !in w.fan.Of(id);
      }
    } else {
      assert h !in w.fan.Of(id);
    }
  }

  lemma NoGapsSubscribe(w: World, id: string, g: nat, h: nat)
    requires Inv(w) && Enabled(w, SubscribeStep(id, g)) && h in Next(w, SubscribeStep(id, g)).fan.chans
    ensures NoGaps(Next(w, SubscribeStep(id, g)), h)
  {
    if h in w.fan.chans {
      assert NoGaps(w, h);
    } else {
      assert h !in w.lossy;
      assert w.Log(id)[|w.Log(id)|..] == [];
    }
  }

  lemma NoGapsCancel(w: World, g: nat, h: nat)
    requires Inv(w) && Enabled(w, CancelStep(g)) && h in w.fan.chans
    ensures NoGaps(Next(w, CancelStep(g)), h)
  {
    assert NoGaps(w, h);
  }

  lemma NoGapsTake(w: World, g: nat, h: nat)
    requires Inv(w) && Enabled(w, TakeStep(g)) && h in w.fan.chans
    ensures NoGaps(Next(w, TakeStep(g)), h)
  {
    assert NoGaps(w, h);
    if h == g {
      assert Held(Next(w, TakeStep(g)), h) == Held(w, h);
    }
  }

  lemma NoGapsDrain(w: World, g: nat, h: nat)
    requires Inv(w) && Enabled(w, DrainStep(g)) && h in w.fan.chans
    ensures NoGaps(Next(w, DrainStep(g)), h)
  {
    assert NoGaps(w, h);
  }

  lemma NoGapsNext(w: World, s: Step, h: nat)
    requires Inv(w) && Enabled(w, s) && h in Next(w, s).fan.chans
    ensures NoGaps(Next(w, s), h)
  {
    match s
    case SubscribeStep(id, g) => NoGapsSubscribe(w, id, g, h);
    case CancelStep(g) => NoGapsCancel(w, g, h);
    case BroadcastStep(id, chunk) =>
      assert NoGaps(w, h);
      if chunk != [] && id != "" {
        NoGapsBroadcast(w, id, chunk, h);
      }
    case TakeStep(g) => NoGapsTake(w, g, h);
    case DrainStep(g) => NoGapsDrain(w, g, h);
  }

  lemma InvNext(w: World, s: Step)
    requires Inv(w) && Enabled(w, s)
    ensures Inv(Next(w, s))
  {
    SoundNext(w, s);
    forall h | h in Next(w, s).fan.chans
      ensures NoGaps(Next(w, s), h)
    {
      NoGapsNext(w, s, h);
    }
  }

  predicate Possible(w: World, steps: seq<Step>)
    decreases |steps|
  {
    steps == [] || (Enabled(w, steps[0]) && Possible(Next(w, steps[0]), steps[1..]))
  }

  function Run(w: World, steps: seq<Step>): World
    requires Possible(w, steps)
    decreases |steps|
  {
    if steps == [] then w else Run(Next(w, steps[0]), steps[1..])
  }

  lemma {:induction false} InvRun(w: World, steps: seq<Step>)
    requires Inv(w) && Possible(w, steps)
    ensures Inv(Run(w, steps))
    decreases |steps|
  {
    if steps != [] {
      InvNext(w, steps[0]);
      InvRun(Next(w, steps[0]), steps[1..]);
    }
  }

  /** In every run, whoever is registered under `id` has received, or has queued in order,
      exactly the chunks broadcast to `id` since it subscribed; its queue holds at most 64 of
      them and its channel is open, so no send can hit a closed channel. */
  lemma FanOutHasNoGaps(steps: seq<Step>, id: string, h: nat)
    requires Possible(EMPTY, steps)
    requires h in Run(EMPTY, steps).fan.Of(id)
    ensures var w := Run(EMPTY, steps);
            && h in w.fan.chans && w.fan.chans[h].id == id && !w.fan.chans[h].closed
            && |w.fan.chans[h].queue| <= QUEUE
            && h in w.taken && h in w.joined && w.joined[h] <= |w.Log(id)|
            && w.taken[h] + w.fan.chans[h].queue == w.Log(id)[w.joined[h]..]
  {
    InvRun(EMPTY, steps);
    assert NoGaps(Run(EMPTY, steps), h);
  }

  /** Who is registered under `id` after a step: whoever was and was not cancelled, nor found with
      64 chunks queued by a broadcast to that id; and whoever has just subscribed to it. */
  ghost predicate StaysOrJoins(w: World, s: Step, id: string, h: nat) {
    || (s == SubscribeStep(id, h) && id != "")
    || (&& h in w.fan.Of(id) && s != CancelStep(h) && h in w.fan.chans
        && !(s.BroadcastStep? && s.id == id && s.chunk != [] && |w.fan.chans[h].queue| == 64))
  }

  lemma RegistryStep(w: World, s: Step, id: string, h: nat)
    requires Inv(w) && Enabled(w, s)
    ensures h in Next(w, s).fan.Of(id) <==> StaysOrJoins(w, s, id, h)
  {
    match s
    case SubscribeStep(_, _) =>
    case CancelStep(g) => RegistryCancel(w.fan, g, id, h);
    case BroadcastStep(_, chunk) =>
      if chunk != [] && s.id != "" {
        RegistryBroadcast(w.fan, s.id, chunk, id, h);
      }
    case TakeStep(_) =>
    case DrainStep(_) =>
  }

  lemma RegistryCancel(f: Fan, g: nat, id: string, h: nat)
    requires Sound(f) && g in f.chans
    ensures h in Cancel(f, g).Of(id) <==> h in f.Of(id) && h != g
  {
    if h in f.Of(id) && h != g && f.chans[g].id == id {
      assert h in f.subs[id] - {g};
    }
  }

  lemma RegistryBroadcast(f: Fan, at: string, chunk: Text, id: string, h: nat)
    requires Sound(f) && chunk != [] && at != ""
    ensures h in Broadcast(f, at, chunk).Of(id)
            <==> h in f.Of(id) && h in f.chans && !(at == id && |f.chans[h].queue| == 64)
  {
    if h in f.Of(id) && h in f.chans && at == id && |f.chans[h].queue| < 64 {
      assert h in f.subs[id] - Overflowing(f, at);
    }
  }

  /** In every run nobody is dropped from the fan-out who was not cancelled and did not have 64
      chunks waiting, nobody stays who was or had, and nobody else's steps matter. */
  lemma RegistryExact(steps: seq<Step>, s: Step, id: string, h: nat)
    requires Possible(EMPTY, steps) && Enabled(Run(EMPTY, steps), s)
    ensures h in Next(Run(EMPTY, steps), s).fan.Of(id) <==> StaysOrJoins(Run(EMPTY, steps), s, id, h)
  {
    InvRun(EMPTY, steps);
    RegistryStep(Run(EMPTY, steps), s, id, h);
  }

  // ---- after the channel is closed ----

  /** In every run whatever a subscriber has received and can still receive is a prefix of what
      was broadcast to its id since it subscribed, unless a drain has taken from its queue. */
  lemma HeldIsPrefix(steps: seq<Step>, h: nat)
    requires Possible(EMPTY, steps)
    requires var w := Run(EMPTY, steps); h in w.fan.chans && h !in w.lossy
    ensures var w := Run(EMPTY, steps);
            && h in w.taken && h in w.joined && w.joined[h] <= |w.Log(w.fan.chans[h].id)|
            && Held(w, h) <= Owed(w, h)
  {
    InvRun(EMPTY, steps);
    assert NoGaps(Run(EMPTY, steps), h);
  }

  /** Every drain runs on a closed channel that nothing can be sent to any more, so each of
      its receives shortens the queue, whatever else happens in between. */
  lemma DrainsOnlyShrink(w: World, s: Step, h: nat)
    requires Inv(w) && Enabled(w, s) && h in w.draining
    ensures var v := Next(w, s);
            && h in v.fan.chans && v.fan.chans[h].closed
            && |v.fan.chans[h].queue| <= |w.fan.chans[h].queue|
            && (s == DrainStep(h) ==> h !in v.draining || |v.fan.chans[h].queue| < |w.fan.chans[h].queue|)
  {
    ClosedStep(w, s, h);
  }

  /** A step leaves a closed channel's entry alone unless it receives from it, and no broadcast
      picks it for draining again. */
  lemma ClosedStep(w: World, s: Step, h: nat)
    requires Inv(w) && Enabled(w, s) && h in w.fan.chans && w.fan.chans[h].closed
    ensures var v := Next(w, s);
            && h in v.fan.chans && v.fan.chans[h].closed && h in v.taken
            && (h in v.draining ==> h in w.draining)
            && (s != TakeStep(h) && s != DrainStep(h) ==>
                  && v.fan.chans[h].queue == w.fan.chans[h].queue && v.taken[h] == w.taken[h]
                  && (h in w.draining ==> h in v.draining))
  {
    assert NoGaps(w, h);
    if s.BroadcastStep? {
      assert h !in w.fan.Of(s.id);
    }
  }

  /** The consumer has received, or can still receive, exactly `owed`. */
  ghost predicate Parted(w: World, h: nat, owed: seq<Text>) {
    h in w.fan.chans && w.fan.chans[h].closed && h !in w.draining && h in w.taken && Held(w, h) == owed
  }

  lemma PartedStep(w: World, s: Step, h: nat, owed: seq<Text>)
    requires Inv(w) && Enabled(w, s) && Parted(w, h, owed)
    ensures Parted(Next(w, s), h, owed)
  {
    ClosedStep(w, s, h);
    if s == TakeStep(h) {
      var q := w.fan.chans[h].queue;
      assert w.taken[h] + [q[0]] + q[1..] == w.taken[h] + q;
    }
  }

  lemma {:induction false} PartedRun(w: World, steps: seq<Step>, h: nat, owed: seq<Text>)
    requires Inv(w) && Possible(w, steps) && Parted(w, h, owed)
    ensures Parted(Run(w, steps), h, owed)
    decreases |steps|
  {
    if steps != [] {
      InvNext(w, steps[0]);
      PartedStep(w, steps[0], h, owed);
      PartedRun(Next(w, steps[0]), steps[1..], h, owed);
    }
  }

  /** In every run, from the moment a subscriber that had kept up is cancelled, what it has
      received and what it can still receive together stay exactly what was broadcast to its
      id from its subscription to the cancel: later broadcasts add nothing and no drain takes
      anything away. */
  lemma CancelKeepsBacklog(before: seq<Step>, h: nat, after: seq<Step>)
    requires Possible(EMPTY, before)
    requires var w := Run(EMPTY, before);
             && h in w.fan.chans && !w.fan.chans[h].closed
             && Possible(Next(w, CancelStep(h)), after)
    ensures var w := Run(EMPTY, before);
            var v := Run(Next(w, CancelStep(h)), after);
            && h in w.joined && w.joined[h] <= |w.Log(w.fan.chans[h].id)|
            && h in v.fan.chans && v.fan.chans[h].closed && h in v.taken
            && v.taken[h] + v.fan.chans[h].queue == w.Log(w.fan.chans[h].id)[w.joined[h]..]
  {
    InvRun(EMPTY, before);
    var w := Run(EMPTY, before);
    assert NoGaps(w, h);
    InvNext(w, CancelStep(h));
    PartedRun(Next(w, CancelStep(h)), after, h, Owed(w, h));
  }

  /** The receives its drain can still make, the last one finding the channel empty. */
  function DrainsLeft(w: World, h: nat): nat
    requires h in w.fan.chans
  {
    if h in w.draining then |w.fan.chans[h].queue| + 1 else 0
  }

  function DrainsOf(steps: seq<Step>, h: nat): nat {
    if steps == [] then 0 else (if steps[0] == DrainStep(h) then 1 else 0) + DrainsOf(steps[1..], h)
  }

  ghost predicate Disconnected(w: World, h: nat) {
    h in w.fan.chans && w.fan.chans[h].closed && (h in w.draining || w.fan.chans[h].queue == [])
  }

  lemma DisconnectedStep(w: World, s: Step, h: nat)
    requires Inv(w) && Enabled(w, s) && Disconnected(w, h)
    ensures Disconnected(Next(w, s), h)
    ensures DrainsLeft(Next(w, s), h) + (if s == DrainStep(h) then 1 else 0) <= DrainsLeft(w, h)
  {
    ClosedStep(w, s, h);
  }

  lemma {:induction false} DisconnectedRun(w: World, steps: seq<Step>, h: nat)
    requires Inv(w) && Possible(w, steps) && Disconnected(w, h)
    ensures Disconnected(Run(w, steps), h)
    ensures DrainsLeft(Run(w, steps), h) + DrainsOf(steps, h) <= DrainsLeft(w, h)
    decreases |steps|
  {
    if steps != [] {
      InvNext(w, steps[0]);
      DisconnectedStep(w, steps[0], h);
      DisconnectedRun(Next(w, steps[0]), steps[1..], h);
    }
  }

  /** In every run, once a broadcast has found a subscriber's queue full: its channel is closed
      for good, its drain makes at most 65 receives whatever its consumer and everyone else do
      meanwhile, and when the drain has ended the queue is empty. */
  lemma OverflowDrains(before: seq<Step>, id: string, chunk: Text, h: nat, after: seq<Step>)
    requires Possible(EMPTY, before) && chunk != [] && id != ""
    requires var w := Run(EMPTY, before);
             h in Overflowing(w.fan, id) && Possible(Next(w, BroadcastStep(id, chunk)), after)
    ensures var v := Run(Next(Run(EMPTY, before), BroadcastStep(id, chunk)), after);
            && h in v.fan.chans && v.fan.chans[h].closed
            && DrainsOf(after, h) <= QUEUE + 1
            && (h !in v.draining ==> v.fan.chans[h].queue == [])
  {
    InvRun(EMPTY, before);
    var w := Run(EMPTY, before);
    InvNext(w, BroadcastStep(id, chunk));
    DisconnectedRun(Next(w, BroadcastStep(id, chunk)), after, h);
  }

  // ---- the registry itself ----

  class Hub {
    var subs: map<string, set<nat>>
    var chans: map<nat, Chan>
    var next: nat

    constructor ()
      ensures View() == Fan(map[], map[]) && Valid()
    {
      subs, chans, next := map[], map[], 0;
    }

    ghost function View(): Fan
      reads this
    {
      Fan(subs, chans)
    }

    ghost predicate Valid()
      reads this
    {
      Sound(View()) && forall h | h in chans :: h < next
    }

    method SubscribeOutput(id: string) returns (h: nat, ok: bool)
      requires Valid()
      modifies this
      ensures Valid() && (ok <==> id != "")
      ensures h !in old(chans) && View() == Subscribe(old(View()), id, h)
    {
      h := next;
      if id == "" {
        return h, false;
      }
      SoundSubscribe(View(), id, h);
      Enrol(id, h);
      next := next + 1;
      ok := true;
    }

    method Enrol(id: string, h: nat)
      requires id != ""
      modifies this`subs, this`chans
      ensures View() == Subscribe(old(View()), id, h)
    {
      if id !in subs {
        subs := subs[id := {}];
      }
      chans := chans[h := Chan(id, [], false)];
      subs := subs[id := subs[id] + {h}];
    }

    /** Closes at most once; reports whether this call did it. */
    method CloseLocked(h: nat) returns (did: bool)
      requires h in chans
      modifies this`chans
      ensures chans == old(chans)[h := old(chans)[h].(closed := true)]
      ensures did <==> !old(chans)[h].closed
    {
      if chans[h].closed {
        assert chans[h] == chans[h].(closed := true);
        return false;
      }
      chans := chans[h := chans[h].(closed := true)];
      did := true;
    }

    /** The cancel closure; safe to call again, and after an overflow. */
    method CancelOutput(h: nat)
      requires Valid() && h in chans
      modifies this
      ensures Valid() && View() == Cancel(old(View()), h)
    {
      SoundCancel(View(), h);
      var id := chans[h].id;
      if id in subs {
        subs := subs[id := subs[id] - {h}];
        if |subs[id]| == 0 {
          subs := subs - {id};
        }
      }
      var _ := CloseLocked(h);
    }

    /** A non-blocking send. Go panics on a closed channel, so being open is demanded. */
    method TrySend(h: nat, chunk: Text) returns (ok: bool)
      requires h in chans && !chans[h].closed
      modifies this`chans
      ensures ok <==> |old(chans)[h].queue| < QUEUE
      ensures chans == if ok then old(chans)[h := Offer(old(chans)[h], chunk)] else old(chans)
    {
      ok := |chans[h].queue| < QUEUE;
      if ok {
        chans := chans[h := chans[h].(queue := chans[h].queue + [chunk])];
      }
    }

    /** The critical section of broadcast. `overflowed` are the channels it closed, left for the
        drain that follows the unlock. */
    method BroadcastOutput(id: string, chunk: Text) returns (overflowed: set<nat>)
      requires Valid()
      modifies this`subs, this`chans
      ensures Valid() && View() == Broadcast(old(View()), id, chunk)
      ensures overflowed == if chunk == [] || id == "" then {} else Overflowing(old(View()), id)
    {
      if chunk == [] || id == "" {
        return {};
      }
      SoundBroadcast(View(), id, chunk);
      overflowed := OfferAll(id, chunk);
    }

    method OfferAll(id: string, chunk: Text) returns (overflowed: set<nat>)
      requires chunk != [] && id != "" && (id in subs ==> subs[id] != {})
      requires forall h | h in View().Of(id) :: h in chans && !chans[h].closed
      modifies this`subs, this`chans
      ensures View() == Broadcast(old(View()), id, chunk)
      ensures overflowed == Overflowing(old(View()), id)
    {
      overflowed := {};
      ghost var f := View();
      var todo := if id in subs then subs[id] else {};
      ShrunkByNone(subs, id);
      while todo != {}
        invariant todo <= f.Of(id) && chans.Keys == f.chans.Keys
        invariant overflowed == Overflowing(f, id) - todo
        invariant subs == Shrunk(f.subs, id, overflowed)
        invariant forall h | h in f.chans ::
                    chans[h] == if h in f.Of(id) - todo then Offer(f.chans[h], chunk) else f.chans[h]
        decreases todo
      {
        var h :| h in todo;
        assert h in f.chans && chans[h] == f.chans[h] && h in f.subs[id] - overflowed;
        var sent := TrySend(h, chunk);
        if !sent {
          Disconnect(id, h, f.subs, overflowed);
          overflowed := overflowed + {h};
        }
        todo := todo - {h};
      }
      assert overflowed == Overflowing(f, id);
      assert chans == Broadcast(f, id, chunk).chans;
    }

    /** Take a full subscriber out of the registry and close its channel. */
    method Disconnect(id: string, h: nat, ghost before: map<string, set<nat>>, ghost gone: set<nat>)
      requires id in before && h in before[id] - gone && subs == Shrunk(before, id, gone)
      requires h in chans && !chans[h].closed
      modifies this`subs, this`chans
      ensures subs == Shrunk(before, id, gone + {h})
      ensures chans == old(chans)[h := old(chans)[h].(closed := true)]
    {
      subs := subs[id := subs[id] - {h}];
      var did := CloseLocked(h);
      assert did;
      assert before[id] - gone - {h} == before[id] - (gone + {h});
      if |subs[id]| == 0 {
        subs := subs - {id};
      }
      assert subs == Shrunk(before, id, gone + {h});
    }

    /** Discard what is left on a closed channel; on an open one this would never return. */
    method Drain(h: nat)
      requires Valid() && h in chans && chans[h].closed
      modifies this`chans
      ensures Valid() && chans == old(chans)[h := old(chans)[h].(queue := [])]
    {
      ghost var f := View();
      while chans[h].queue != []
        invariant h in chans && |chans[h].queue| <= QUEUE
        invariant chans == f.chans[h := f.chans[h].(queue := chans[h].queue)]
        decreases |chans[h].queue|
      {
        chans := chans[h := chans[h].(queue := chans[h].queue[1..])];
      }
    }

    /** The part of broadcast after the unlock: every channel it closed ends up empty, and no
        other channel is touched. */
    method DrainAll(overflowed: set<nat>)
      requires Valid()
      requires forall h | h in overflowed :: h in chans && chans[h].closed
      modifies this`chans
      ensures Valid() && chans.Keys == old(chans).Keys
      ensures forall h | h in chans ::
                chans[h] == if h in overflowed then old(chans)[h].(queue := []) else old(chans)[h]
    {
      ghost var f := View();
      var todo := overflowed;
      while todo != {}
        invariant Valid() && todo <= overflowed && chans.Keys == f.chans.Keys
        invariant forall h | h in f.chans ::
                    chans[h] == if h in overflowed - todo then f.chans[h].(queue := []) else f.chans[h]
        decreases todo
      {
        var h :| h in todo;
        Drain(h);
        todo := todo - {h};
      }
    }
  }
}
