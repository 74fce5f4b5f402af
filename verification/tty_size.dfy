/** The shared terminal size (registerTTYClient, unregisterTTYClient, updateTTYClientSize,
    recomputeTTYSizeLocked and applyTTYSize in internal/app/app.go): every viewer of an instance
    shows the smallest width and the smallest height that any of them reported. */
module TtySizes {
  const MAX_TTY_CLIENTS: nat := 8

  datatype Size = Size(cols: int, rows: int)

  datatype Option<T> = None | Some(value: T)

  /** One viewer: the size it reported, what waits on its one-slot channel, and the last size
      it took from the channel. */
  datatype Viewer = Viewer(size: Option<Size>, pending: Option<Size>, seen: Option<Size>)

  type Viewers = map<nat, Viewer>

  /** One instance: its viewers, the applied size, and the last size its terminal was given. */
  datatype Room = Room(viewers: Viewers, applied: Option<Size>, pty: Option<Size>)

  /** What the viewer shows once it has emptied its channel. */
  function Shows(v: Viewer): Option<Size> { if v.pending.Some? then v.pending else v.seen }

  ghost predicate Reported(vs: Viewers, s: Size) {
    exists id | id in vs :: vs[id].size == Some(s)
  }

  ghost predicate Lower(vs: Viewers, m: Size) {
    forall id | id in vs && vs[id].size.Some? :: m.cols <= vs[id].size.value.cols && m.rows <= vs[id].size.value.rows
  }

  /** `o` is the componentwise minimum of the reported sizes, absent when there is none. */
  ghost predicate IsShared(vs: Viewers, o: Option<Size>) {
    match o
    case None => forall id | id in vs :: vs[id].size == None
    case Some(m) =>
      && Lower(vs, m)
      && (exists s | Reported(vs, s) :: s.cols == m.cols)
      && (exists s | Reported(vs, s) :: s.rows == m.rows)
  }

  lemma SharedUnique(vs: Viewers, o: Option<Size>, p: Option<Size>)
    requires IsShared(vs, o) && IsShared(vs, p)
    ensures o == p
  {
  }

  /** Only the reported sizes matter. */
  lemma SharedBySizes(vs: Viewers, ws: Viewers, o: Option<Size>)
    requires vs.Keys <= ws.Keys && (forall id | id in vs :: vs[id].size == ws[id].size)
    requires forall id | id in ws && id !in vs :: ws[id].size == None
    requires IsShared(vs, o)
    ensures IsShared(ws, o)
  {
    forall s
      ensures Reported(vs, s) <==> Reported(ws, s)
    {
    }
  }

  // ---- the steps ----

  /** Who is to be told which size, once the lock is released. */
  datatype Notice = Quiet | Notice(size: Size, ids: set<nat>)

  function Recomputed(r: Room, o: Option<Size>): (Room, Notice) {
    match o
    case None => (r.(applied := None), Quiet)
    case Some(m) =>
      if r.applied == o then (r, Quiet) else (r.(applied := o), Notice(m, r.viewers.Keys))
  }

  function Offered(vs: Viewers, size: Size, ids: set<nat>): Viewers {
    map id | id in vs :: if id in ids then vs[id].(pending := Some(size)) else vs[id]
  }

  /** The terminal is resized and each listed viewer's slot replaced by the new size. */
  function Delivered(r: Room, n: Notice): Room {
    match n
    case Quiet => r
    case Notice(size, ids) =>
      Room(Offered(r.viewers, size, ids), r.applied,
           if size.cols > 0 && size.rows > 0 then Some(size) else r.pty)
  }

  function Joined(r: Room, id: nat): Room {
    if |r.viewers| >= MAX_TTY_CLIENTS then r
    else r.(viewers := r.viewers[id := Viewer(None, r.applied, None)])
  }

  function Sized(r: Room, id: nat, size: Size): Room
    requires id in r.viewers
  {
    r.(viewers := r.viewers[id := r.viewers[id].(size := Some(size))])
  }

  function Taken(r: Room, id: nat): Room {
    if id in r.viewers && r.viewers[id].pending.Some?
    then r.(viewers := r.viewers[id := Viewer(r.viewers[id].size, None, r.viewers[id].pending)])
    else r
  }

  /** A recomputation and its notice as one step. */
  ghost predicate Settled(r: Room, after: Room) {
    exists o | IsShared(r.viewers, o) :: var (mid, n) := Recomputed(r, o); after == Delivered(mid, n)
  }

  datatype Step = Join | Leave(id: nat) | Report(id: nat, size: Size) | Take(id: nat)

  /** `id` is the number a joining viewer is given. */
  ghost predicate Does(r: Room, step: Step, id: nat, after: Room) {
    match step
    case Join => after == Joined(r, id)
    case Leave(who) => Settled(r.(viewers := r.viewers - {who}), after)
    case Report(who, size) => if who in r.viewers then Settled(Sized(r, who, size), after) else after == r
    case Take(who) => after == Taken(r, who)
  }

  // ---- what every step keeps ----

  ghost predicate AllShow(vs: Viewers, size: Option<Size>) {
    forall id | id in vs :: Shows(vs[id]) == size
  }

  predicate PtyOk(r: Room) {
    r.applied.Some? && r.applied.value.cols > 0 && r.applied.value.rows > 0 ==> r.pty == r.applied
  }

  /** What recomputing needs of a room whose viewers just changed: everything but the applied
      size being the right one. */
  ghost predicate Unsettled(r: Room, last: nat) {
    && |r.viewers| <= MAX_TTY_CLIENTS
    && (forall id | id in r.viewers :: id <= last)
    && (r.applied.Some? ==> AllShow(r.viewers, r.applied))
    && PtyOk(r)
  }

  ghost predicate RoomOk(r: Room, last: nat) {
    Unsettled(r, last) && IsShared(r.viewers, r.applied)
  }

  lemma JoinKeeps(r: Room, last: nat, id: nat)
    requires RoomOk(r, last) && last < id
    ensures RoomOk(Joined(r, id), id)
  {
    if |r.viewers| < MAX_TTY_CLIENTS {
      var ws := Joined(r, id).viewers;
      assert ws.Keys == r.viewers.Keys + {id};
      assert |ws| == |ws.Keys| == |r.viewers.Keys| + 1;
      SharedBySizes(r.viewers, ws, r.applied);
    }
  }

  lemma TakeKeeps(r: Room, last: nat, id: nat)
    requires RoomOk(r, last)
    ensures RoomOk(Taken(r, id), last)
  {
    var ws := Taken(r, id).viewers;
    assert ws.Keys == r.viewers.Keys;
    assert |ws| == |ws.Keys| == |r.viewers.Keys|;
    SharedBySizes(r.viewers, ws, r.applied);
  }

  lemma SettleKeeps(r: Room, last: nat, o: Option<Size>)
    requires Unsettled(r, last) && IsShared(r.viewers, o)
    ensures var (mid, n) := Recomputed(r, o); RoomOk(Delivered(mid, n), last)
  {
    if o.Some? && r.applied != o {
      var ws := Offered(r.viewers, o.value, r.viewers.Keys);
      assert ws.Keys == r.viewers.Keys;
      assert |ws| == |ws.Keys| == |r.viewers.Keys|;
      SharedBySizes(r.viewers, ws, o);
    }
  }

  lemma LeaveUnsettles(r: Room, last: nat, id: nat)
    requires RoomOk(r, last)
    ensures Unsettled(r.(viewers := r.viewers - {id}), last)
  {
    var rest := r.viewers - {id};
    assert rest.Keys == r.viewers.Keys - {id};
    assert |rest| == |rest.Keys| <= |r.viewers.Keys|;
  }

  lemma ReportUnsettles(r: Room, last: nat, id: nat, size: Size)
    requires RoomOk(r, last) && id in r.viewers
    ensures Unsettled(Sized(r, id, size), last)
  {
    var ws := Sized(r, id, size).viewers;
    assert ws.Keys == r.viewers.Keys;
    assert |ws| == |ws.Keys| == |r.viewers.Keys|;
  }

  lemma SettledKeeps(r: Room, last: nat, after: Room)
    requires Unsettled(r, last) && Settled(r, after)
    ensures RoomOk(after, last)
  {
    var o :| IsShared(r.viewers, o) && var (mid, n) := Recomputed(r, o); after == Delivered(mid, n);
    SettleKeeps(r, last, o);
  }

  lemma StepKeeps(r: Room, last: nat, step: Step, id: nat, after: Room)
    requires RoomOk(r, last) && Does(r, step, id, after) && last <= id && (step.Join? ==> last < id)
    ensures RoomOk(after, id)
  {
    match step
    case Join => JoinKeeps(r, last, id);
    case Take(who) => TakeKeeps(r, last, who);
    case Leave(who) =>
      LeaveUnsettles(r, last, who);
      SettledKeeps(r.(viewers := r.viewers - {who}), last, after);
    case Report(who, size) =>
      if who in r.viewers {
        ReportUnsettles(r, last, who, size);
        SettledKeeps(Sized(r, who, size), last, after);
      }
  }

  /** One instance's history: its rooms before and after each step, and the last
      viewer number given out, which grows with every viewer that joins. */
  ghost predicate IsRun(rooms: seq<Room>, steps: seq<Step>, ids: seq<nat>) {
    && |rooms| == |steps| + 1 == |ids| && rooms[0] == Room(map[], None, None)
    && (forall i | 0 <= i < |steps| :: ids[i] <= ids[i + 1] && (steps[i].Join? ==> ids[i] < ids[i + 1]))
    && forall i | 0 <= i < |steps| :: Does(rooms[i], steps[i], ids[i + 1], rooms[i + 1])
  }

  /** At every moment of every run: at most 8 viewers, the applied size is the componentwise
      minimum of the reported ones (none when nobody reported), every viewer shows it or has it
      waiting, and a positive one is the terminal's own size. */
  lemma {:induction false} SharedSizeHolds(rooms: seq<Room>, steps: seq<Step>, ids: seq<nat>, i: nat)
    requires IsRun(rooms, steps, ids) && i < |rooms|
    ensures |rooms[i].viewers| <= MAX_TTY_CLIENTS
    ensures IsShared(rooms[i].viewers, rooms[i].applied)
    ensures rooms[i].applied.Some? ==> AllShow(rooms[i].viewers, rooms[i].applied)
    ensures PtyOk(rooms[i])
  {
    OkAlong(rooms, steps, ids, i);
  }

  lemma {:induction false} OkAlong(rooms: seq<Room>, steps: seq<Step>, ids: seq<nat>, i: nat)
    requires IsRun(rooms, steps, ids) && i < |rooms|
    ensures RoomOk(rooms[i], ids[i])
  {
    if i > 0 {
      OkAlong(rooms, steps, ids, i - 1);
      StepKeeps(rooms[i - 1], ids[i - 1], steps[i - 1], ids[i], rooms[i]);
    }
  }

  // ---- deliveries under way ----

  /** What is left to do of one notice once the lock is released: resize the terminal, then send
      to each listed viewer that has not been sent to yet, in no particular order. */
  datatype Delivery = Delivery(size: Size, left: set<nat>, resizeDue: bool)

  /** A room, the deliveries under way in issue order, the viewers that have left but whose
      channel is still to be closed, those whose channel is closed, and whether a delivery has
      panicked. */
  datatype Flight = Flight(room: Room, notices: seq<Delivery>, closing: set<nat>, closed: set<nat>, panicked: bool)

  const EMPTY: Flight := Flight(Room(map[], None, None), [], {}, {}, false)

  /** What happens under the lock; then, after its release and in any order: one step of the
      i-th delivery, or the close of a channel. */
  datatype Turn = Locked(step: Step) | Resize(i: nat) | Send(i: nat, id: nat) | Shut(id: nat)

  /** The recomputation after the viewers became those of `r`; a notice starts a delivery. */
  ghost predicate Issues(r: Room, f: Flight, closing: set<nat>, after: Flight) {
    exists o | IsShared(r.viewers, o) ::
      var (mid, n) := Recomputed(r, o);
      after == Flight(mid, f.notices + if n.Quiet? then [] else [Delivery(n.size, n.ids, true)],
                      closing, f.closed, f.panicked)
  }

  function Without(notices: seq<Delivery>, i: nat): seq<Delivery>
    requires i < |notices|
  {
    notices[..i] + notices[i + 1..]
  }

  predicate Positive(size: Size) { size.cols > 0 && size.rows > 0 }

  function ResizeStep(f: Flight, i: nat): Flight
    requires i < |f.notices|
  {
    var d := f.notices[i];
    f.(room := f.room.(pty := if Positive(d.size) then Some(d.size) else f.room.pty),
    notices := f.notices[i := d.(resizeDue := false)])
  }

  /** A send to a viewer that has left goes nowhere while its channel is open and panics once it
      is closed; then nobody else is sent to. The last send ends the delivery. */
  function SendStep(f: Flight, i: nat, id: nat): Flight
    requires i < |f.notices|
  {
    var d := f.notices[i];
    if id in f.closed then f.(notices := Without(f.notices, i), panicked := true)
    else
      f.(room := f.room.(viewers := Offered(f.room.viewers, d.size, {id})),
      notices := if d.left == {id} then Without(f.notices, i) else f.notices[i := d.(left := d.left - {id})])
  }

  function ShutStep(f: Flight, id: nat): Flight {
    f.(closing := f.closing - {id}, closed := f.closed + {id})
  }

  /** One step of what is still to be done. */
  predicate CanAct(f: Flight, turn: Turn) {
    match turn
    case Locked(_) => false
    case Resize(i) => i < |f.notices| && f.notices[i].resizeDue
    case Send(i, id) => i < |f.notices| && !f.notices[i].resizeDue && id in f.notices[i].left
    case Shut(id) => id in f.closing
  }

  function Act(f: Flight, turn: Turn): Flight
    requires CanAct(f, turn)
  {
    match turn
    case Resize(i) => ResizeStep(f, i)
    case Send(i, id) => SendStep(f, i, id)
    case Shut(id) => ShutStep(f, id)
  }

  ghost predicate LockedMove(f: Flight, step: Step, id: nat, after: Flight) {
    match step
    case Join => after == f.(room := Joined(f.room, id))
    case Take(who) => after == f.(room := Taken(f.room, who))
    case Leave(who) =>
      Issues(f.room.(viewers := f.room.viewers - {who}), f,
             f.closing + if who in f.room.viewers then {who} else {}, after)
    case Report(who, size) =>
      if who in f.room.viewers then Issues(Sized(f.room, who, size), f, f.closing, after) else after == f
  }

  /** The source's own steps, with the deliveries finished one after the other in issue order. */
  ghost predicate Moves(f: Flight, turn: Turn, id: nat, after: Flight) {
    if turn.Locked? then LockedMove(f, turn.step, id, after)
    else (turn.Resize? || turn.Send? ==> turn.i == 0) && CanAct(f, turn) && after == Act(f, turn)
  }

  /** What viewer `id` shows once the deliveries have been finished in this order. */
  function LastWord(notices: seq<Delivery>, id: nat, v: Viewer): Option<Size> {
    if notices == [] then Shows(v)
    else
      var d := notices[|notices| - 1];
      if id in d.left then Some(d.size) else LastWord(notices[..|notices| - 1], id, v)
  }

  /** What the terminal is sized to then. */
  function LastPty(notices: seq<Delivery>, pty: Option<Size>): Option<Size> {
    if notices == [] then pty
    else
      var d := notices[|notices| - 1];
      if d.resizeDue && Positive(d.size) then Some(d.size) else LastPty(notices[..|notices| - 1], pty)
  }

  /** Finished in issue order, the deliveries bring every viewer to the applied size. */
  ghost predicate Caught(r: Room, notices: seq<Delivery>) {
    r.applied.Some? ==>
      && (forall id | id in r.viewers :: LastWord(notices, id, r.viewers[id]) == r.applied)
      && (Positive(r.applied.value) ==> LastPty(notices, r.pty) == r.applied)
  }

  ghost predicate Numbered(r: Room, last: nat) {
    |r.viewers| <= MAX_TTY_CLIENTS && forall id | id in r.viewers :: id <= last
  }

  /** Whoever is still to be sent to is among `known`. */
  ghost predicate Listed(notices: seq<Delivery>, known: set<nat>) {
    forall i | 0 <= i < |notices| :: notices[i].left != {} && notices[i].left <= known
  }

  /** Whoever is still to be sent to is a viewer, or has left; nobody who has left comes back. */
  ghost predicate Accounted(f: Flight, last: nat) {
    && Listed(f.notices, f.room.viewers.Keys + f.closing + f.closed)
    && f.room.viewers.Keys !! f.closing + f.closed
    && (forall id | id in f.closing + f.closed :: id <= last)
  }

  ghost predicate Booked(f: Flight, last: nat) {
    Numbered(f.room, last) && Accounted(f, last) && IsShared(f.room.viewers, f.room.applied)
  }

  ghost predicate FlightOk(f: Flight, last: nat) {
    Booked(f, last) && (f.panicked || Caught(f.room, f.notices))
  }

  // ---- deliveries in issue order ----

  lemma WordSnoc(notices: seq<Delivery>, d: Delivery, id: nat, v: Viewer, pty: Option<Size>)
    ensures LastWord(notices + [d], id, v) == if id in d.left then Some(d.size) else LastWord(notices, id, v)
    ensures LastPty(notices + [d], pty)
         == if d.resizeDue && Positive(d.size) then Some(d.size) else LastPty(notices, pty)
  {
    assert (notices + [d])[..|notices|] == notices;
  }

  lemma {:induction false} WordHead(d: Delivery, rest: seq<Delivery>, id: nat, v: Viewer)
    ensures LastWord([d] + rest, id, v) == LastWord(rest, id, if id in d.left then v.(pending := Some(d.size)) else v)
    decreases |rest|
  {
    if rest == [] {
      assert [d] + rest == [d] && [d][..0] == [];
    } else {
      var init := rest[..|rest| - 1];
      WordHead(d, init, id, v);
      assert ([d] + rest)[..|rest|] == [d] + init;
    }
  }

  lemma {:induction false} PtyHead(d: Delivery, rest: seq<Delivery>, pty: Option<Size>)
    ensures LastPty([d] + rest, pty) == LastPty(rest, if d.resizeDue && Positive(d.size) then Some(d.size) else pty)
    decreases |rest|
  {
    if rest == [] {
      assert [d] + rest == [d] && [d][..0] == [];
    } else {
      var init := rest[..|rest| - 1];
      PtyHead(d, init, pty);
      assert ([d] + rest)[..|rest|] == [d] + init;
    }
  }

  /** Deliveries that do not list a viewer do not reach it. */
  lemma {:induction false} WordUnheard(notices: seq<Delivery>, id: nat, v: Viewer)
    requires forall i | 0 <= i < |notices| :: id !in notices[i].left
    ensures LastWord(notices, id, v) == Shows(v)
  {
    if notices != [] {
      WordUnheard(notices[..|notices| - 1], id, v);
    }
  }

  /** Only what a viewer shows matters. */
  lemma {:induction false} WordByShows(notices: seq<Delivery>, id: nat, v: Viewer, w: Viewer)
    requires Shows(v) == Shows(w)
    ensures LastWord(notices, id, v) == LastWord(notices, id, w)
  {
    if notices != [] {
      WordByShows(notices[..|notices| - 1], id, v, w);
    }
  }

  lemma NewWord(r: Room, notices: seq<Delivery>, size: Size)
    ensures Caught(r.(applied := Some(size)), notices + [Delivery(size, r.viewers.Keys, true)])
  {
    var d := Delivery(size, r.viewers.Keys, true);
    forall id | id in r.viewers
      ensures LastWord(notices + [d], id, r.viewers[id]) == Some(size)
    {
      WordSnoc(notices, d, id, r.viewers[id], r.pty);
    }
    assert (notices + [d])[..|notices|] == notices;
  }

  lemma IssueKeeps(r: Room, f: Flight, closing: set<nat>, last: nat, after: Flight)
    requires Numbered(r, last) && Accounted(f.(room := r, closing := closing), last)
    requires (f.panicked || Caught(r, f.notices)) && Issues(r, f, closing, after)
    ensures FlightOk(after, last)
  {
    var o :| IsShared(r.viewers, o) && (var (mid, n) := Recomputed(r, o);
      after == Flight(mid, f.notices + if n.Quiet? then [] else [Delivery(n.size, n.ids, true)],
                      closing, f.closed, f.panicked));
    if o.Some? && r.applied != o {
      NewWord(r, f.notices, o.value);
      var s :| Reported(r.viewers, s);
    } else {
      assert f.notices + [] == f.notices;
    }
  }

  lemma JoinCaught(f: Flight, last: nat, id: nat)
    requires Accounted(f, last) && Numbered(f.room, last) && last < id && Caught(f.room, f.notices)
    ensures Caught(Joined(f.room, id), f.notices)
  {
    var v := Viewer(None, f.room.applied, None);
    forall i | 0 <= i < |f.notices|
      ensures id !in f.notices[i].left
    {
      assert f.notices[i].left <= f.room.viewers.Keys + f.closing + f.closed;
    }
    WordUnheard(f.notices, id, v);
  }

  lemma JoinBooks(f: Flight, last: nat, id: nat)
    requires Booked(f, last) && last < id
    ensures Booked(f.(room := Joined(f.room, id)), id)
  {
    if |f.room.viewers| < MAX_TTY_CLIENTS {
      var ws := Joined(f.room, id).viewers;
      assert ws.Keys == f.room.viewers.Keys + {id};
      assert |ws| == |ws.Keys| == |f.room.viewers.Keys| + 1;
      SharedBySizes(f.room.viewers, ws, f.room.applied);
    }
  }

  lemma FlightJoin(f: Flight, last: nat, id: nat)
    requires FlightOk(f, last) && last < id
    ensures FlightOk(f.(room := Joined(f.room, id)), id)
  {
    JoinBooks(f, last, id);
    if !f.panicked {
      JoinCaught(f, last, id);
    }
  }

  /** Changing what the viewers show or have reported, word for word alike, keeps them caught. */
  lemma CaughtAlike(r: Room, vs: Viewers, notices: seq<Delivery>)
    requires Caught(r, notices) && vs.Keys == r.viewers.Keys
    requires forall id | id in vs :: Shows(vs[id]) == Shows(r.viewers[id])
    ensures Caught(r.(viewers := vs), notices)
  {
    forall id | id in vs
      ensures LastWord(notices, id, vs[id]) == LastWord(notices, id, r.viewers[id])
    {
      WordByShows(notices, id, vs[id], r.viewers[id]);
    }
  }

  lemma FlightTake(f: Flight, last: nat, who: nat)
    requires FlightOk(f, last)
    ensures FlightOk(f.(room := Taken(f.room, who)), last)
  {
    var vs, ws := f.room.viewers, Taken(f.room, who).viewers;
    assert ws.Keys == vs.Keys;
    assert |ws| == |ws.Keys| == |vs.Keys|;
    SharedBySizes(vs, ws, f.room.applied);
    if !f.panicked {
      CaughtAlike(f.room, ws, f.notices);
    }
  }

  lemma LeaveAccounts(f: Flight, last: nat, who: nat)
    requires Accounted(f, last) && Numbered(f.room, last)
    ensures var r := f.room.(viewers := f.room.viewers - {who});
            var closing := f.closing + if who in f.room.viewers then {who} else {};
            Numbered(r, last) && Accounted(f.(room := r, closing := closing), last)
  {
    var rest := f.room.viewers - {who};
    assert rest.Keys == f.room.viewers.Keys - {who};
    assert |rest| == |rest.Keys| <= |f.room.viewers.Keys|;
  }

  lemma FlightLeave(f: Flight, last: nat, who: nat, after: Flight)
    requires FlightOk(f, last) && LockedMove(f, Leave(who), last, after)
    ensures FlightOk(after, last)
  {
    var r := f.room.(viewers := f.room.viewers - {who});
    var closing := f.closing + if who in f.room.viewers then {who} else {};
    LeaveAccounts(f, last, who);
    IssueKeeps(r, f, closing, last, after);
  }

  lemma FlightReport(f: Flight, last: nat, who: nat, size: Size, after: Flight)
    requires FlightOk(f, last) && LockedMove(f, Report(who, size), last, after)
    ensures FlightOk(after, last)
  {
    if who in f.room.viewers {
      var r := Sized(f.room, who, size);
      assert r.viewers.Keys == f.room.viewers.Keys;
      assert |r.viewers| == |r.viewers.Keys| == |f.room.viewers.Keys|;
      if !f.panicked {
        CaughtAlike(f.room, r.viewers, f.notices);
      }
      IssueKeeps(r, f, f.closing, last, after);
    }
  }

  lemma OfferedKeeps(f: Flight, size: Size, id: nat)
    ensures var ws := Offered(f.room.viewers, size, {id});
            && ws.Keys == f.room.viewers.Keys && |ws| == |f.room.viewers|
            && (IsShared(f.room.viewers, f.room.applied) ==> IsShared(ws, f.room.applied))
  {
    var ws := Offered(f.room.viewers, size, {id});
    assert ws.Keys == f.room.viewers.Keys;
    assert |ws| == |ws.Keys| == |f.room.viewers.Keys|;
    if IsShared(f.room.viewers, f.room.applied) {
      SharedBySizes(f.room.viewers, ws, f.room.applied);
    }
  }

  lemma ListedStays(notices: seq<Delivery>, known: set<nat>, i: nat, d: Delivery)
    requires Listed(notices, known) && i < |notices|
    ensures Listed(Without(notices, i), known)
    ensures d.left != {} && d.left <= known ==> Listed(notices[i := d], known)
  {
  }

  lemma SendListing(f: Flight, i: nat, id: nat, known: set<nat>)
    requires CanAct(f, Send(i, id)) && Listed(f.notices, known)
    ensures Listed(SendStep(f, i, id).notices, known)
  {
    var d := f.notices[i];
    ListedStays(f.notices, known, i, d.(left := d.left - {id}));
  }

  lemma SendAccounts(f: Flight, i: nat, id: nat, last: nat)
    requires CanAct(f, Send(i, id)) && Accounted(f, last)
    ensures Accounted(SendStep(f, i, id), last)
  {
    var g := SendStep(f, i, id);
    OfferedKeeps(f, f.notices[i].size, id);
    SendListing(f, i, id, f.room.viewers.Keys + f.closing + f.closed);
    assert g.room.viewers.Keys == f.room.viewers.Keys && g.closing == f.closing && g.closed == f.closed;
  }

  lemma ResizeAccounts(f: Flight, i: nat, last: nat)
    requires CanAct(f, Resize(i)) && Accounted(f, last)
    ensures Accounted(ResizeStep(f, i), last)
  {
    ListedStays(f.notices, f.room.viewers.Keys + f.closing + f.closed, i, f.notices[i].(resizeDue := false));
  }

  lemma ShutAccounts(f: Flight, id: nat, last: nat)
    requires id in f.closing && Accounted(f, last)
    ensures Accounted(ShutStep(f, id), last) && ShutStep(f, id).closing + ShutStep(f, id).closed == f.closing + f.closed
  {
    var g := ShutStep(f, id);
    assert g.closing + g.closed == f.closing + f.closed;
    assert f.room.viewers.Keys + g.closing + g.closed == f.room.viewers.Keys + f.closing + f.closed;
  }

  /** An act keeps the books, whichever delivery it belongs to. */
  lemma ActAccounts(f: Flight, turn: Turn, last: nat)
    requires CanAct(f, turn) && Booked(f, last)
    ensures var g := Act(f, turn);
            && Booked(g, last)
            && g.room.applied == f.room.applied && g.room.viewers.Keys == f.room.viewers.Keys
            && g.closing + g.closed == f.closing + f.closed
  {
    match turn
    case Resize(i) => ResizeAccounts(f, i, last);
    case Send(i, id) =>
      OfferedKeeps(f, f.notices[i].size, id);
      SendAccounts(f, i, id, last);
    case Shut(id) => ShutAccounts(f, id, last);
  }

  lemma HeadResize(f: Flight)
    requires CanAct(f, Resize(0)) && Caught(f.room, f.notices)
    ensures Caught(ResizeStep(f, 0).room, ResizeStep(f, 0).notices)
  {
    var d, rest := f.notices[0], f.notices[1..];
    var e := d.(resizeDue := false);
    assert f.notices == [d] + rest && f.notices[0 := e] == [e] + rest;
    forall id | id in f.room.viewers
      ensures LastWord([e] + rest, id, f.room.viewers[id]) == LastWord([d] + rest, id, f.room.viewers[id])
    {
      WordHead(d, rest, id, f.room.viewers[id]);
      WordHead(e, rest, id, f.room.viewers[id]);
    }
    PtyHead(d, rest, f.room.pty);
    PtyHead(e, rest, ResizeStep(f, 0).room.pty);
  }

  lemma HeadSend(f: Flight, id: nat)
    requires CanAct(f, Send(0, id)) && id !in f.closed && Caught(f.room, f.notices)
    ensures Caught(SendStep(f, 0, id).room, SendStep(f, 0, id).notices)
  {
    var d, rest, vs := f.notices[0], f.notices[1..], f.room.viewers;
    var e, ws := d.(left := d.left - {id}), Offered(vs, d.size, {id});
    assert f.notices == [d] + rest && f.notices[0 := e] == [e] + rest && Without(f.notices, 0) == rest;
    forall k | k in vs
      ensures LastWord([e] + rest, k, ws[k]) == LastWord([d] + rest, k, vs[k])
      ensures d.left == {id} ==> LastWord(rest, k, ws[k]) == LastWord([d] + rest, k, vs[k])
    {
      WordHead(d, rest, k, vs[k]);
      WordHead(e, rest, k, ws[k]);
    }
    PtyHead(d, rest, f.room.pty);
    PtyHead(e, rest, f.room.pty);
  }

  lemma FlightAct(f: Flight, turn: Turn, last: nat)
    requires FlightOk(f, last) && CanAct(f, turn) && (turn.Resize? || turn.Send? ==> turn.i == 0)
    ensures FlightOk(Act(f, turn), last)
  {
    ActAccounts(f, turn, last);
    if !f.panicked {
      match turn
      case Resize(_) => HeadResize(f);
      case Send(_, id) =>
        if id !in f.closed {
          HeadSend(f, id);
        }
      case Shut(_) =>
    }
  }

  lemma MoveKeeps(f: Flight, last: nat, turn: Turn, id: nat, after: Flight)
    requires FlightOk(f, last) && Moves(f, turn, id, after)
    requires last <= id && (turn == Locked(Join) ==> last < id)
    ensures FlightOk(after, id)
  {
    match turn
    case Locked(Join) => FlightJoin(f, last, id);
    case Locked(Take(who)) => FlightTake(f, last, who);
    case Locked(Leave(who)) => FlightLeave(f, last, who, after);
    case Locked(Report(who, size)) => FlightReport(f, last, who, size, after);
    case _ => FlightAct(f, turn, last);
  }

  ghost predicate IsFlightRun(flights: seq<Flight>, turns: seq<Turn>, ids: seq<nat>) {
    && |flights| == |turns| + 1 == |ids| && flights[0] == EMPTY
    && (forall i | 0 <= i < |turns| :: ids[i] <= ids[i + 1] && (turns[i] == Locked(Join) ==> ids[i] < ids[i + 1]))
    && forall i | 0 <= i < |turns| :: Moves(flights[i], turns[i], ids[i + 1], flights[i + 1])
  }

  lemma RunStep(flights: seq<Flight>, turns: seq<Turn>, ids: seq<nat>, i: nat)
    requires IsFlightRun(flights, turns, ids) && 0 < i < |flights|
    ensures Moves(flights[i - 1], turns[i - 1], ids[i], flights[i])
    ensures ids[i - 1] <= ids[i] && (turns[i - 1] == Locked(Join) ==> ids[i - 1] < ids[i])
  {
    var k := i - 1;
    assert Moves(flights[k], turns[k], ids[k + 1], flights[k + 1]);
  }

  lemma EmptyOk(last: nat)
    ensures FlightOk(EMPTY, last)
  {
  }

  lemma StepOk(flights: seq<Flight>, turns: seq<Turn>, ids: seq<nat>, i: nat)
    requires IsFlightRun(flights, turns, ids) && 0 < i < |flights| && FlightOk(flights[i - 1], ids[i - 1])
    ensures FlightOk(flights[i], ids[i])
  {
    RunStep(flights, turns, ids, i);
    MoveKeeps(flights[i - 1], ids[i - 1], turns[i - 1], ids[i], flights[i]);
  }

  lemma {:induction false} FlightOkAlong(flights: seq<Flight>, turns: seq<Turn>, ids: seq<nat>, i: nat)
    requires IsFlightRun(flights, turns, ids) && i < |flights|
    ensures FlightOk(flights[i], ids[i])
  {
    if i == 0 {
      EmptyOk(ids[0]);
    } else {
      FlightOkAlong(flights, turns, ids, i - 1);
      StepOk(flights, turns, ids, i);
    }
  }

  /** With the lock, every resize, every send and every close as steps of their own, any number
      of notices under way at once, and deliveries finished in issue order: as long as none has
      panicked, whenever nothing is under way everything promised of the shared size holds. */
  lemma LandedFlightsAgree(flights: seq<Flight>, turns: seq<Turn>, ids: seq<nat>, i: nat)
    requires IsFlightRun(flights, turns, ids) && i < |flights|
    requires flights[i].notices == [] && !flights[i].panicked
    ensures RoomOk(flights[i].room, ids[i])
  {
    FlightOkAlong(flights, turns, ids, i);
  }

  // ---- deliveries in any order ----

  ghost predicate InStep(r: Room) {
    r.applied.Some? ==> AllShow(r.viewers, r.applied) && PtyOk(r)
  }

  /** Everything under way is finished, in the order of `acts`, with `end` as the result. */
  ghost predicate Completes(f: Flight, acts: seq<Turn>, end: Flight)
    decreases |acts|
  {
    if acts == [] then f.notices == [] && f.closing == {} && end == f
    else CanAct(f, acts[0]) && Completes(Act(f, acts[0]), acts[1..], end)
  }

  /** However the resizes, sends and closes under way are interleaved from here, nothing panics
      and everyone ends in step with the applied size. */
  ghost predicate EveryOrderInStep(f: Flight) {
    forall acts: seq<Turn>, end: Flight | Completes(f, acts, end) :: !end.panicked && InStep(end.room)
  }

  /** The delivery names the applied size, if there is one, and everyone it has yet to send to
      is still there. */
  predicate Sure(d: Delivery, r: Room) {
    (r.applied.Some? ==> Some(d.size) == r.applied) && d.left <= r.viewers.Keys
  }

  /** With only sure deliveries under way: everybody shows the applied size or is to be sent it,
      and the terminal has it or is to be given it. */
  ghost predicate Safe(f: Flight) {
    && !f.panicked && f.room.viewers.Keys !! f.closing + f.closed
    && (forall i | 0 <= i < |f.notices| :: Sure(f.notices[i], f.room))
    && (f.room.applied.Some? ==> ShownOrListed(f) && SizedOrDue(f))
  }

  ghost predicate ShownOrListed(f: Flight) {
    forall id | id in f.room.viewers ::
      Shows(f.room.viewers[id]) == f.room.applied || exists i :: 0 <= i < |f.notices| && id in f.notices[i].left
  }

  ghost predicate SizedOrDue(f: Flight)
    requires f.room.applied.Some?
  {
    Positive(f.room.applied.value) ==>
      f.room.pty == f.room.applied || exists i :: 0 <= i < |f.notices| && f.notices[i].resizeDue
  }

  lemma Kept(notices: seq<Delivery>, i: nat, j: nat)
    requires i < |notices| && j < |notices| && i != j
    ensures var k := if j < i then j else j - 1; k < |Without(notices, i)| && Without(notices, i)[k] == notices[j]
  {
  }

  lemma SendListed(f: Flight, i: nat, id: nat)
    requires CanAct(f, Send(i, id)) && id !in f.closed && ShownOrListed(f) && Some(f.notices[i].size) == f.room.applied
    ensures ShownOrListed(SendStep(f, i, id))
  {
    var g, d := SendStep(f, i, id), f.notices[i];
    OfferedKeeps(f, d.size, id);
    forall k | k in g.room.viewers
      ensures Shows(g.room.viewers[k]) == g.room.applied || exists j :: 0 <= j < |g.notices| && k in g.notices[j].left
    {
      if k != id && Shows(f.room.viewers[k]) != f.room.applied {
        var j :| 0 <= j < |f.notices| && k in f.notices[j].left;
        if d.left == {id} {
          Kept(f.notices, i, j);
        } else {
          assert k in g.notices[j].left;
        }
      }
    }
  }

  lemma SendDue(f: Flight, i: nat, id: nat)
    requires CanAct(f, Send(i, id)) && id !in f.closed && f.room.applied.Some? && SizedOrDue(f)
    ensures SizedOrDue(SendStep(f, i, id))
  {
    var g := SendStep(f, i, id);
    if Positive(f.room.applied.value) && f.room.pty != f.room.applied {
      var j :| 0 <= j < |f.notices| && f.notices[j].resizeDue;
      if f.notices[i].left == {id} {
        Kept(f.notices, i, j);
      } else {
        assert g.notices[j].resizeDue;
      }
    }
  }

  lemma SafeSend(f: Flight, i: nat, id: nat)
    requires Safe(f) && CanAct(f, Send(i, id))
    ensures Safe(SendStep(f, i, id))
  {
    assert id in f.room.viewers.Keys;
    OfferedKeeps(f, f.notices[i].size, id);
    if f.room.applied.Some? {
      SendListed(f, i, id);
      SendDue(f, i, id);
    }
  }

  lemma SafeAct(f: Flight, turn: Turn)
    requires Safe(f) && CanAct(f, turn)
    ensures Safe(Act(f, turn))
  {
    match turn
    case Resize(i) =>
      var g := ResizeStep(f, i);
      forall k | k in g.room.viewers && f.room.applied.Some? && Shows(g.room.viewers[k]) != f.room.applied
        ensures exists j :: 0 <= j < |g.notices| && k in g.notices[j].left
      {
        var j :| 0 <= j < |f.notices| && k in f.notices[j].left;
        assert k in g.notices[j].left;
      }
    case Send(i, id) => SafeSend(f, i, id);
    case Shut(_) =>
  }

  lemma {:induction false} SafeCompletes(f: Flight, acts: seq<Turn>, end: Flight)
    requires Safe(f) && Completes(f, acts, end)
    ensures !end.panicked && InStep(end.room)
    decreases |acts|
  {
    if acts != [] {
      SafeAct(f, acts[0]);
      SafeCompletes(Act(f, acts[0]), acts[1..], end);
    }
  }

  /** Nobody is left unaccounted for: a viewer that no delivery lists already shows the size. */
  lemma CaughtIsSafe(f: Flight, last: nat)
    requires FlightOk(f, last) && !f.panicked
    requires forall i | 0 <= i < |f.notices| :: Sure(f.notices[i], f.room)
    ensures Safe(f)
  {
    if f.room.applied.Some? {
      forall id | id in f.room.viewers && Shows(f.room.viewers[id]) != f.room.applied
        ensures exists i :: 0 <= i < |f.notices| && id in f.notices[i].left
      {
        if forall i | 0 <= i < |f.notices| :: id !in f.notices[i].left {
          WordUnheard(f.notices, id, f.room.viewers[id]);
        }
      }
      if forall i | 0 <= i < |f.notices| :: !f.notices[i].resizeDue {
        PtyUnheard(f.notices, f.room.pty);
      }
    }
  }

  lemma {:induction false} PtyUnheard(notices: seq<Delivery>, pty: Option<Size>)
    requires forall i | 0 <= i < |notices| :: !notices[i].resizeDue
    ensures LastPty(notices, pty) == pty
  {
    if notices != [] {
      PtyUnheard(notices[..|notices| - 1], pty);
    }
  }

  // ---- an order that goes wrong ----

  function Effort(notices: seq<Delivery>): nat {
    if notices == [] then 0
    else Effort(notices[1..]) + |notices[0].left| + if notices[0].resizeDue then 1 else 0
  }

  /** How many acts are still to come. */
  function Work(f: Flight): nat { |f.closing| + Effort(f.notices) }

  lemma {:induction false} EffortUpdate(notices: seq<Delivery>, i: nat, d: Delivery)
    requires i < |notices|
    ensures Effort(notices[i := d]) ==
            Effort(notices) - |notices[i].left| - (if notices[i].resizeDue then 1 else 0)
            + |d.left| + (if d.resizeDue then 1 else 0)
    ensures Effort(Without(notices, i)) == Effort(notices) - |notices[i].left| - if notices[i].resizeDue then 1 else 0
  {
    var rest := notices[1..];
    if i == 0 {
      assert notices[i := d][1..] == rest && Without(notices, 0) == rest;
    } else {
      EffortUpdate(rest, i - 1, d);
      assert notices[i := d][1..] == rest[i - 1 := d];
      assert Without(notices, i)[1..] == Without(rest, i - 1);
    }
  }

  lemma ActWorks(f: Flight, turn: Turn)
    requires CanAct(f, turn)
    ensures Work(Act(f, turn)) < Work(f)
  {
    match turn
    case Resize(i) => EffortUpdate(f.notices, i, f.notices[i].(resizeDue := false));
    case Send(i, id) =>
      var d := f.notices[i];
      assert |d.left - {id}| == |d.left| - 1;
      EffortUpdate(f.notices, i, d.(left := d.left - {id}));
    case Shut(id) => assert |f.closing - {id}| == |f.closing| - 1;
  }

  lemma ActFirst(f: Flight, turn: Turn, acts: seq<Turn>, end: Flight)
    requires CanAct(f, turn) && Completes(Act(f, turn), acts, end)
    ensures Completes(f, [turn] + acts, end)
  {
    assert ([turn] + acts)[1..] == acts;
  }

  /** Something has gone wrong that no later send can repair. */
  ghost predicate Lost(f: Flight) {
    || f.panicked
    || (&& f.room.applied.Some?
        && (forall i | 0 <= i < |f.notices| :: Some(f.notices[i].size) != f.room.applied)
        && exists id :: id in f.room.viewers && Shows(f.room.viewers[id]) != f.room.applied)
  }

  lemma LostAct(f: Flight, turn: Turn)
    requires Lost(f) && CanAct(f, turn)
    ensures Lost(Act(f, turn))
  {
    if !f.panicked {
      var id :| id in f.room.viewers && Shows(f.room.viewers[id]) != f.room.applied;
      assert id in Act(f, turn).room.viewers && Shows(Act(f, turn).room.viewers[id]) != f.room.applied;
    }
  }

  /** Some act is possible while anything is under way. */
  lemma SomeAct(f: Flight, last: nat) returns (turn: Turn)
    requires Accounted(f, last) && (f.notices != [] || f.closing != {})
    ensures CanAct(f, turn)
  {
    if f.closing != {} {
      var id :| id in f.closing;
      turn := Shut(id);
    } else {
      turn := StepOf(f, last, 0);
    }
  }

  lemma StepOf(f: Flight, last: nat, i: nat) returns (turn: Turn)
    requires Accounted(f, last) && i < |f.notices|
    ensures CanAct(f, turn) && (turn == Resize(i) || (turn.Send? && turn.i == i))
  {
    if f.notices[i].resizeDue {
      turn := Resize(i);
    } else {
      var id :| id in f.notices[i].left;
      turn := Send(i, id);
    }
  }

  lemma {:induction false} LostCompletes(f: Flight, last: nat) returns (acts: seq<Turn>, end: Flight)
    requires Booked(f, last) && Lost(f)
    ensures Completes(f, acts, end) && (end.panicked || !InStep(end.room))
    decreases Work(f)
  {
    if f.notices == [] && f.closing == {} {
      acts, end := [], f;
    } else {
      var turn := SomeAct(f, last);
      ActAccounts(f, turn, last);
      ActWorks(f, turn);
      LostAct(f, turn);
      var rest;
      rest, end := LostCompletes(Act(f, turn), last);
      ActFirst(f, turn, rest, end);
      acts := [turn] + rest;
    }
  }

  /** Another delivery's act leaves the i-th one as it was, though perhaps one place earlier. */
  lemma StaysListed(f: Flight, turn: Turn, i: nat) returns (k: nat)
    requires i < |f.notices| && CanAct(f, turn) && (turn.Resize? || turn.Send? ==> turn.i != i)
    ensures k < |Act(f, turn).notices| && Act(f, turn).notices[k] == f.notices[i]
  {
    k := i;
    if turn.Send? {
      Kept(f.notices, turn.i, i);
      if turn.id in f.closed || f.notices[turn.i].left == {turn.id} {
        k := if i < turn.i then i else i - 1;
      }
    }
  }

  /** And if it was not sure it still is not: nobody has come back. */
  lemma Aside(f: Flight, last: nat, turn: Turn, i: nat) returns (k: nat)
    requires Booked(f, last) && i < |f.notices| && !Sure(f.notices[i], f.room)
    requires CanAct(f, turn) && (turn.Resize? || turn.Send? ==> turn.i != i)
    ensures k < |Act(f, turn).notices| && !Sure(Act(f, turn).notices[k], Act(f, turn).room)
  {
    k := StaysListed(f, turn, i);
    ActAccounts(f, turn, last);
  }

  /** The viewer to send to next so that a delivery that is not sure goes wrong at once. */
  lemma WrongSend(f: Flight, last: nat) returns (id: nat)
    requires Booked(f, last) && f.closing == {}
    requires |f.notices| == 1 && !f.notices[0].resizeDue && !Sure(f.notices[0], f.room)
    ensures CanAct(f, Send(0, id)) && Lost(SendStep(f, 0, id))
  {
    var d := f.notices[0];
    if d.left <= f.room.viewers.Keys {
      id :| id in d.left;
      assert id !in f.closed;
      assert Shows(SendStep(f, 0, id).room.viewers[id]) == Some(d.size);
    } else {
      id :| id in d.left && id !in f.room.viewers.Keys;
      assert id in f.closed;
    }
  }

  /** A delivery that is not sure, alone and with every channel closed that will be, goes wrong. */
  lemma AloneGoesWrong(f: Flight, last: nat) returns (acts: seq<Turn>, end: Flight)
    requires Booked(f, last) && f.closing == {}
    requires |f.notices| == 1 && !f.notices[0].resizeDue && !Sure(f.notices[0], f.room)
    ensures Completes(f, acts, end) && (end.panicked || !InStep(end.room))
  {
    var id := WrongSend(f, last);
    ActAccounts(f, Send(0, id), last);
    var rest;
    rest, end := LostCompletes(SendStep(f, 0, id), last);
    ActFirst(f, Send(0, id), rest, end);
    acts := [Send(0, id)] + rest;
  }

  /** A delivery that is not sure can go wrong: close every channel first, finish every other
      delivery, and it last. */
  lemma {:induction false} GoesWrong(f: Flight, last: nat, i: nat) returns (acts: seq<Turn>, end: Flight)
    requires Booked(f, last) && i < |f.notices| && !Sure(f.notices[i], f.room)
    ensures Completes(f, acts, end) && (end.panicked || !InStep(end.room))
    decreases Work(f)
  {
    if f.closing == {} && |f.notices| == 1 && !f.notices[0].resizeDue {
      acts, end := AloneGoesWrong(f, last);
    } else {
      var turn, k;
      if f.closing != {} {
        var id :| id in f.closing;
        turn := Shut(id);
        k := Aside(f, last, turn, i);
      } else if |f.notices| > 1 {
        turn := StepOf(f, last, if i == 0 then 1 else 0);
        k := Aside(f, last, turn, i);
      } else {
        turn, k := Resize(0), 0;
      }
      ActAccounts(f, turn, last);
      ActWorks(f, turn);
      var rest;
      rest, end := GoesWrong(Act(f, turn), last, k);
      ActFirst(f, turn, rest, end);
      acts := [turn] + rest;
    }
  }

  /** At every moment of every run without a panic so far: every way of interleaving what is
      under way ends without a panic and with viewers and terminal in step exactly when each
      delivery names the applied size (if there is one) and everyone it has yet to send to is
      still there. */
  lemma EveryOrderIff(flights: seq<Flight>, turns: seq<Turn>, ids: seq<nat>, i: nat)
    requires IsFlightRun(flights, turns, ids) && i < |flights| && !flights[i].panicked
    ensures EveryOrderInStep(flights[i])
            <==> forall j | 0 <= j < |flights[i].notices| :: Sure(flights[i].notices[j], flights[i].room)
  {
    var f := flights[i];
    FlightOkAlong(flights, turns, ids, i);
    if forall j | 0 <= j < |f.notices| :: Sure(f.notices[j], f.room) {
      CaughtIsSafe(f, ids[i]);
      forall acts: seq<Turn>, end: Flight | Completes(f, acts, end)
        ensures !end.panicked && InStep(end.room)
      {
        SafeCompletes(f, acts, end);
      }
    } else {
      var j :| 0 <= j < |f.notices| && !Sure(f.notices[j], f.room);
      var acts, end := GoesWrong(f, ids[i], j);
    }
  }

  // ---- what the viewers reported ----

  type Book = map<nat, Option<Size>>

  /** Who is there, and the size recorded for each. */
  function BookOf(vs: Viewers): Book { map id | id in vs :: vs[id].size }

  /** What a step does to the book, whatever it does to terminals and channels. */
  function Noted(book: Book, step: Step, id: nat): Book {
    match step
    case Join => if |book| < MAX_TTY_CLIENTS then book[id := None] else book
    case Leave(who) => book - {who}
    case Report(who, size) => if who in book then book[who := Some(size)] else book
    case Take(_) => book
  }

  lemma BookSize(vs: Viewers)
    ensures |BookOf(vs)| == |vs|
  {
    assert BookOf(vs).Keys == vs.Keys;
    assert |BookOf(vs)| == |BookOf(vs).Keys| && |vs| == |vs.Keys|;
  }

  lemma SettledBook(r: Room, after: Room)
    requires Settled(r, after)
    ensures BookOf(after.viewers) == BookOf(r.viewers)
  {
    var o :| IsShared(r.viewers, o) && var (mid, n) := Recomputed(r, o); after == Delivered(mid, n);
  }

  lemma IssuesBook(r: Room, f: Flight, closing: set<nat>, after: Flight)
    requires Issues(r, f, closing, after)
    ensures after.room.viewers == r.viewers
  {
    var o :| IsShared(r.viewers, o) && var (mid, n) := Recomputed(r, o); after.room == mid;
  }

  lemma JoinedBook(r: Room, id: nat)
    ensures BookOf(Joined(r, id).viewers) == Noted(BookOf(r.viewers), Join, id)
  {
    BookSize(r.viewers);
  }

  /** Every step keeps the book: a newcomer has no size, a leaver is struck out, a report by
      somebody who is there is recorded as it is, and nothing else changes it. */
  lemma StepBooks(r: Room, step: Step, id: nat, after: Room)
    requires Does(r, step, id, after)
    ensures BookOf(after.viewers) == Noted(BookOf(r.viewers), step, id)
  {
    match step
    case Join => JoinedBook(r, id);
    case Leave(who) =>
      SettledBook(r.(viewers := r.viewers - {who}), after);
      assert BookOf(r.viewers - {who}) == BookOf(r.viewers) - {who};
    case Report(who, size) =>
      if who in r.viewers {
        SettledBook(Sized(r, who, size), after);
        assert BookOf(Sized(r, who, size).viewers) == BookOf(r.viewers)[who := Some(size)];
      }
    case Take(_) =>
  }

  /** The step a turn takes under the lock, if it takes one. */
  function ActOf(turn: Turn): Option<Step> { if turn.Locked? then Some(turn.step) else None }

  function NotedAct(book: Book, act: Option<Step>, id: nat): Book {
    if act.Some? then Noted(book, act.value, id) else book
  }

  /** The same for the separate steps; deliveries do not touch the book. */
  lemma MoveBooks(f: Flight, turn: Turn, id: nat, after: Flight)
    requires Moves(f, turn, id, after)
    ensures BookOf(after.room.viewers) == NotedAct(BookOf(f.room.viewers), ActOf(turn), id)
  {
    match turn
    case Locked(Join) => JoinedBook(f.room, id);
    case Locked(Take(_)) =>
    case Locked(Leave(who)) =>
      var closing := f.closing + if who in f.room.viewers then {who} else {};
      IssuesBook(f.room.(viewers := f.room.viewers - {who}), f, closing, after);
      assert BookOf(f.room.viewers - {who}) == BookOf(f.room.viewers) - {who};
    case Locked(Report(who, size)) =>
      if who in f.room.viewers {
        IssuesBook(Sized(f.room, who, size), f, f.closing, after);
        assert BookOf(after.room.viewers) == BookOf(f.room.viewers)[who := Some(size)];
      }
    case _ =>
  }

  /** A book and what was done to it. */
  ghost predicate IsLedger(books: seq<Book>, acts: seq<Option<Step>>, ids: seq<nat>) {
    && |books| == |acts| + 1 == |ids| && books[0] == map[]
    && (forall i | 0 <= i < |acts| :: ids[i] <= ids[i + 1] && (acts[i] == Some(Join) ==> ids[i] < ids[i + 1]))
    && forall i | 0 <= i < |acts| :: books[i + 1] == NotedAct(books[i], acts[i], ids[i + 1])
  }

  /** Viewer `who` was let in by act `j` and has not left before moment `i`. */
  ghost predicate Stayed(books: seq<Book>, acts: seq<Option<Step>>, ids: seq<nat>, j: nat, i: nat, who: nat)
    requires IsLedger(books, acts, ids) && i <= |acts|
  {
    && j < i && acts[j] == Some(Join) && ids[j + 1] == who && |books[j]| < MAX_TTY_CLIENTS
    && forall k | j < k < i :: acts[k] != Some(Leave(who))
  }

  /** The last size `who` reported among the acts from `start` on, up to `stop`. */
  function LastReport(acts: seq<Option<Step>>, start: nat, stop: nat, who: nat): Option<Size>
    requires start <= stop <= |acts|
    decreases stop
  {
    if start == stop then None
    else
      match acts[stop - 1]
      case Some(Report(id, size)) => if id == who then Some(size) else LastReport(acts, start, stop - 1, who)
      case _ => LastReport(acts, start, stop - 1, who)
  }

  lemma LedgerStep(books: seq<Book>, acts: seq<Option<Step>>, ids: seq<nat>, i: nat)
    requires IsLedger(books, acts, ids) && 0 < i <= |acts|
    ensures books[i] == NotedAct(books[i - 1], acts[i - 1], ids[i])
    ensures ids[i - 1] <= ids[i] && (acts[i - 1] == Some(Join) ==> ids[i - 1] < ids[i])
  {
    var k := i - 1;
    assert books[k + 1] == NotedAct(books[k], acts[k], ids[k + 1]);
  }

  lemma {:induction false} LedgerNumbers(books: seq<Book>, acts: seq<Option<Step>>, ids: seq<nat>, i: nat, who: nat)
    requires IsLedger(books, acts, ids) && i <= |acts| && who in books[i]
    ensures who <= ids[i]
  {
    if i > 0 {
      LedgerStep(books, acts, ids, i);
      if who in books[i - 1] {
        LedgerNumbers(books, acts, ids, i - 1, who);
      }
    }
  }

  /** What one act does to the entry of somebody who is there and does not leave. */
  lemma EntryKept(book: Book, act: Option<Step>, id: nat, who: nat)
    requires who in book && act != Some(Leave(who)) && (act == Some(Join) ==> id != who)
    ensures who in NotedAct(book, act, id)
    ensures NotedAct(book, act, id)[who]
         == if act.Some? && act.value.Report? && act.value.id == who then Some(act.value.size) else book[who]
  {
  }

  /** Whoever was let in and has not left is in the book, with the last size it reported. */
  lemma {:induction false} LedgerKeeps(books: seq<Book>, acts: seq<Option<Step>>, ids: seq<nat>, j: nat, i: nat,
                                       who: nat)
    requires IsLedger(books, acts, ids) && i <= |acts| && Stayed(books, acts, ids, j, i, who)
    ensures who in books[i] && books[i][who] == LastReport(acts, j + 1, i, who)
  {
    LedgerStep(books, acts, ids, i);
    if j < i - 1 {
      LedgerKeeps(books, acts, ids, j, i - 1, who);
      LedgerNumbers(books, acts, ids, i - 1, who);
      EntryKept(books[i - 1], acts[i - 1], ids[i], who);
    }
  }

  /** And nobody else is. */
  lemma {:induction false} LedgerHolds(books: seq<Book>, acts: seq<Option<Step>>, ids: seq<nat>, i: nat, who: nat)
    returns (j: nat)
    requires IsLedger(books, acts, ids) && i <= |acts| && who in books[i]
    ensures Stayed(books, acts, ids, j, i, who)
  {
    LedgerStep(books, acts, ids, i);
    if who in books[i - 1] {
      j := LedgerHolds(books, acts, ids, i - 1, who);
    } else {
      j := i - 1;
    }
  }

  /** The book of every moment holds exactly those who were let in and have not left, each with
      the last size it reported since. */
  ghost predicate BooksExact(books: seq<Book>, acts: seq<Option<Step>>, ids: seq<nat>, i: nat, who: nat)
    requires IsLedger(books, acts, ids) && i <= |acts|
  {
    && (who in books[i] <==> exists j: nat :: Stayed(books, acts, ids, j, i, who))
    && forall j: nat | Stayed(books, acts, ids, j, i, who) ::
         who in books[i] && books[i][who] == LastReport(acts, j + 1, i, who)
  }

  lemma LedgerExact(books: seq<Book>, acts: seq<Option<Step>>, ids: seq<nat>, i: nat, who: nat)
    requires IsLedger(books, acts, ids) && i <= |acts|
    ensures BooksExact(books, acts, ids, i, who)
  {
    forall j: nat | Stayed(books, acts, ids, j, i, who)
      ensures who in books[i] && books[i][who] == LastReport(acts, j + 1, i, who)
    {
      LedgerKeeps(books, acts, ids, j, i, who);
    }
    if who in books[i] {
      var j := LedgerHolds(books, acts, ids, i, who);
    }
  }

  function RoomBooks(rooms: seq<Room>): seq<Book> {
    seq(|rooms|, i requires 0 <= i < |rooms| => BookOf(rooms[i].viewers))
  }

  function StepActs(steps: seq<Step>): seq<Option<Step>> {
    seq(|steps|, i requires 0 <= i < |steps| => Some(steps[i]))
  }

  lemma RunIsLedger(rooms: seq<Room>, steps: seq<Step>, ids: seq<nat>)
    requires IsRun(rooms, steps, ids)
    ensures IsLedger(RoomBooks(rooms), StepActs(steps), ids)
  {
    forall k | 0 <= k < |steps|
      ensures BookOf(rooms[k + 1].viewers) == NotedAct(BookOf(rooms[k].viewers), Some(steps[k]), ids[k + 1])
    {
      StepBooks(rooms[k], steps[k], ids[k + 1], rooms[k + 1]);
    }
    assert BookOf(rooms[0].viewers) == map[];
  }

  /** At every moment of every run the viewers are exactly those that were let in, below the
      limit of eight, and have not left, and the size recorded for each of them is the last one it
      has reported since, if any. */
  lemma RecordedSizes(rooms: seq<Room>, steps: seq<Step>, ids: seq<nat>, i: nat, who: nat)
    requires IsRun(rooms, steps, ids) && i < |rooms|
    ensures IsLedger(RoomBooks(rooms), StepActs(steps), ids) && RoomBooks(rooms)[i] == BookOf(rooms[i].viewers)
    ensures BooksExact(RoomBooks(rooms), StepActs(steps), ids, i, who)
  {
    RunIsLedger(rooms, steps, ids);
    LedgerExact(RoomBooks(rooms), StepActs(steps), ids, i, who);
  }

  function FlightBooks(flights: seq<Flight>): seq<Book> {
    seq(|flights|, i requires 0 <= i < |flights| => BookOf(flights[i].room.viewers))
  }

  function TurnActs(turns: seq<Turn>): seq<Option<Step>> {
    seq(|turns|, i requires 0 <= i < |turns| => ActOf(turns[i]))
  }

  lemma FlightIsLedger(flights: seq<Flight>, turns: seq<Turn>, ids: seq<nat>)
    requires IsFlightRun(flights, turns, ids)
    ensures IsLedger(FlightBooks(flights), TurnActs(turns), ids)
  {
    forall k | 0 <= k < |turns|
      ensures BookOf(flights[k + 1].room.viewers)
           == NotedAct(BookOf(flights[k].room.viewers), ActOf(turns[k]), ids[k + 1])
    {
      MoveBooks(flights[k], turns[k], ids[k + 1], flights[k + 1]);
    }
    assert BookOf(flights[0].room.viewers) == map[];
  }

  /** The same with every resize, send and close as a step of its own, panics included. */
  lemma FlightRecordedSizes(flights: seq<Flight>, turns: seq<Turn>, ids: seq<nat>, i: nat, who: nat)
    requires IsFlightRun(flights, turns, ids) && i < |flights|
    ensures IsLedger(FlightBooks(flights), TurnActs(turns), ids)
    ensures FlightBooks(flights)[i] == BookOf(flights[i].room.viewers)
    ensures BooksExact(FlightBooks(flights), TurnActs(turns), ids, i, who)
  {
    FlightIsLedger(flights, turns, ids);
    LedgerExact(FlightBooks(flights), TurnActs(turns), ids, i, who);
  }

  /** What a step leaves alone: the terminal is only ever given the applied size, and while that
      stays the same nothing new waits for those who stay. */
  lemma StepTells(r: Room, step: Step, id: nat, after: Room)
    requires Does(r, step, id, after)
    ensures after.pty != r.pty ==> after.pty == after.applied && after.pty.Some? && Positive(after.pty.value)
    ensures after.applied == r.applied ==> after.pty == r.pty
    ensures after.applied == r.applied && !step.Take? ==>
              forall who | who in r.viewers && who in after.viewers && (step.Join? ==> who != id) ::
                after.viewers[who].pending == r.viewers[who].pending && after.viewers[who].seen == r.viewers[who].seen
    ensures step.Take? ==> after.applied == r.applied
                           && forall who | who in r.viewers && who in after.viewers ::
                                && Shows(after.viewers[who]) == Shows(r.viewers[who])
                                && (who == step.id ==> after.viewers[who].pending == None)
                                && (who != step.id ==> after.viewers[who] == r.viewers[who])
  {
    match step
    case Join =>
    case Leave(who) => SettledTells(r.(viewers := r.viewers - {who}), after);
    case Report(who, size) =>
      if who in r.viewers {
        SettledTells(Sized(r, who, size), after);
      }
    case Take(_) =>
  }

  lemma SettledTells(r: Room, after: Room)
    requires Settled(r, after)
    ensures after.pty != r.pty ==> after.pty == after.applied && after.pty.Some? && Positive(after.pty.value)
    ensures after.applied == r.applied ==> after == r
  {
    var o :| IsShared(r.viewers, o) && var (mid, n) := Recomputed(r, o); after == Delivered(mid, n);
  }

  // ---- two runs ----

  ghost predicate Reachable(f: Flight, last: nat) {
    exists flights: seq<Flight>, turns: seq<Turn>, ids: seq<nat> ::
      IsFlightRun(flights, turns, ids) && flights[|turns|] == f && ids[|turns|] == last
  }

  lemma ReachNext(f: Flight, last: nat, turn: Turn, id: nat, after: Flight)
    requires Reachable(f, last) && Moves(f, turn, id, after)
    requires last <= id && (turn == Locked(Join) ==> last < id)
    ensures Reachable(after, id)
  {
    var flights: seq<Flight>, turns: seq<Turn>, ids: seq<nat> :|
      IsFlightRun(flights, turns, ids) && flights[|turns|] == f && ids[|turns|] == last;
    var flights', turns', ids' := flights + [after], turns + [turn], ids + [id];
    forall i | 0 <= i < |turns'|
      ensures Moves(flights'[i], turns'[i], ids'[i + 1], flights'[i + 1])
      ensures ids'[i] <= ids'[i + 1] && (turns'[i] == Locked(Join) ==> ids'[i] < ids'[i + 1])
    {
      if i < |turns| {
        assert Moves(flights[i], turns[i], ids[i + 1], flights[i + 1]);
      }
    }
    assert IsFlightRun(flights', turns', ids');
  }

  lemma StartReachable()
    ensures Reachable(EMPTY, 0)
  {
    assert IsFlightRun([EMPTY], [], [0]);
  }

  const WIDE: Size := Size(100, 40)
  const SMALL: Size := Size(80, 24)
  const MUTE: Viewer := Viewer(None, None, None)

  /** Viewers 1 and 2, nothing applied. */
  const PAIR: Flight := EMPTY.(room := Room(map[1 := MUTE, 2 := MUTE], None, None))

  lemma PairReachable()
    ensures Reachable(PAIR, 2)
  {
    var one := EMPTY.(room := Room(map[1 := MUTE], None, None));
    assert one.room.viewers.Keys == {1};
    assert |one.room.viewers| == |one.room.viewers.Keys| == 1;
    StartReachable();
    ReachNext(EMPTY, 0, Locked(Join), 1, one);
    ReachNext(one, 1, Locked(Join), 2, PAIR);
  }

  lemma IssueIs(r: Room, f: Flight, closing: set<nat>, o: Option<Size>, after: Flight)
    requires o.Some? && IsShared(r.viewers, o)
    requires after == Flight(r.(applied := o),
                             f.notices + if r.applied == o then [] else [Delivery(o.value, r.viewers.Keys, true)],
                             closing, f.closed, f.panicked)
    ensures Issues(r, f, closing, after)
  {
    var (mid, n) := Recomputed(r, o);
    assert mid == r.(applied := o);
  }

  /** Viewer 2 has reported 100x40. */
  function Reported100(): Flight {
    PAIR.(room := Room(map[1 := MUTE, 2 := Viewer(Some(WIDE), None, None)], Some(WIDE), None),
    notices := [Delivery(WIDE, {1, 2}, true)])
  }

  lemma ReportedReachable()
    ensures Reachable(Reported100(), 2)
  {
    var r := Sized(PAIR.room, 2, WIDE);
    var vs := Reported100().room.viewers;
    assert r.viewers == vs && vs.Keys == {1, 2};
    assert vs[2].size == Some(WIDE) && Reported(vs, WIDE);
    PairReachable();
    IssueIs(r, PAIR, {}, Some(WIDE), Reported100());
    ReachNext(PAIR, 2, Locked(Report(2, WIDE)), 2, Reported100());
  }

  /** Then viewer 1 reports 80x24 before that notice has gone out. */
  lemma TwoNoticesInFlight() returns (f: Flight)
    ensures Reachable(f, 2) && !f.panicked && f.room.applied == Some(SMALL)
    ensures f.notices == [Delivery(WIDE, {1, 2}, true), Delivery(SMALL, {1, 2}, true)]
    ensures !EveryOrderInStep(f)
  {
    var p := Reported100();
    var vs := p.room.viewers[1 := Viewer(Some(SMALL), None, None)];
    f := p.(room := Room(vs, Some(SMALL), None), notices := p.notices + [Delivery(SMALL, {1, 2}, true)]);
    assert Sized(p.room, 1, SMALL).viewers == vs && vs.Keys == {1, 2};
    assert vs[1].size == Some(SMALL) && Reported(vs, SMALL);
    ReportedReachable();
    IssueIs(Sized(p.room, 1, SMALL), p, {}, Some(SMALL), f);
    ReachNext(p, 2, Locked(Report(1, SMALL)), 2, f);
    NotSureNotInStep(f, 2, 0);
  }

  lemma NotSureNotInStep(f: Flight, last: nat, i: nat)
    requires Reachable(f, last) && i < |f.notices| && !Sure(f.notices[i], f.room)
    ensures !EveryOrderInStep(f)
  {
    var flights: seq<Flight>, turns: seq<Turn>, ids: seq<nat> :|
      IsFlightRun(flights, turns, ids) && flights[|turns|] == f && ids[|turns|] == last;
    FlightOkAlong(flights, turns, ids, |turns|);
    var acts, end := GoesWrong(f, last, i);
  }

  /** Viewer 1 leaves and its channel is closed while the one notice, of the applied size, is on
      its way: the terminal is resized, the send to viewer 1 panics, and viewer 2 is never told.
      Nothing is under way any more and the viewers do not agree with the applied size. */
  lemma DepartedViewerPanics() returns (f: Flight, g: Flight)
    ensures Reachable(f, 2) && !f.panicked && f.room.applied == Some(WIDE)
    ensures f.notices == [Delivery(WIDE, {1, 2}, true)] && !EveryOrderInStep(f)
    ensures Reachable(g, 2) && g.panicked && g.notices == [] && g.closing == {}
    ensures g.room.applied == g.room.pty == Some(WIDE)
    ensures 2 in g.room.viewers && Shows(g.room.viewers[2]) == None && !RoomOk(g.room, 2)
  {
    f := AfterLeaving();
    NotSureNotInStep(f, 2, 0);
    var shut := ShutStep(f, 1);
    var resized := ResizeStep(shut, 0);
    g := SendStep(resized, 0, 1);
    ReachNext(f, 2, Shut(1), 2, shut);
    ReachNext(shut, 2, Resize(0), 2, resized);
    ReachNext(resized, 2, Send(0, 1), 2, g);
    assert Shows(g.room.viewers[2]) != g.room.applied;
  }

  lemma AfterLeaving() returns (f: Flight)
    ensures Reachable(f, 2)
    ensures f == Flight(Room(map[2 := Viewer(Some(WIDE), None, None)], Some(WIDE), None),
                        [Delivery(WIDE, {1, 2}, true)], {1}, {}, false)
    ensures !Sure(f.notices[0], f.room)
  {
    var p := Reported100();
    var vs := map[2 := Viewer(Some(WIDE), None, None)];
    f := Flight(Room(vs, Some(WIDE), None), p.notices, {1}, {}, false);
    assert p.room.viewers - {1} == vs && vs.Keys == {2};
    assert vs[2].size == Some(WIDE) && Reported(vs, WIDE);
    assert 1 in f.notices[0].left && 1 !in vs.Keys;
    assert p.notices + [] == p.notices && {} + {1} == {1};
    ReportedReachable();
    IssueIs(p.room.(viewers := vs), p, {1}, Some(WIDE), f);
    ReachNext(p, 2, Locked(Leave(1)), 2, f);
  }

  /** The smaller of the running minimum and one more viewer's size. */
  function Lowest(m: Option<Size>, size: Option<Size>): Option<Size> {
    if size.None? then m
    else if m.None? then size
    else Some(Size(if size.value.cols < m.value.cols then size.value.cols else m.value.cols,
                   if size.value.rows < m.value.rows then size.value.rows else m.value.rows))
  }

  function Part(vs: Viewers, ids: set<nat>): Viewers { map id | id in vs && id in ids :: vs[id] }

  lemma PartGrows(vs: Viewers, ids: set<nat>, id: nat, m: Option<Size>)
    requires id in vs && id !in ids && IsShared(Part(vs, ids), m)
    ensures IsShared(Part(vs, ids + {id}), Lowest(m, vs[id].size))
  {
    var less, more := Part(vs, ids), Part(vs, ids + {id});
    assert forall k | k in less :: k in more && more[k] == less[k];
    forall s
      ensures Reported(more, s) <==> Reported(less, s) || vs[id].size == Some(s)
    {
      if vs[id].size == Some(s) {
        assert more[id].size == Some(s);
      } else if Reported(less, s) {
        var k :| k in less && less[k].size == Some(s);
        assert more[k].size == Some(s);
      }
    }
    SharedFromSizes(less, more, m, vs[id].size);
  }

  lemma SharedFromSizes(less: Viewers, more: Viewers, m: Option<Size>, size: Option<Size>)
    requires IsShared(less, m)
    requires forall s :: Reported(more, s) <==> Reported(less, s) || size == Some(s)
    ensures IsShared(more, Lowest(m, size))
  {
    var low := Lowest(m, size);
    forall id | id in more && more[id].size.Some?
      ensures low.Some? && low.value.cols <= more[id].size.value.cols && low.value.rows <= more[id].size.value.rows
    {
      assert Reported(more, more[id].size.value);
    }
    if low.Some? {
      if size.Some? {
        assert Reported(more, size.value);
      }
      if m.Some? {
        var s :| Reported(less, s) && s.cols == m.value.cols;
        var t :| Reported(less, t) && t.rows == m.value.rows;
        assert Reported(more, s) && Reported(more, t);
      }
    }
  }

  /** The server's maps. */
  datatype Maps = Maps(clients: map<string, Viewers>, applied: map<string, Size>, pty: map<string, Size>)

  function RoomIn(m: Maps, inst: string): Room {
    Room(if inst in m.clients then m.clients[inst] else map[],
         if inst in m.applied then Some(m.applied[inst]) else None,
         if inst in m.pty then Some(m.pty[inst]) else None)
  }

  ghost predicate SameBut<V>(m: map<string, V>, n: map<string, V>, inst: string) {
    forall k: string | k != inst :: (k in m <==> k in n) && (k in m ==> m[k] == n[k])
  }

  ghost predicate Elsewhere(m: Maps, n: Maps, inst: string) {
    SameBut(m.clients, n.clients, inst) && SameBut(m.applied, n.applied, inst) && SameBut(m.pty, n.pty, inst)
  }

  /** No instance keeps an empty set of viewers, and every room is in order. */
  ghost predicate AllOk(m: Maps, last: nat) {
    && (forall inst | inst in m.clients :: m.clients[inst] != map[])
    && forall inst: string :: RoomOk(RoomIn(m, inst), last)
  }

  lemma OneRoomChanged(m: Maps, last: nat, n: Maps, next: nat, inst: string)
    requires AllOk(m, last) && last <= next && Elsewhere(m, n, inst)
    requires RoomOk(RoomIn(n, inst), next) && (inst in n.clients ==> n.clients[inst] != map[])
    ensures AllOk(n, next)
  {
    forall k: string
      ensures RoomOk(RoomIn(n, k), next)
    {
      if k != inst {
        assert RoomOk(RoomIn(m, k), last);
        assert RoomIn(n, k) == RoomIn(m, k);
      }
    }
    forall k | k in n.clients
      ensures n.clients[k] != map[]
    {
      assert k != inst ==> k in m.clients;
    }
  }

  class Sizes {
    var clients: map<string, Viewers>
    var applied: map<string, Size>
    var pty: map<string, Size>
    var nextId: nat

    ghost function Now(): Maps
      reads this
    {
      Maps(clients, applied, pty)
    }

    ghost function At(inst: string): Room
      reads this
    {
      RoomIn(Now(), inst)
    }

    ghost predicate Valid()
      reads this
    {
      AllOk(Now(), nextId)
    }

    constructor ()
      ensures Valid() && Now() == Maps(map[], map[], map[])
    {
      clients, applied, pty, nextId := map[], map[], map[], 0;
    }

    method Admit(inst: string, id: nat) returns (ok: bool)
      requires inst in clients ==> clients[inst] != map[]
      modifies this`clients
      ensures Elsewhere(old(Now()), Now(), inst) && (inst in clients ==> clients[inst] != map[])
      ensures At(inst) == Joined(old(At(inst)), id) && (ok <==> |old(At(inst)).viewers| < MAX_TTY_CLIENTS)
    {
      var vs := if inst in clients then clients[inst] else map[];
      ok := |vs| < MAX_TTY_CLIENTS;
      if ok {
        var waiting := if inst in applied then Some(applied[inst]) else None;
        clients := clients[inst := vs[id := Viewer(None, waiting, None)]];
      }
    }

    /** registerTTYClient; refused when eight viewers are there already. */
    method Register(inst: string) returns (id: Option<nat>)
      requires Valid()
      modifies this
      ensures Valid() && nextId == old(nextId) + 1 && Elsewhere(old(Now()), Now(), inst)
      ensures Does(old(At(inst)), Join, nextId, At(inst))
      ensures BookOf(At(inst).viewers) == Noted(BookOf(old(At(inst)).viewers), Join, nextId)
      ensures id == if |old(At(inst)).viewers| < MAX_TTY_CLIENTS then Some(nextId) else None
    {
      nextId := nextId + 1;
      var ok := Admit(inst, nextId);
      id := if ok then Some(nextId) else None;
      assert RoomOk(old(At(inst)), old(nextId));
      JoinedBook(old(At(inst)), nextId);
      JoinKeeps(old(At(inst)), old(nextId), nextId);
      OneRoomChanged(old(Now()), old(nextId), Now(), nextId, inst);
    }

    /** recomputeTTYSizeLocked. */
    method Recompute(inst: string) returns (notice: Notice)
      modifies this`applied
      ensures Elsewhere(old(Now()), Now(), inst)
      ensures exists o | IsShared(old(At(inst)).viewers, o) :: (At(inst), notice) == Recomputed(old(At(inst)), o)
    {
      var vs := if inst in clients then clients[inst] else map[];
      var min: Option<Size>, notify: set<nat>, rest := None, {}, vs.Keys;
      while rest != {}
        invariant applied == old(applied) && rest <= vs.Keys && notify == vs.Keys - rest
        invariant IsShared(Part(vs, notify), min)
      {
        var id :| id in rest;
        PartGrows(vs, notify, id, min);
        notify, rest := notify + {id}, rest - {id};
        min := Lowest(min, vs[id].size);
      }
      assert notify == vs.Keys && Part(vs, notify) == vs;
      assert IsShared(old(At(inst)).viewers, min);
      if min.None? {
        applied, notice := applied - {inst}, Quiet;
      } else if inst in applied && applied[inst] == min.value {
        notice := Quiet;
      } else {
        applied, notice := applied[inst := min.value], Notice(min.value, notify);
      }
      assert At(inst) == Recomputed(old(At(inst)), min).0;
      assert notice == Recomputed(old(At(inst)), min).1;
    }

    /** One non-blocking send, dropping what waited when the slot is full. */
    method Send(inst: string, id: nat, size: Size)
      requires inst in clients && id in clients[inst]
      modifies this`clients
      ensures SameBut(old(clients), clients, inst) && inst in clients
      ensures clients[inst] == old(clients)[inst][id := old(clients)[inst][id].(pending := Some(size))]
    {
      var v := clients[inst][id];
      if v.pending.Some? {
        v := v.(pending := None);
      }
      v := v.(pending := Some(size));
      var vs: Viewers := clients[inst][id := v];
      clients := clients[inst := vs];
    }

    /** applyTTYSize. A send to a viewer whose channel is closed because it has left panics, in
        the middle of the deliveries; that cannot happen while the notice is the latest word on
        who is there. */
    method Apply(inst: string, notice: Notice) returns (panicked: bool)
      modifies this`clients, this`pty
      ensures Elsewhere(old(Now()), Now(), inst) && (inst in clients <==> inst in old(clients))
      ensures panicked <==> notice.Notice? && !(notice.ids <= old(At(inst)).viewers.Keys)
      ensures !panicked ==> At(inst) == Delivered(old(At(inst)), notice)
      ensures panicked ==> exists done: set<nat> | done <= notice.ids ::
                             At(inst) == Delivered(old(At(inst)), notice.(ids := done))
    {
      panicked := false;
      if notice.Notice? {
        if notice.size.cols > 0 && notice.size.rows > 0 {
          pty := pty[inst := notice.size];
        }
        ghost var vs, terminals := At(inst).viewers, pty;
        var rest := notice.ids;
        while rest != {}
          invariant pty == terminals
          invariant rest <= notice.ids && SameBut(old(clients), clients, inst)
          invariant inst in clients <==> inst in old(clients)
          invariant At(inst).viewers == Offered(vs, notice.size, notice.ids - rest)
          invariant notice.ids - rest <= vs.Keys
        {
          var id :| id in rest;
          if inst !in clients || id !in clients[inst] {
            ghost var done := notice.ids - rest;
            assert At(inst) == Delivered(old(At(inst)), notice.(ids := done));
            return true;
          }
          Send(inst, id, notice.size);
          rest := rest - {id};
        }
        assert notice.ids - {} == notice.ids;
      }
    }

    method Settle(inst: string)
      requires Unsettled(At(inst), nextId) && (inst in clients ==> clients[inst] != map[])
      modifies this`clients, this`applied, this`pty
      ensures Elsewhere(old(Now()), Now(), inst) && (inst in clients ==> clients[inst] != map[])
      ensures Settled(old(At(inst)), At(inst)) && RoomOk(At(inst), nextId)
    {
      ghost var before := At(inst);
      var notice := Recompute(inst);
      ghost var mid := At(inst);
      ghost var o :| IsShared(before.viewers, o) && (mid, notice) == Recomputed(before, o);
      if notice.Notice? {
        ghost var s :| Reported(before.viewers, s);
        assert inst in clients;
      }
      var panicked := Apply(inst, notice);
      assert !panicked && At(inst) == Delivered(mid, notice);
      SettleKeeps(before, nextId, o);
      assert At(inst).viewers.Keys == before.viewers.Keys;
    }

    method Remove(inst: string, id: nat)
      requires Valid()
      modifies this`clients
      ensures Elsewhere(old(Now()), Now(), inst) && (inst in clients ==> clients[inst] != map[])
      ensures At(inst) == old(At(inst)).(viewers := old(At(inst)).viewers - {id})
    {
      if inst in clients {
        var rest := clients[inst] - {id};
        clients := if |rest| == 0 then clients - {inst} else clients[inst := rest];
      }
    }

    /** unregisterTTYClient. */
    method Unregister(inst: string, id: nat)
      requires Valid()
      modifies this`clients, this`applied, this`pty
      ensures Valid() && Elsewhere(old(Now()), Now(), inst)
      ensures Does(old(At(inst)), Leave(id), nextId, At(inst))
      ensures BookOf(At(inst).viewers) == BookOf(old(At(inst)).viewers) - {id}
    {
      ghost var before := At(inst);
      assert RoomOk(before, nextId);
      Remove(inst, id);
      LeaveUnsettles(before, nextId, id);
      Settle(inst);
      StepBooks(before, Leave(id), nextId, At(inst));
      OneRoomChanged(old(Now()), nextId, Now(), nextId, inst);
    }

    /** updateTTYClientSize. */
    method Update(inst: string, id: nat, cols: int, rows: int)
      requires Valid()
      modifies this`clients, this`applied, this`pty
      ensures Valid() && Elsewhere(old(Now()), Now(), inst)
      ensures Does(old(At(inst)), Report(id, Size(cols, rows)), nextId, At(inst))
      ensures var book, after := BookOf(old(At(inst)).viewers), BookOf(At(inst).viewers);
              after == if id in book then book[id := Some(Size(cols, rows))] else book
    {
      ghost var before := At(inst);
      if inst !in clients || id !in clients[inst] {
        return;
      }
      clients := clients[inst := clients[inst][id := clients[inst][id].(size := Some(Size(cols, rows)))]];
      assert At(inst) == Sized(before, id, Size(cols, rows));
      assert RoomOk(before, nextId);
      ReportUnsettles(before, nextId, id, Size(cols, rows));
      Settle(inst);
      StepBooks(before, Report(id, Size(cols, rows)), nextId, At(inst));
      OneRoomChanged(old(Now()), nextId, Now(), nextId, inst);
    }

    /** The viewer's connection takes what waits on its channel. */
    method Take(inst: string, id: nat) returns (got: Option<Size>)
      requires Valid() && id in At(inst).viewers
      modifies this`clients
      ensures Valid() && Elsewhere(old(Now()), Now(), inst)
      ensures Does(old(At(inst)), Step.Take(id), nextId, At(inst))
      ensures got == old(At(inst)).viewers[id].pending
      ensures At(inst).viewers == old(At(inst)).viewers[id := At(inst).viewers[id]]
      ensures At(inst).viewers[id].pending == None && (got.Some? ==> At(inst).viewers[id].seen == got)
    {
      ghost var before := At(inst);
      var v := clients[inst][id];
      got := v.pending;
      if got.Some? {
        var vs: Viewers := clients[inst][id := Viewer(v.size, None, got)];
        clients := clients[inst := vs];
      }
      assert At(inst) == Taken(before, id);
      assert RoomOk(before, nextId);
      TakeKeeps(before, nextId, id);
      OneRoomChanged(old(Now()), nextId, Now(), nextId, inst);
    }
  }
}
