/** The optimistic-lock state file (internal/store/state.go) and its retrying writers
    (updateStore and persistNewInstance in internal/framework/manager.go, ReorderInstances in
    internal/framework/methods.go): concurrent load/modify/save calls amount to a serial
    history. */
module Stores {
  import opened Reorders

  const MAX_RETRIES: nat := 3

  datatype State = State(instances: seq<Instance>, tabOrder: map<string, seq<string>>, version: int)

  datatype Edit = Edited(inst: Instance) | EditError

  /** What a writer wants done to whatever state it loads. An update's callback may depend on
      the attempt (it stamps the current time). */
  datatype Op =
    | Update(id: string, edit: (nat, Instance) -> Edit)
    | Append(inst: Instance)
    | Rearrange(worktree: string, order: seq<string>, expected: int)

  datatype Attempt = Changed(st: State) | Refused

  /** The first instance with this id, or the list's length. */
  function IndexOf(insts: seq<Instance>, id: string): (i: nat)
    ensures i <= |insts|
    ensures i < |insts| ==> insts[i].id == id
    ensures forall j | 0 <= j < i :: insts[j].id != id
  {
    if insts == [] then 0
    else if insts[0].id == id then 0
    else
      assert forall j | 1 <= j < |insts| :: insts[j] == insts[1..][j - 1];
      1 + IndexOf(insts[1..], id)
  }

  function Apply(op: Op, attempt: nat, st: State): Attempt {
    match op
    case Update(id, edit) =>
      var i := IndexOf(st.instances, id);
      if i == |st.instances| then Refused
      else
        (match edit(attempt, st.instances[i])
         case EditError => Refused
         case Edited(inst) => Changed(st.(instances := st.instances[i := inst])))
    case Append(inst) =>
      var tabs := if inst.worktree in st.tabOrder then st.tabOrder[inst.worktree] else [];
      Changed(st.(instances := st.instances + [inst], tabOrder := st.tabOrder[inst.worktree := tabs + [inst.id]]))
    case Rearrange(worktree, order, _) =>
      if worktree == "" then Refused
      else
        match Reorder(st.instances, worktree, order)
        case Reordered(insts) => Changed(st.(instances := insts, tabOrder := st.tabOrder[worktree := order]))
        case _ => Refused
  }

  datatype Saved = Written(st: State) | Conflict

  /** SaveWithVersion: check and increment under the exclusive lock. */
  function Save(current: State, st: State, expected: int): Saved {
    if expected >= 0 && current.version != expected then Conflict
    else Written(st.(version := current.version + 1))
  }

  function Expected(op: Op, loaded: State): int {
    if op.Rearrange? then op.expected else loaded.version
  }

  function Tries(op: Op): nat { if op.Rearrange? then 1 else MAX_RETRIES }

  datatype Commit = Commit(call: nat, op: Op, attempt: nat)

  datatype Serial = Reached(st: State) | Impossible

  /** One committed edit, applied to the state before it. */
  function Replay(st: State, c: Commit): Serial {
    match Apply(c.op, c.attempt, st)
    case Refused => Impossible
    case Changed(after) => Reached(after.(version := st.version + 1))
  }

  /** The committed edits applied one after the other, nothing in between. */
  function ReplayAll(init: State, log: seq<Commit>): Serial {
    if log == [] then Reached(init)
    else
      match ReplayAll(init, log[..|log| - 1])
      case Impossible => Impossible
      case Reached(st) => Replay(st, log[|log| - 1])
  }

  // ---- what the operations do, said of the states before and after ----

  type Callback = (nat, Instance) -> Edit

  ghost predicate EditedAt(st: State, after: State, i: nat, id: string, attempt: nat, edit: Callback)
    requires i < |st.instances| == |after.instances|
  {
    && st.instances[i].id == id && (forall j | 0 <= j < i :: st.instances[j].id != id)
    && edit(attempt, st.instances[i]) == Edited(after.instances[i])
    && forall j | 0 <= j < |st.instances| && j != i :: after.instances[j] == st.instances[j]
  }

  /** The first instance with this id is now what the callback made of it; all else is as it was. */
  ghost predicate EditLanded(st: State, after: State, id: string, attempt: nat, edit: Callback) {
    && |after.instances| == |st.instances| && after.tabOrder == st.tabOrder
    && exists i: nat :: i < |st.instances| && EditedAt(st, after, i, id, attempt, edit)
  }

  /** The tab lists of all worktrees but this one are as they were. */
  ghost predicate OtherTabs(st: State, after: State, worktree: string) {
    && after.tabOrder.Keys == st.tabOrder.Keys + {worktree}
    && forall w | w in st.tabOrder && w != worktree :: after.tabOrder[w] == st.tabOrder[w]
  }

  /** The instance is the last one, and its id the last tab of its worktree. */
  ghost predicate AppendLanded(st: State, after: State, inst: Instance) {
    && after.instances == st.instances + [inst]
    && OtherTabs(st, after, inst.worktree)
    && var tabs := after.tabOrder[inst.worktree];
       && tabs != [] && tabs[|tabs| - 1] == inst.id
       && tabs[..|tabs| - 1] == if inst.worktree in st.tabOrder then st.tabOrder[inst.worktree] else []
  }

  /** The worktree's instances and its tabs are in the requested order. */
  ghost predicate OrderLanded(st: State, after: State, worktree: string, order: seq<string>) {
    && worktree != "" && InListOrder(st.instances, order, after.instances)
    && OthersKept(st.instances, worktree, |order|, after.instances)
    && OtherTabs(st, after, worktree) && after.tabOrder[worktree] == order
  }

  ghost predicate Landed(op: Op, attempt: nat, st: State, after: State) {
    match op
    case Update(id, edit) => EditLanded(st, after, id, attempt, edit)
    case Append(inst) => AppendLanded(st, after, inst)
    case Rearrange(worktree, order, _) => OrderLanded(st, after, worktree, order)
  }

  /** When there is nothing to save: no such instance, or the callback refused it; or a
      rearrangement that names no worktree or does not list exactly its instances. */
  ghost predicate NothingToSave(op: Op, attempt: nat, st: State) {
    match op
    case Update(id, edit) =>
      forall i | 0 <= i < |st.instances| && st.instances[i].id == id ::
        edit(attempt, st.instances[i]).EditError? || exists j :: 0 <= j < i && st.instances[j].id == id
    case Append(_) => false
    case Rearrange(worktree, order, _) =>
      || worktree == ""
      || (exists i :: 0 <= i < |st.instances| && st.instances[i].worktree == worktree && st.instances[i].id !in order)
      || exists i :: 0 <= i < |order| && !Belongs(st.instances, order[i], worktree)
  }

  /** An attempt refuses exactly when there is nothing to save, and otherwise lands. */
  lemma ApplyLands(op: Op, attempt: nat, st: State)
    ensures Apply(op, attempt, st).Refused? <==> NothingToSave(op, attempt, st)
    ensures Apply(op, attempt, st).Changed? ==>
              var after := Apply(op, attempt, st).st; Landed(op, attempt, st, after) && after.version == st.version
  {
    match op
    case Update(id, edit) => UpdateLands(id, edit, attempt, st);
    case Append(inst) =>
    case Rearrange(worktree, order, expected) =>
      AcceptedIff(st.instances, worktree, order);
      if Apply(op, attempt, st).Changed? {
        AcceptedPlaces(st.instances, worktree, order);
      }
  }

  lemma UpdateLands(id: string, edit: Callback, attempt: nat, st: State)
    ensures Apply(Update(id, edit), attempt, st).Refused? <==> NothingToSave(Update(id, edit), attempt, st)
    ensures Apply(Update(id, edit), attempt, st).Changed? ==>
              EditLanded(st, Apply(Update(id, edit), attempt, st).st, id, attempt, edit)
  {
    var i := IndexOf(st.instances, id);
    if i < |st.instances| && edit(attempt, st.instances[i]).Edited? {
      var after := Apply(Update(id, edit), attempt, st).st;
      assert EditedAt(st, after, i, id, attempt, edit);
    }
  }

  lemma ReplayLands(st: State, c: Commit)
    ensures Replay(st, c).Reached? ==>
              Landed(c.op, c.attempt, st, Replay(st, c).st) && Replay(st, c).st.version == st.version + 1
  {
    ApplyLands(c.op, c.attempt, st);
    if Replay(st, c).Reached? {
      LandedAnyVersion(c.op, c.attempt, st, Apply(c.op, c.attempt, st).st, st.version + 1);
    }
  }

  /** The last commit of a serial history landed on what the ones before it had left. */
  ghost predicate LastLanded(init: State, log: seq<Commit>, c: Commit, base: State, st: State) {
    ReplayAll(init, log) == Reached(base) && Landed(c.op, c.attempt, base, st) && st.version == base.version + 1
  }

  lemma LastLands(init: State, log: seq<Commit>, c: Commit, st: State) returns (base: State)
    requires ReplayAll(init, log + [c]) == Reached(st)
    ensures LastLanded(init, log, c, base, st)
  {
    ReplaySnoc(init, log, c);
    base := ReplayAll(init, log).st;
    ReplayLands(base, c);
  }

  lemma EditAnyVersion(st: State, after: State, id: string, attempt: nat, edit: Callback, version: int)
    requires EditLanded(st, after, id, attempt, edit)
    ensures EditLanded(st, after.(version := version), id, attempt, edit)
  {
    var i: nat :| i < |st.instances| && EditedAt(st, after, i, id, attempt, edit);
    assert EditedAt(st, after.(version := version), i, id, attempt, edit);
  }

  lemma LandedAnyVersion(op: Op, attempt: nat, st: State, after: State, version: int)
    requires Landed(op, attempt, st, after)
    ensures Landed(op, attempt, st, after.(version := version))
  {
    if op.Update? {
      EditAnyVersion(st, after, op.id, attempt, op.edit, version);
    }
  }

  /** What a rearrangement that the checks accept saves, whatever version it is given. */
  lemma OrderSaved(st: State, worktree: string, order: seq<string>, version: int)
    requires worktree != "" && Reorder(st.instances, worktree, order).Reordered?
    ensures var insts := Reorder(st.instances, worktree, order).instances;
            OrderLanded(st, State(insts, st.tabOrder[worktree := order], version), worktree, order)
  {
    AcceptedPlaces(st.instances, worktree, order);
  }

  // ---- interleavings ----

  datatype Status = Ready(attempt: nat) | Loaded(attempt: nat, snap: State) | Committed | Errored | Exhausted

  datatype Call = Call(op: Op, status: Status)

  datatype System = System(store: State, calls: map<nat, Call>, log: seq<Commit>)

  /** Loads and saves are atomic under the file locks; anything may happen between them. */
  datatype Step = BeginCall(p: nat, op: Op) | LoadStep(p: nat) | SaveStep(p: nat) | IoError(p: nat)

  /** A rearranging client passes a version it was given, so it is not negative and not newer
      than what a later load sees. */
  predicate HonestVersion(op: Op, loaded: State) {
    op.Rearrange? ==> 0 <= op.expected <= loaded.version
  }

  predicate Enabled(s: System, step: Step) {
    match step
    case BeginCall(p, _) => p !in s.calls
    case LoadStep(p) => p in s.calls && s.calls[p].status.Ready? && HonestVersion(s.calls[p].op, s.store)
    case SaveStep(p) => p in s.calls && s.calls[p].status.Loaded?
    case IoError(p) => p in s.calls && (s.calls[p].status.Ready? || s.calls[p].status.Loaded?)
  }

  function Become(s: System, p: nat, status: Status): System
    requires p in s.calls
  {
    s.(calls := s.calls[p := s.calls[p].(status := status)])
  }

  function DoSave(s: System, p: nat): System
    requires p in s.calls && s.calls[p].status.Loaded?
  {
    var Call(op, Loaded(attempt, snap)) := s.calls[p];
    match Apply(op, attempt, snap)
    case Refused => Become(s, p, Errored)
    case Changed(st) =>
      match Save(s.store, st, Expected(op, snap))
      case Written(stored) => Become(s.(store := stored, log := s.log + [Commit(p, op, attempt)]), p, Committed)
      case Conflict => Become(s, p, if attempt + 1 < Tries(op) then Ready(attempt + 1) else Exhausted)
  }

  function Next(s: System, step: Step): System
    requires Enabled(s, step)
  {
    match step
    case BeginCall(p, op) => s.(calls := s.calls[p := Call(op, Ready(0))])
    case LoadStep(p) => Become(s, p, Loaded(s.calls[p].status.attempt, s.store))
    case SaveStep(p) => DoSave(s, p)
    case IoError(p) => Become(s, p, Errored)
  }

  function CommitsOf(log: seq<Commit>, p: nat): nat {
    if log == [] then 0 else CommitsOf(log[..|log| - 1], p) + if log[|log| - 1].call == p then 1 else 0
  }

  ghost predicate SnapOk(s: System, c: Call) {
    c.status.Loaded? ==>
      && c.status.snap.version <= s.store.version
      && (c.status.snap.version == s.store.version ==> c.status.snap == s.store)
      && HonestVersion(c.op, c.status.snap)
      && 0 <= c.status.snap.version
  }

  ghost predicate Inv(s: System, init: State) {
    && 0 <= init.version
    && ReplayAll(init, s.log) == Reached(s.store)
    && s.store.version == init.version + |s.log|
    && (forall p | p in s.calls :: SnapOk(s, s.calls[p]))
    && (forall p | p in s.calls :: CommitsOf(s.log, p) == if s.calls[p].status.Committed? then 1 else 0)
    && (forall p | p !in s.calls :: CommitsOf(s.log, p) == 0)
  }

  lemma ReplaySnoc(init: State, log: seq<Commit>, c: Commit)
    ensures ReplayAll(init, log + [c]) ==
            match ReplayAll(init, log) case Impossible => Impossible case Reached(st) => Replay(st, c)
    ensures forall p :: CommitsOf(log + [c], p) == CommitsOf(log, p) + if c.call == p then 1 else 0
  {
    assert (log + [c])[..|log|] == log;
  }

  /** A save that the version check lets through was made from the current state. */
  lemma SavedFromCurrent(s: System, init: State, p: nat)
    requires Inv(s, init) && p in s.calls && s.calls[p].status.Loaded?
    requires var c := s.calls[p]; Save(s.store, s.store, Expected(c.op, c.status.snap)).Written?
    ensures s.calls[p].status.snap == s.store
  {
    assert SnapOk(s, s.calls[p]);
  }

  lemma InvSave(s: System, init: State, p: nat)
    requires Inv(s, init) && Enabled(s, SaveStep(p))
    ensures Inv(Next(s, SaveStep(p)), init)
  {
    var Call(op, Loaded(attempt, snap)) := s.calls[p];
    var t := DoSave(s, p);
    if Apply(op, attempt, snap).Changed? && Save(s.store, s.store, Expected(op, snap)).Written? {
      SavedFromCurrent(s, init, p);
      ReplaySnoc(init, s.log, Commit(p, op, attempt));
      forall q | q in t.calls
        ensures SnapOk(t, t.calls[q])
      {
        assert q != p ==> SnapOk(s, s.calls[q]);
      }
    } else {
      forall q | q in t.calls
        ensures SnapOk(t, t.calls[q])
      {
        assert SnapOk(s, s.calls[q]);
      }
    }
  }

  lemma InvNext(s: System, init: State, step: Step)
    requires Inv(s, init) && Enabled(s, step)
    ensures Inv(Next(s, step), init)
  {
    if step.SaveStep? {
      InvSave(s, init, step.p);
    } else {
      var t := Next(s, step);
      forall q | q in t.calls
        ensures SnapOk(t, t.calls[q])
      {
        assert q in s.calls ==> SnapOk(s, s.calls[q]);
      }
    }
  }

  predicate Possible(s: System, steps: seq<Step>)
    decreases |steps|
  {
    steps == [] || (Enabled(s, steps[0]) && Possible(Next(s, steps[0]), steps[1..]))
  }

  function Run(s: System, steps: seq<Step>): System
    requires Possible(s, steps)
    decreases |steps|
  {
    if steps == [] then s else Run(Next(s, steps[0]), steps[1..])
  }

  lemma {:induction false} InvRun(s: System, init: State, steps: seq<Step>)
    requires Inv(s, init) && Possible(s, steps)
    ensures Inv(Run(s, steps), init)
    decreases |steps|
  {
    if steps != [] {
      InvNext(s, init, steps[0]);
      InvRun(Next(s, steps[0]), init, steps[1..]);
    }
  }

  /** Any interleaving of the calls' loads and saves ends in the state obtained by applying the
      committed edits serially in commit order, the version one higher per commit; a call that
      reported success committed exactly once, and every other call nothing at all. */
  lemma Serializable(init: State, steps: seq<Step>)
    requires 0 <= init.version && Possible(System(init, map[], []), steps)
    ensures var s := Run(System(init, map[], []), steps);
            && ReplayAll(init, s.log) == Reached(s.store)
            && s.store.version == init.version + |s.log|
            && forall p | p in s.calls :: CommitsOf(s.log, p) == if s.calls[p].status.Committed? then 1 else 0
  {
    InvRun(System(init, map[], []), init, steps);
  }

  lemma {:induction false} SerialStep(init: State, log: seq<Commit>, k: nat) returns (before: State, after: State)
    requires ReplayAll(init, log).Reached? && k < |log|
    ensures ReplayAll(init, log[..k]) == Reached(before) && ReplayAll(init, log[..k + 1]) == Reached(after)
    ensures Replay(before, log[k]) == Reached(after)
    decreases |log|
  {
    if k == |log| - 1 {
      assert log[..k + 1] == log;
      before, after := ReplayAll(init, log[..k]).st, ReplayAll(init, log).st;
    } else {
      var past := log[..|log| - 1];
      before, after := SerialStep(init, past, k);
      assert past[..k] == log[..k] && past[..k + 1] == log[..k + 1];
    }
  }

  /** In that serial history every commit has landed: an update's callback was applied to the
      first instance with its id, an append is last in the list and in its worktree's tabs, a
      rearrangement has its order; and nothing else was touched. */
  lemma CommitsLand(init: State, steps: seq<Step>, k: nat) returns (before: State, after: State)
    requires 0 <= init.version && Possible(System(init, map[], []), steps)
    requires k < |Run(System(init, map[], []), steps).log|
    ensures var log := Run(System(init, map[], []), steps).log;
            && ReplayAll(init, log[..k]) == Reached(before) && ReplayAll(init, log[..k + 1]) == Reached(after)
            && Landed(log[k].op, log[k].attempt, before, after) && after.version == before.version + 1
  {
    InvRun(System(init, map[], []), init, steps);
    var log := Run(System(init, map[], []), steps).log;
    before, after := SerialStep(init, log, k);
    ReplayLands(before, log[k]);
  }

  function SavesBy(steps: seq<Step>, p: nat): nat {
    if steps == [] then 0 else (if steps[0] == SaveStep(p) then 1 else 0) + SavesBy(steps[1..], p)
  }

  /** Call `p` has tried to save `n` times, whatever it did besides. */
  ghost predicate Tried(s: System, p: nat, n: nat) {
    if p !in s.calls then n == 0
    else
      var Call(op, status) := s.calls[p];
      match status
      case Ready(attempt) => n == attempt < Tries(op)
      case Loaded(attempt, _) => n == attempt < Tries(op)
      case Committed => 0 < n <= Tries(op)
      case Errored => n <= Tries(op)
      case Exhausted => n == Tries(op)
  }

  lemma TriedNext(s: System, step: Step, p: nat, n: nat)
    requires Enabled(s, step) && Tried(s, p, n)
    ensures Tried(Next(s, step), p, n + if step == SaveStep(p) then 1 else 0)
  {
  }

  lemma {:induction false} TriedRun(s: System, steps: seq<Step>, p: nat, n: nat)
    requires Possible(s, steps) && Tried(s, p, n)
    ensures Tried(Run(s, steps), p, n + SavesBy(steps, p))
    decreases |steps|
  {
    if steps != [] {
      var more := if steps[0] == SaveStep(p) then 1 else 0;
      TriedNext(s, steps[0], p, n);
      TriedRun(Next(s, steps[0]), steps[1..], p, n + more);
    }
  }

  /** In every run a call saves at most three times (a rearrangement once), and gives up for
      conflicts only when it has. */
  lemma GivesUpLast(init: State, steps: seq<Step>, p: nat)
    requires Possible(System(init, map[], []), steps)
    requires p in Run(System(init, map[], []), steps).calls
    ensures var c := Run(System(init, map[], []), steps).calls[p];
            && SavesBy(steps, p) <= (if c.op.Rearrange? then 1 else 3)
            && (c.status.Exhausted? ==> SavesBy(steps, p) == if c.op.Rearrange? then 1 else 3)
            && (c.status.Ready? || c.status.Loaded? ==> SavesBy(steps, p) < if c.op.Rearrange? then 1 else 3)
  {
    TriedRun(System(init, map[], []), steps, p, 0);
  }

  /** With an honest version a stale rearrangement changes nothing. */
  lemma StaleRearrangeRefused(init: State, steps: seq<Step>, p: nat)
    requires 0 <= init.version && Possible(System(init, map[], []), steps)
    requires Enabled(Run(System(init, map[], []), steps), SaveStep(p))
    requires Run(System(init, map[], []), steps).calls[p].op.Rearrange?
    ensures var s := Run(System(init, map[], []), steps);
            var t := Next(s, SaveStep(p));
            s.calls[p].op.expected != s.store.version ==>
              && t.store == s.store && t.log == s.log
              && (t.calls[p].status.Errored? || t.calls[p].status.Exhausted?)
  {
    InvRun(System(init, map[], []), init, steps);
    var s := Run(System(init, map[], []), steps);
    assert SnapOk(s, s.calls[p]);
  }

  /** Which expected versions make the check sound: a save is sure to land on the very state it
      was prepared from, whatever the file has become since, exactly when the expected version
      is neither negative nor newer than the loaded one. */
  lemma HonestyIsExact(snap: State, expected: int)
    ensures (forall current: State |
               && current.version >= snap.version
               && (current.version == snap.version ==> current == snap)
               && Save(current, snap, expected).Written? :: current == snap)
            <==> 0 <= expected <= snap.version
  {
    if expected < 0 {
      assert Save(snap.(version := snap.version + 1), snap, expected).Written?;
    } else if expected > snap.version {
      assert Save(snap.(version := expected), snap, expected).Written?;
    }
  }

  /** The version check is what the serial history rests on: a negative expected version skips
      it, and a rearrangement saved from an old load then wipes out a committed append. */
  lemma UncheckedSaveLosesCommit()
    ensures var a, b := Instance("a", "w", ""), Instance("b", "w", "");
            var st0 := State([a], map["w" := ["a"]], 0);
            var st1 := Save(st0, Apply(Append(b), 0, st0).st, 0).st;
            var op := Rearrange("w", ["a"], -1);
            && b in st1.instances
            && Apply(op, 0, st0).Changed?
            && Save(st1, Apply(op, 0, st0).st, Expected(op, st0)).Written?
            && b !in Save(st1, Apply(op, 0, st0).st, Expected(op, st0)).st.instances
  {
    var a, b := Instance("a", "w", ""), Instance("b", "w", "");
    var st0 := State([a], map["w" := ["a"]], 0);
    assert (st0.instances + [b])[1] == b;
    AcceptedIff([a], "w", ["a"]);
    assert [a][0].id == "a" && ["a"][0] == "a";
    assert UniqueIds([a]);
    LookupUnique([a], 0);
    assert Listed([a], ["a"]) == [a];
    assert [a][..0] == [] && Of([a][..0], "w", false) == [] && Of([a], "w", false) == [];
  }

  // ---- the retry loops themselves ----

  lemma LogAssoc<T>(a: seq<T>, b: seq<T>, c: seq<T>)
    ensures (a + b) + c == a + (b + c)
  {
  }

  datatype Result = Ok | NotFound | CallbackError | VersionConflict

  /** The state file, with the history of commits made to it. */
  class FileStore {
    var st: State
    ghost var log: seq<Commit>
    ghost const init: State

    constructor (initial: State)
      requires 0 <= initial.version
      ensures Valid() && st == initial == init && log == []
    {
      st, log, init := initial, [], initial;
    }

    /** The file is the serial result of its history. */
    ghost predicate Valid()
      reads this
    {
      && 0 <= init.version
      && ReplayAll(init, log) == Reached(st)
      && st.version == init.version + |log|
    }

    method Load() returns (loaded: State)
      ensures loaded == st
    {
      loaded := st;
    }

    /** `c` names the edit that turned the loaded state into `next`, for the history. A negative
        expected version is never in conflict. The history stays serial whenever `next` was made
        from the state it replaces. */
    method SaveWithVersion(next: State, expected: int, ghost c: Commit) returns (ok: bool)
      modifies this
      ensures ok <==> expected < 0 || expected == old(st).version
      ensures st == if ok then next.(version := old(st).version + 1) else old(st)
      ensures log == if ok then old(log) + [c] else old(log)
      ensures old(Valid()) && (ok ==> Apply(c.op, c.attempt, old(st)) == Changed(next)) ==> Valid()
    {
      var current := Load();
      if expected >= 0 && current.version != expected {
        return false;
      }
      ReplaySnoc(init, log, c);
      st := next.(version := current.version + 1);
      log := log + [c];
      ok := true;
    }

    /** Other writers committing whole edits while this one is between its load and its save. */
    method Others(edits: seq<Commit>) returns (ghost done: seq<Commit>)
      requires Valid()
      modifies this
      ensures Valid() && log == old(log) + done && (done == [] ==> st == old(st))
      ensures forall i | 0 <= i < |done| :: done[i] in edits
    {
      done := [];
      for i := 0 to |edits|
        invariant Valid() && log == old(log) + done && (done == [] ==> st == old(st))
        invariant forall j | 0 <= j < |done| :: done[j] in edits
      {
        var a := Apply(edits[i].op, edits[i].attempt, st);
        if a.Changed? {
          var ok := SaveWithVersion(a.st, st.version, edits[i]);
          done := done + [edits[i]];
        }
      }
    }

    /** The search and the callback of one attempt, on the state it loaded. */
    static method EditOne(st1: State, id: string, attempt: nat, edit: (nat, Instance) -> Edit)
      returns (r: Result, next: State)
      ensures Apply(Update(id, edit), attempt, st1) == if r.Ok? then Changed(next) else Refused
      ensures r.NotFound? <==> forall inst | inst in st1.instances :: inst.id != id
      ensures r.Ok? || r.NotFound? || r.CallbackError?
      ensures r.Ok? ==> EditLanded(st1, next, id, attempt, edit) && next.version == st1.version
    {
      next := st1;
      var i := 0;
      while i < |st1.instances| && st1.instances[i].id != id
        invariant 0 <= i <= |st1.instances|
        invariant forall j | 0 <= j < i :: st1.instances[j].id != id
      {
        i := i + 1;
      }
      if i == |st1.instances| {
        return NotFound, next;
      }
      assert i == IndexOf(st1.instances, id);
      var e := edit(attempt, st1.instances[i]);
      if e.EditError? {
        return CallbackError, next;
      }
      next := st1.(instances := st1.instances[i := e.inst]);
      r := Ok;
      assert EditedAt(st1, next, i, id, attempt, edit);
    }

    /** The save of one attempt, after other writers' commits. */
    method TrySave(loaded: State, next: State, busy: seq<Commit>, ghost c: Commit)
      returns (ok: bool, ghost done: seq<Commit>)
      requires Valid() && loaded == st && Apply(c.op, c.attempt, st) == Changed(next)
      modifies this
      ensures Valid() && (ok <==> done == [])
      ensures log == old(log) + done + if ok then [c] else []
      ensures ok ==> st == next.(version := loaded.version + 1)
    {
      done := Others(busy);
      ok := SaveWithVersion(next, loaded.version, c);
    }

    /** One turn of updateStore's loop. */
    method TryUpdate(me: nat, id: string, attempt: nat, edit: (nat, Instance) -> Edit, busy: seq<Commit>)
      returns (r: Result, ghost done: seq<Commit>)
      requires Valid()
      modifies this
      ensures Valid() && (r.VersionConflict? ==> done != [])
      ensures log == old(log) + done + if r.Ok? then [Commit(me, Update(id, edit), attempt)] else []
      ensures r.NotFound? || r.CallbackError? ==> Apply(Update(id, edit), attempt, st).Refused?
      ensures r.Ok? ==>
                done == [] && EditLanded(old(st), st, id, attempt, edit) && st.version == old(st).version + 1
    {
      done := [];
      var st1 := Load();
      var next;
      r, next := EditOne(st1, id, attempt, edit);
      if r.Ok? {
        var ok;
        ok, done := TrySave(st1, next, busy, Commit(me, Update(id, edit), attempt));
        r := if ok then Ok else VersionConflict;
        EditAnyVersion(st1, next, id, attempt, edit, st1.version + 1);
      }
    }

    /** updateStore. `busy(k)` is what other writers may commit during attempt `k`. It gives up
        only after another writer got in between in each of its attempts; when it succeeds, the
        edit is in the file, made to the state `base` that the others had left. */
    method UpdateStore(me: nat, id: string, edit: (nat, Instance) -> Edit, busy: nat -> seq<Commit>)
      returns (r: Result, ghost others: seq<Commit>, ghost attempt: nat, ghost base: State)
      requires Valid()
      modifies this
      ensures Valid()
      ensures log == old(log) + others + if r.Ok? then [Commit(me, Update(id, edit), attempt)] else []
      ensures r.NotFound? || r.CallbackError? ==> Apply(Update(id, edit), attempt, st).Refused?
      ensures if r.VersionConflict? then |others| >= MAX_RETRIES else attempt < MAX_RETRIES
      ensures r.Ok? ==> LastLanded(init, old(log) + others, Commit(me, Update(id, edit), attempt), base, st)
    {
      others, attempt, r, base := [], 0, VersionConflict, st;
      for k := 0 to MAX_RETRIES
        invariant Valid() && log == old(log) + others && |others| >= k && r.VersionConflict?
      {
        attempt := k;
        ghost var done;
        r, done := TryUpdate(me, id, k, edit, busy(k));
        LogAssoc(old(log), others, done);
        others := others + done;
        if r.Ok? {
          base := LastLands(init, old(log) + others, Commit(me, Update(id, edit), k), st);
        }
        if !r.VersionConflict? {
          return;
        }
      }
    }

    /** persistNewInstance. */
    method PersistNewInstance(me: nat, inst: Instance, busy: nat -> seq<Commit>)
      returns (r: Result, ghost others: seq<Commit>, ghost attempt: nat, ghost base: State)
      requires Valid()
      modifies this
      ensures Valid() && (r.Ok? || r.VersionConflict?)
      ensures log == old(log) + others + if r.Ok? then [Commit(me, Append(inst), attempt)] else []
      ensures if r.VersionConflict? then |others| >= MAX_RETRIES else attempt < MAX_RETRIES
      ensures r.Ok? ==> LastLanded(init, old(log) + others, Commit(me, Append(inst), attempt), base, st)
    {
      others, attempt, base := [], 0, st;
      for k := 0 to MAX_RETRIES
        invariant Valid() && log == old(log) + others && |others| >= k
      {
        attempt := k;
        var st1 := Load();
        var tabs := if inst.worktree in st1.tabOrder then st1.tabOrder[inst.worktree] else [];
        var next := State(st1.instances + [inst], st1.tabOrder[inst.worktree := tabs + [inst.id]], st1.version);
        var ok, done := TrySave(st1, next, busy(k), Commit(me, Append(inst), k));
        LogAssoc(old(log), others, done);
        others := others + done;
        if ok {
          base := LastLands(init, old(log) + others, Commit(me, Append(inst), k), st);
          return Ok, others, attempt, base;
        }
      }
      r := VersionConflict;
    }

    /** ReorderInstances: it commits exactly when the checks pass on the state it loaded and the
        client's version is negative or still the file's after what other writers did
        meanwhile. With a version the client was honestly given the history stays serial. */
    method Rearrange(me: nat, worktree: string, order: seq<string>, expected: int, busy: seq<Commit>)
      returns (ok: bool, ghost others: seq<Commit>)
      requires Valid()
      modifies this
      ensures log == old(log) + others + if ok then [Commit(me, Op.Rearrange(worktree, order, expected), 0)] else []
      ensures ok <==> && Apply(Op.Rearrange(worktree, order, expected), 0, old(st)).Changed?
                      && (expected < 0 || expected == old(st).version + |others|)
      ensures ok ==> st == Apply(Op.Rearrange(worktree, order, expected), 0, old(st)).st
                           .(version := old(st).version + |others| + 1)
      ensures ok ==> OrderLanded(old(st), st, worktree, order)
      ensures !ok || 0 <= expected <= old(st).version ==> Valid()
    {
      ok, others := false, [];
      if worktree == "" {
        return;
      }
      var st1 := Load();
      var outcome := ReorderInstances(st1.instances, worktree, order);
      if outcome.Reordered? {
        var next := State(outcome.instances, st1.tabOrder[worktree := order], st1.version);
        others := Others(busy);
        ok := SaveWithVersion(next, expected, Commit(me, Op.Rearrange(worktree, order, expected), 0));
        if ok {
          OrderSaved(st1, worktree, order, st.version);
        }
      }
    }
  }
}
