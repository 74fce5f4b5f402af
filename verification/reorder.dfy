/** Tab reordering (ReorderInstances in internal/framework/methods.go): when the new instance
    list is the old one in the requested order. */
module Reorders {
  /** The persisted record of one instance; `rest` stands for all fields but these two. */
  datatype Instance = Instance(id: string, worktree: string, rest: string)

  datatype Outcome = Reordered(instances: seq<Instance>) | Missing(id: string) | NotInWorktree(id: string)

  predicate Belongs(insts: seq<Instance>, id: string, worktree: string) {
    exists i :: 0 <= i < |insts| && insts[i].id == id && insts[i].worktree == worktree
  }

  function IdSet(order: seq<string>): set<string> { set i | 0 <= i < |order| :: order[i] }

  /** The first instance of the worktree that the order list forgets. */
  function FirstMissing(insts: seq<Instance>, worktree: string, ids: set<string>): seq<string> {
    if insts == [] then []
    else if insts[0].worktree == worktree && insts[0].id !in ids then [insts[0].id]
    else FirstMissing(insts[1..], worktree, ids)
  }

  /** The first listed id that is no instance of the worktree. */
  function FirstForeign(insts: seq<Instance>, worktree: string, order: seq<string>): seq<string> {
    if order == [] then []
    else if !Belongs(insts, order[0], worktree) then [order[0]]
    else FirstForeign(insts, worktree, order[1..])
  }

  /** The instance a map filled in list order holds for `id`: the last one. */
  function Lookup(insts: seq<Instance>, id: string): Instance {
    if insts == [] then Instance("", "", "")
    else if insts[|insts| - 1].id == id then insts[|insts| - 1]
    else Lookup(insts[..|insts| - 1], id)
  }

  function Listed(insts: seq<Instance>, order: seq<string>): seq<Instance> {
    seq(|order|, i requires 0 <= i < |order| => Lookup(insts, order[i]))
  }

  function Of(insts: seq<Instance>, worktree: string, inside: bool): seq<Instance> {
    if insts == [] then []
    else Of(insts[..|insts| - 1], worktree, inside)
         + if (insts[|insts| - 1].worktree == worktree) == inside then [insts[|insts| - 1]] else []
  }

  function Reorder(insts: seq<Instance>, worktree: string, order: seq<string>): Outcome {
    var missing := FirstMissing(insts, worktree, IdSet(order));
    var foreign := FirstForeign(insts, worktree, order);
    if missing != [] then Missing(missing[0])
    else if foreign != [] then NotInWorktree(foreign[0])
    else Reordered(Listed(insts, order) + Of(insts, worktree, false))
  }

  ghost predicate UniqueIds(insts: seq<Instance>) {
    forall i, j | 0 <= i < j < |insts| :: insts[i].id != insts[j].id
  }

  ghost predicate NoDuplicates<T>(s: seq<T>) {
    forall i, j | 0 <= i < j < |s| :: s[i] != s[j]
  }

  function Ids(insts: seq<Instance>): seq<string> {
    seq(|insts|, i requires 0 <= i < |insts| => insts[i].id)
  }

  /** The request is accepted exactly when the listed ids are the worktree's instances. */
  lemma AcceptedIff(insts: seq<Instance>, worktree: string, order: seq<string>)
    ensures Reorder(insts, worktree, order).Reordered?
            <==> && (forall i | 0 <= i < |insts| && insts[i].worktree == worktree :: insts[i].id in order)
                 && (forall i | 0 <= i < |order| :: Belongs(insts, order[i], worktree))
  {
    MissingIff(insts, worktree, IdSet(order));
    ForeignIff(insts, worktree, order);
    forall id
      ensures id in IdSet(order) <==> id in order
    {
      if id in order {
        var i :| 0 <= i < |order| && order[i] == id;
      }
    }
  }

  lemma {:induction false} MissingIff(insts: seq<Instance>, worktree: string, ids: set<string>)
    ensures FirstMissing(insts, worktree, ids) == []
            <==> forall i | 0 <= i < |insts| && insts[i].worktree == worktree :: insts[i].id in ids
  {
    if insts != [] {
      MissingIff(insts[1..], worktree, ids);
      forall i | 1 <= i < |insts|
        ensures insts[i] == insts[1..][i - 1]
      {
      }
    }
  }

  lemma {:induction false} ForeignIff(insts: seq<Instance>, worktree: string, order: seq<string>)
    ensures FirstForeign(insts, worktree, order) == []
            <==> forall i | 0 <= i < |order| :: Belongs(insts, order[i], worktree)
  {
    if order != [] {
      ForeignIff(insts, worktree, order[1..]);
      forall i | 1 <= i < |order|
        ensures order[i] == order[1..][i - 1]
      {
      }
    }
  }

  lemma {:induction false} LookupUnique(insts: seq<Instance>, i: nat)
    requires UniqueIds(insts) && i < |insts|
    ensures Lookup(insts, insts[i].id) == insts[i]
    decreases |insts|
  {
    var last := |insts| - 1;
    if i != last {
      assert insts[i].id != insts[last].id;
      LookupUnique(insts[..last], i);
    }
  }

  lemma {:induction false} OfMembers(insts: seq<Instance>, worktree: string, inside: bool, x: Instance)
    ensures x in Of(insts, worktree, inside) <==> x in insts && (x.worktree == worktree) == inside
    decreases |insts|
  {
    if insts != [] {
      OfMembers(insts[..|insts| - 1], worktree, inside, x);
      assert insts == insts[..|insts| - 1] + [insts[|insts| - 1]];
    }
  }

  lemma MultisetSnoc<T>(s: seq<T>, x: T)
    ensures multiset(s + [x]) == multiset(s) + multiset{x}
  {
  }

  lemma {:induction false} OfSplits(insts: seq<Instance>, worktree: string)
    ensures multiset(insts) == multiset(Of(insts, worktree, true)) + multiset(Of(insts, worktree, false))
    decreases |insts|
  {
    if insts != [] {
      var init, last := insts[..|insts| - 1], insts[|insts| - 1];
      OfSplits(init, worktree);
      assert insts == init + [last];
      MultisetSnoc(init, last);
      var inside := last.worktree == worktree;
      MultisetSnoc(Of(init, worktree, inside), last);
      assert Of(insts, worktree, inside) == Of(init, worktree, inside) + [last];
      assert Of(insts, worktree, !inside) == Of(init, worktree, !inside) + [];
      assert Of(init, worktree, !inside) + [] == Of(init, worktree, !inside);
    }
  }

  lemma {:induction false} OnceEach<T>(s: seq<T>, x: T)
    ensures NoDuplicates(s) ==> multiset(s)[x] == if x in s then 1 else 0
    decreases |s|
  {
    if s != [] && NoDuplicates(s) {
      var init, last := s[..|s| - 1], s[|s| - 1];
      assert s == init + [last];
      forall i, j | 0 <= i < j < |init|
        ensures init[i] != init[j]
      {
        assert s[i] != s[j];
      }
      OnceEach(init, x);
      assert last !in init;
    }
  }

  lemma TwiceSomewhere<T>(s: seq<T>, i: nat, j: nat)
    requires i < j < |s| && s[i] == s[j]
    ensures multiset(s)[s[i]] >= 2
  {
    assert s == s[..j] + [s[j]] + s[j + 1..];
    assert s[..j][i] == s[i];
    assert s[i] in multiset(s[..j]);
  }

  lemma OfUnique(insts: seq<Instance>, worktree: string, inside: bool)
    requires UniqueIds(insts)
    ensures NoDuplicates(Of(insts, worktree, inside))
    decreases |insts|
  {
    if insts != [] {
      var init, last := insts[..|insts| - 1], insts[|insts| - 1];
      OfUnique(init, worktree, inside);
      OfMembers(init, worktree, inside, last);
      assert last !in init;
    }
  }

  lemma ListedFaithful(insts: seq<Instance>, worktree: string, order: seq<string>)
    requires UniqueIds(insts) && Reorder(insts, worktree, order).Reordered?
    ensures Ids(Listed(insts, order)) == order
    ensures forall x :: x in Listed(insts, order) <==> x in insts && x.worktree == worktree
  {
    AcceptedIff(insts, worktree, order);
    var listed := Listed(insts, order);
    forall i | 0 <= i < |order|
      ensures listed[i].id == order[i] && listed[i] in insts && listed[i].worktree == worktree
    {
      assert Belongs(insts, order[i], worktree);
      var j :| 0 <= j < |insts| && insts[j].id == order[i] && insts[j].worktree == worktree;
      LookupUnique(insts, j);
    }
    forall x | x in insts && x.worktree == worktree
      ensures x in listed
    {
      var j :| 0 <= j < |insts| && insts[j] == x;
      LookupUnique(insts, j);
      var i :| 0 <= i < |order| && order[i] == x.id;
      assert listed[i] == x;
    }
  }

  /** `index` lists, in increasing order, exactly the places of the instances outside the
      worktree. */
  ghost predicate PlacesOutside(insts: seq<Instance>, worktree: string, index: seq<nat>) {
    && (forall k, l | 0 <= k < l < |index| :: index[k] < index[l])
    && (forall k | 0 <= k < |index| :: index[k] < |insts| && insts[index[k]].worktree != worktree)
    && (forall i: nat | i < |insts| && insts[i].worktree != worktree :: i in index)
  }

  /** Behind the first `n` entries of `after` come all instances outside the worktree, once each
      and in the order they had. */
  ghost predicate OthersKept(insts: seq<Instance>, worktree: string, n: nat, after: seq<Instance>) {
    exists index: seq<nat> | PlacesOutside(insts, worktree, index) ::
      |after| == n + |index| && forall k | 0 <= k < |index| :: after[n + k] == insts[index[k]]
  }

  /** The place of one more instance, if it is outside the worktree. */
  function Place(last: Instance, n: nat, worktree: string): seq<nat> { if last.worktree != worktree then [n] else [] }

  lemma PlacesSnoc(init: seq<Instance>, last: Instance, worktree: string, index: seq<nat>)
    requires PlacesOutside(init, worktree, index)
    ensures PlacesOutside(init + [last], worktree, index + Place(last, |init|, worktree))
  {
    var both := index + Place(last, |init|, worktree);
    forall i: nat | i < |init| + 1 && (init + [last])[i].worktree != worktree
      ensures i in both
    {
      if i < |init| {
        assert i in index;
      } else {
        assert both[|index|] == i;
      }
    }
  }

  lemma {:induction false} OfKeepsOrder(insts: seq<Instance>, worktree: string) returns (index: seq<nat>)
    ensures PlacesOutside(insts, worktree, index)
    ensures var outside := Of(insts, worktree, false);
            |outside| == |index| && forall k | 0 <= k < |index| :: outside[k] == insts[index[k]]
    decreases |insts|
  {
    index := [];
    if insts != [] {
      var n := |insts| - 1;
      var before := OfKeepsOrder(insts[..n], worktree);
      index := before + Place(insts[n], n, worktree);
      PlacesSnoc(insts[..n], insts[n], worktree, before);
      assert insts[..n] + [insts[n]] == insts;
    }
  }

  lemma BehindKept(listed: seq<Instance>, insts: seq<Instance>, worktree: string)
    ensures OthersKept(insts, worktree, |listed|, listed + Of(insts, worktree, false))
  {
    var index := OfKeepsOrder(insts, worktree);
    var after, outside := listed + Of(insts, worktree, false), Of(insts, worktree, false);
    assert forall k | 0 <= k < |index| :: after[|listed| + k] == outside[k] == insts[index[k]];
  }

  /** An accepted request lists the worktree's instances in exactly the requested order, in
      front, and leaves all others in their old order behind them. */
  lemma ReorderPlaces(insts: seq<Instance>, worktree: string, order: seq<string>)
    requires UniqueIds(insts) && Reorder(insts, worktree, order).Reordered?
    ensures var after := Reorder(insts, worktree, order).instances;
            && |order| <= |after|
            && Ids(after[..|order|]) == order
            && (forall i | 0 <= i < |order| :: after[i] in insts && after[i].worktree == worktree)
            && OthersKept(insts, worktree, |order|, after)
  {
    ListedFaithful(insts, worktree, order);
    var after, listed := Reorder(insts, worktree, order).instances, Listed(insts, order);
    BehindKept(listed, insts, worktree);
    assert after[..|order|] == listed;
    forall i | 0 <= i < |order|
      ensures after[i] in insts && after[i].worktree == worktree
    {
      assert listed[i] in listed;
    }
  }

  /** With ids that are not unique, the instance listed for an id is the last one that has it. */
  lemma {:induction false} LookupLast(insts: seq<Instance>, id: string) returns (i: nat)
    requires exists k :: 0 <= k < |insts| && insts[k].id == id
    ensures i < |insts| && insts[i].id == id && Lookup(insts, id) == insts[i]
    ensures forall k | i < k < |insts| :: insts[k].id != id
    decreases |insts|
  {
    i := |insts| - 1;
    if insts[i].id != id {
      var k :| 0 <= k < |insts| && insts[k].id == id;
      assert insts[..|insts| - 1][k].id == id;
      i := LookupLast(insts[..|insts| - 1], id);
    }
  }

  /** Each listed id has, in its place, the last instance of that id. */
  ghost predicate InListOrder(insts: seq<Instance>, order: seq<string>, after: seq<Instance>) {
    |order| <= |after| && forall i | 0 <= i < |order| :: IsLast(insts, order[i], after[i])
  }

  ghost predicate IsLast(insts: seq<Instance>, id: string, x: Instance) {
    exists j :: 0 <= j < |insts| && insts[j] == x && x.id == id && forall k | j < k < |insts| :: insts[k].id != id
  }

  /** What an accepted request does, whether or not ids are unique. */
  lemma AcceptedPlaces(insts: seq<Instance>, worktree: string, order: seq<string>)
    requires Reorder(insts, worktree, order).Reordered?
    ensures var after := Reorder(insts, worktree, order).instances;
            InListOrder(insts, order, after) && OthersKept(insts, worktree, |order|, after)
  {
    AcceptedIff(insts, worktree, order);
    var after := Reorder(insts, worktree, order).instances;
    BehindKept(Listed(insts, order), insts, worktree);
    forall i | 0 <= i < |order|
      ensures IsLast(insts, order[i], after[i])
    {
      assert Belongs(insts, order[i], worktree);
      var j := LookupLast(insts, order[i]);
    }
  }

  /** A refusal names the first offender: the first instance of the worktree that the list
      forgets or, when it forgets none, the first listed id that is no instance of it. */
  ghost predicate Names(insts: seq<Instance>, worktree: string, order: seq<string>, r: Outcome) {
    match r
    case Reordered(_) => true
    case Missing(id) =>
      exists i :: 0 <= i < |insts| && insts[i].id == id && insts[i].worktree == worktree && id !in order
                  && forall k | 0 <= k < i && insts[k].worktree == worktree :: insts[k].id in order
    case NotInWorktree(id) =>
      && (forall k | 0 <= k < |insts| && insts[k].worktree == worktree :: insts[k].id in order)
      && exists i :: 0 <= i < |order| && order[i] == id && !Belongs(insts, id, worktree)
                     && forall k | 0 <= k < i :: Belongs(insts, order[k], worktree)
  }

  lemma {:induction false} MissingNames(insts: seq<Instance>, worktree: string, ids: set<string>) returns (i: nat)
    requires FirstMissing(insts, worktree, ids) != []
    ensures i < |insts| && FirstMissing(insts, worktree, ids) == [insts[i].id]
    ensures insts[i].worktree == worktree && insts[i].id !in ids
    ensures forall k | 0 <= k < i && insts[k].worktree == worktree :: insts[k].id in ids
  {
    i := 0;
    if !(insts[0].worktree == worktree && insts[0].id !in ids) {
      var j := MissingNames(insts[1..], worktree, ids);
      i := j + 1;
      assert forall k | 1 <= k < |insts| :: insts[k] == insts[1..][k - 1];
    }
  }

  lemma {:induction false} ForeignNames(insts: seq<Instance>, worktree: string, order: seq<string>) returns (i: nat)
    requires FirstForeign(insts, worktree, order) != []
    ensures i < |order| && FirstForeign(insts, worktree, order) == [order[i]]
    ensures !Belongs(insts, order[i], worktree)
    ensures forall k | 0 <= k < i :: Belongs(insts, order[k], worktree)
  {
    i := 0;
    if Belongs(insts, order[0], worktree) {
      var j := ForeignNames(insts, worktree, order[1..]);
      i := j + 1;
      assert forall k | 1 <= k < |order| :: order[k] == order[1..][k - 1];
    }
  }

  lemma InIdSet(order: seq<string>)
    ensures forall id :: id in IdSet(order) <==> id in order
  {
  }

  lemma RefusalNames(insts: seq<Instance>, worktree: string, order: seq<string>)
    ensures Names(insts, worktree, order, Reorder(insts, worktree, order))
  {
    var r := Reorder(insts, worktree, order);
    InIdSet(order);
    if r.Missing? {
      var i := MissingNames(insts, worktree, IdSet(order));
    } else if r.NotInWorktree? {
      MissingIff(insts, worktree, IdSet(order));
      var i := ForeignNames(insts, worktree, order);
    }
  }

  lemma Cancel<T>(a: multiset<T>, b: multiset<T>, c: multiset<T>)
    ensures a + c == b + c <==> a == b
  {
    if a + c == b + c {
      forall x
        ensures a[x] == b[x]
      {
        assert (a + c)[x] == (b + c)[x];
      }
    }
  }

  /** Looking ids up keeps repeats and adds none. */
  lemma ListedRepeats(insts: seq<Instance>, order: seq<string>)
    requires Ids(Listed(insts, order)) == order
    ensures NoDuplicates(Listed(insts, order)) <==> NoDuplicates(order)
  {
    if NoDuplicates(order) {
      ListedDistinct(Listed(insts, order), order);
    } else {
      var i, j :| 0 <= i < j < |order| && order[i] == order[j];
      assert Listed(insts, order)[i] == Listed(insts, order)[j];
    }
  }

  lemma ListedDistinct(listed: seq<Instance>, order: seq<string>)
    requires Ids(listed) == order && NoDuplicates(order)
    ensures NoDuplicates(listed)
  {
    forall i, j | 0 <= i < j < |listed|
      ensures listed[i] != listed[j]
    {
      assert order[i] == listed[i].id && order[j] == listed[j].id;
    }
  }

  /** Two lists with the same members, the second free of repeats, are permutations of each
      other exactly when the first is free of repeats too. */
  lemma SameMembers<T>(a: seq<T>, b: seq<T>)
    requires NoDuplicates(b) && forall x :: x in a <==> x in b
    ensures multiset(a) == multiset(b) <==> NoDuplicates(a)
  {
    if NoDuplicates(a) {
      forall x
        ensures multiset(a)[x] == multiset(b)[x]
      {
        OnceEach(a, x);
        OnceEach(b, x);
      }
    } else {
      var i, j :| 0 <= i < j < |a| && a[i] == a[j];
      TwiceSomewhere(a, i, j);
      OnceEach(b, a[i]);
    }
  }

  /** An accepted request only permutes the instances exactly when it names no id twice: the
      checks do not look for repeats, and a repeated id duplicates its instance. */
  lemma PermutationIffNoRepeats(insts: seq<Instance>, worktree: string, order: seq<string>)
    requires UniqueIds(insts) && Reorder(insts, worktree, order).Reordered?
    ensures multiset(Reorder(insts, worktree, order).instances) == multiset(insts) <==> NoDuplicates(order)
  {
    ListedFaithful(insts, worktree, order);
    ListedRepeats(insts, order);
    InsideMembers(insts, worktree, Listed(insts, order));
    OfSplits(insts, worktree);
    var listed, inside, outside := Listed(insts, order), Of(insts, worktree, true), Of(insts, worktree, false);
    assert multiset(listed + outside) == multiset(listed) + multiset(outside);
    Cancel(multiset(listed), multiset(inside), multiset(outside));
  }

  lemma InsideMembers(insts: seq<Instance>, worktree: string, listed: seq<Instance>)
    requires UniqueIds(insts)
    requires forall x :: x in listed <==> x in insts && x.worktree == worktree
    ensures multiset(listed) == multiset(Of(insts, worktree, true)) <==> NoDuplicates(listed)
  {
    var inside := Of(insts, worktree, true);
    OfUnique(insts, worktree, true);
    forall x
      ensures x in listed <==> x in inside
    {
      OfMembers(insts, worktree, true, x);
    }
    SameMembers(listed, inside);
  }

  /** A two-tab worktree ordered as [a, b, a] gains a third record. */
  lemma RepeatedIdDuplicates()
    ensures var a, b := Instance("a", "w", "A"), Instance("b", "w", "B");
            Reorder([a, b], "w", ["a", "b", "a"]) == Reordered([a, b, a])
  {
    var a, b := Instance("a", "w", "A"), Instance("b", "w", "B");
    var insts, order := [a, b], ["a", "b", "a"];
    AcceptedIff(insts, "w", order);
    assert insts[0].id == "a" && insts[1].id == "b";
    assert order[0] == "a" && order[1] == "b";
    assert UniqueIds(insts);
    LookupUnique(insts, 0);
    LookupUnique(insts, 1);
    assert Listed(insts, order) == [a, b, a];
    assert Of(insts[..1][..0], "w", false) == [] && Of(insts[..1], "w", false) == [] && Of(insts, "w", false) == [];
  }

  method CollectIds(order: seq<string>) returns (idSet: set<string>)
    ensures idSet == IdSet(order)
  {
    idSet := {};
    for i := 0 to |order|
      invariant idSet == IdSet(order[..i])
    {
      assert order[..i + 1] == order[..i] + [order[i]];
      IdSetSnoc(order[..i], order[i]);
      idSet := idSet + {order[i]};
    }
    assert order[..|order|] == order;
  }

  method FindForeign(insts: seq<Instance>, worktree: string, order: seq<string>) returns (bad: seq<string>)
    ensures bad == FirstForeign(insts, worktree, order)
  {
    for i := 0 to |order|
      invariant FirstForeign(insts, worktree, order) == FirstForeign(insts, worktree, order[i..])
    {
      var found := false;
      for j := 0 to |insts|
        invariant !found
        invariant forall k | 0 <= k < j :: !(insts[k].id == order[i] && insts[k].worktree == worktree)
      {
        if insts[j].id == order[i] && insts[j].worktree == worktree {
          found := true;
          break;
        }
      }
      if !found {
        return [order[i]];
      }
    }
    bad := [];
  }

  method IndexById(insts: seq<Instance>) returns (idToInst: map<string, Instance>)
    ensures forall id | id in idToInst :: idToInst[id] == Lookup(insts, id)
    ensures forall k | 0 <= k < |insts| :: insts[k].id in idToInst
  {
    idToInst := map[];
    for i := 0 to |insts|
      invariant forall id | id in idToInst :: idToInst[id] == Lookup(insts[..i], id)
      invariant forall k | 0 <= k < i :: insts[k].id in idToInst
    {
      assert insts[..i + 1][..i] == insts[..i];
      idToInst := idToInst[insts[i].id := insts[i]];
    }
    assert insts[..|insts|] == insts;
  }

  method BuildOrder(insts: seq<Instance>, worktree: string, order: seq<string>) returns (newOrder: seq<Instance>)
    requires forall i | 0 <= i < |order| :: Belongs(insts, order[i], worktree)
    ensures newOrder == Listed(insts, order) + Of(insts, worktree, false)
    ensures OthersKept(insts, worktree, |order|, newOrder)
  {
    var idToInst := IndexById(insts);
    newOrder := [];
    for i := 0 to |order|
      invariant newOrder == Listed(insts, order[..i])
    {
      assert Belongs(insts, order[i], worktree);
      newOrder := newOrder + [idToInst[order[i]]];
    }
    assert order[..|order|] == order;
    for i := 0 to |insts|
      invariant newOrder == Listed(insts, order) + Of(insts[..i], worktree, false)
    {
      assert insts[..i + 1][..i] == insts[..i];
      if insts[i].worktree != worktree {
        newOrder := newOrder + [insts[i]];
      }
    }
    assert insts[..|insts|] == insts;
    BehindKept(Listed(insts, order), insts, worktree);
  }

  /** The checks and the rebuild of ReorderInstances. */
  method ReorderInstances(insts: seq<Instance>, worktree: string, order: seq<string>) returns (r: Outcome)
    ensures r == Reorder(insts, worktree, order) && Names(insts, worktree, order, r)
    ensures r.Reordered? ==> OthersKept(insts, worktree, |order|, r.instances)
  {
    RefusalNames(insts, worktree, order);
    var idSet := CollectIds(order);
    for i := 0 to |insts|
      invariant FirstMissing(insts, worktree, idSet) == FirstMissing(insts[i..], worktree, idSet)
    {
      if insts[i].worktree == worktree && insts[i].id !in idSet {
        return Missing(insts[i].id);
      }
    }
    var bad := FindForeign(insts, worktree, order);
    if bad != [] {
      return NotInWorktree(bad[0]);
    }
    ForeignIff(insts, worktree, order);
    var newOrder := BuildOrder(insts, worktree, order);
    r := Reordered(newOrder);
  }

  lemma IdSetSnoc(order: seq<string>, id: string)
    ensures IdSet(order + [id]) == IdSet(order) + {id}
  {
    var both := order + [id];
    forall x | x in IdSet(order) + {id}
      ensures x in IdSet(both)
    {
      if x == id {
        assert both[|order|] == id;
      } else {
        var i :| 0 <= i < |order| && order[i] == x;
        assert both[i] == x;
      }
    }
  }
}
