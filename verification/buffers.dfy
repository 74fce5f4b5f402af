/** Ring-buffer memory: how large a buffer an instance is granted (internal/framework/memsampler.go)
    and the accounting of the live ones (AllocateBuffer and dropBuffer in
    internal/framework/methods.go, the buffer path of Start in internal/framework/manager.go). */
module Buffers {
  import opened RingBuffers

  const DEFAULT_BUFFER_CAP: int := 0x200_0000
  const MIN_BUFFER_CAP: int := 0x100_0000
  const MAX_BUFFER_CAP: int := 0x1000_0000

  datatype MemStat = MemStat(total: int, available: int, used: int)

  /** What asking for a memory snapshot gives: no sampler, a failed sample, or a sample. */
  datatype Sample = NoSampler | Failed | Sampled(vm: MemStat)

  datatype Grant = Granted(capBytes: int) | OverBudget(usedBytes: int, limitBytes: int, systemBytes: int)

  predicate InRange(c: int) { MIN_BUFFER_CAP <= c <= MAX_BUFFER_CAP }

  function ClampCap(v: int): (c: int)
    ensures InRange(c) && (InRange(v) ==> c == v)
    ensures forall w | InRange(w) :: (v <= c <= w) || (w <= c <= v)
  {
    if v < MIN_BUFFER_CAP then MIN_BUFFER_CAP
    else if v > MAX_BUFFER_CAP then MAX_BUFFER_CAP
    else v
  }

  /** `free` is what the sample leaves available: the figure it reports or, when it reports none,
      what is not used; 0 without a sample or when that is not positive either. */
  ghost predicate LeavesFree(sample: Sample, free: nat) {
    if !sample.Sampled? then free == 0
    else if sample.vm.available > 0 then free == sample.vm.available
    else if sample.vm.used < sample.vm.total then free + sample.vm.used == sample.vm.total
    else free == 0
  }

  /** A configured size is taken, cut to the range; without one the size is in range. */
  function AdaptiveCap(cfgBytes: int, sample: Sample): (c: int)
    ensures InRange(c) && (InRange(cfgBytes) ==> c == cfgBytes)
    ensures cfgBytes > MAX_BUFFER_CAP ==> c == MAX_BUFFER_CAP
    ensures 0 < cfgBytes < MIN_BUFFER_CAP ==> c == MIN_BUFFER_CAP
  {
    if cfgBytes > 0 then ClampCap(cfgBytes)
    else
      match sample
      case NoSampler => DEFAULT_BUFFER_CAP
      case Failed => DEFAULT_BUFFER_CAP
      case Sampled(vm) =>
        var avail := if vm.available <= 0 then vm.total - vm.used else vm.available;
        if avail <= 0 then DEFAULT_BUFFER_CAP else ClampCap(avail / 16)
  }

  /** Without a configured size, sixteen such buffers fit in free memory unless the minimum says
      otherwise, and no larger ones would unless the maximum does; the default when nothing is
      known. */
  lemma AdaptiveFits(cfgBytes: int, sample: Sample, free: nat)
    requires cfgBytes <= 0 && LeavesFree(sample, free)
    ensures var c := AdaptiveCap(cfgBytes, sample);
            if free == 0 then c == DEFAULT_BUFFER_CAP
            else (c == MIN_BUFFER_CAP || 16 * c <= free) && (c == MAX_BUFFER_CAP || free < 16 * (c + 1))
  {
  }

  function Limit(total: int): int { total / 4 }

  predicate Checked(sample: Sample) { sample.Sampled? && sample.vm.total > 0 }

  /** Memory is asked for twice: `sizing` decides the size and `budget` the limit. */
  function ResolveCap(cfgBytes: int, sizing: Sample, budget: Sample, totalBufBytes: int): (g: Grant)
    ensures g.Granted? ==> InRange(g.capBytes) && g.capBytes == AdaptiveCap(cfgBytes, sizing)
    ensures g.Granted? && Checked(budget) ==> totalBufBytes + g.capBytes <= Limit(budget.vm.total)
    ensures g.OverBudget? ==>
              && Checked(budget) && g.systemBytes == budget.vm.total && g.usedBytes == totalBufBytes
              && 4 * g.limitBytes <= g.systemBytes < 4 * (g.limitBytes + 1)
              && g.limitBytes - g.usedBytes < AdaptiveCap(cfgBytes, sizing)
  {
    var capBytes := AdaptiveCap(cfgBytes, sizing);
    if Checked(budget) && totalBufBytes + capBytes > Limit(budget.vm.total)
    then OverBudget(totalBufBytes, Limit(budget.vm.total), budget.vm.total)
    else Granted(capBytes)
  }

  // ---- accounting ----

  ghost function Sum(caps: map<string, int>): int
    decreases |caps|
  {
    if caps == map[] then 0
    else
      var id :| id in caps;
      caps[id] + Sum(caps - {id})
  }

  /** The sum does not depend on the order in which ids are picked. */
  lemma {:induction false} SumRemove(caps: map<string, int>, id: string)
    requires id in caps
    ensures Sum(caps) == caps[id] + Sum(caps - {id})
    decreases |caps|
  {
    var k :| k in caps && Sum(caps) == caps[k] + Sum(caps - {k});
    if k != id {
      SumRemove(caps - {k}, id);
      SumRemove(caps - {id}, k);
      assert caps - {k} - {id} == caps - {id} - {k};
    }
  }

  lemma SumInsert(caps: map<string, int>, id: string, c: int)
    requires id !in caps
    ensures Sum(caps[id := c]) == Sum(caps) + c
  {
    SumRemove(caps[id := c], id);
    assert caps[id := c] - {id} == caps;
  }

  /** The live buffers' capacities, the running total, and the capacities of starts that have
      passed the budget check but not allocated yet. */
  datatype Pool = Pool(caps: map<string, int>, total: int, pending: map<string, int>)

  function Allocated(p: Pool, id: string, c: int): Pool {
    p.(caps := p.caps[id := c], total := p.total + c)
  }

  function Dropped(p: Pool, id: string): Pool {
    if id !in p.caps then p
    else p.(caps := p.caps - {id}, total := p.total - if p.caps[id] > 0 then p.caps[id] else 0)
  }

  ghost predicate Conserved(p: Pool) { p.total == Sum(p.caps) }

  /** Allocation keeps the total exact just when it does not overwrite a buffer that counts. */
  lemma AllocateKeepsTotal(p: Pool, id: string, c: int)
    requires Conserved(p)
    ensures Conserved(Allocated(p, id, c)) <==> id !in p.caps || p.caps[id] == 0
  {
    if id in p.caps {
      SumRemove(p.caps, id);
      SumInsert(p.caps - {id}, id, c);
      assert (p.caps - {id})[id := c] == p.caps[id := c];
    } else {
      SumInsert(p.caps, id, c);
    }
  }

  /** Dropping keeps it exact for every capacity that is not negative, however often repeated. */
  lemma DropKeepsTotal(p: Pool, id: string)
    requires Conserved(p)
    ensures Conserved(Dropped(p, id)) <==> id !in p.caps || p.caps[id] >= 0
    ensures Dropped(Dropped(p, id), id) == Dropped(p, id)
  {
    if id in p.caps {
      SumRemove(p.caps, id);
    }
  }

  // ---- overlapping starts ----

  /** A start checks the budget, then allocates (or not: its kind needs no buffer, or it failed
      in between); the buffer is dropped when the instance ends. */
  datatype Step =
    | Check(id: string, cfgBytes: int, sizing: Sample, vm: MemStat)
    | Alloc(id: string)
    | Abandon(id: string)
    | Drop(id: string)

  /** Ids are new to the pool and the system's memory size is `total`. */
  predicate Enabled(p: Pool, step: Step, total: int) {
    match step
    case Check(id, _, _, vm) => id !in p.caps && id !in p.pending && vm.total == total
    case Alloc(id) => id in p.pending
    case Abandon(id) => id in p.pending
    case Drop(_) => true
  }

  function Next(p: Pool, step: Step): Pool
    requires step.Alloc? || step.Abandon? ==> step.id in p.pending
  {
    match step
    case Check(id, cfgBytes, sizing, vm) =>
      (match ResolveCap(cfgBytes, sizing, Sampled(vm), p.total)
       case Granted(c) => p.(pending := p.pending[id := c])
       case OverBudget(_, _, _) => p)
    case Alloc(id) => Allocated(p, id, p.pending[id]).(pending := p.pending - {id})
    case Abandon(id) => p.(pending := p.pending - {id})
    case Drop(id) => Dropped(p, id)
  }

  ghost predicate Sound(p: Pool) {
    && Conserved(p)
    && (forall id | id in p.caps :: InRange(p.caps[id]))
    && (forall id | id in p.pending :: InRange(p.pending[id]) && id !in p.caps)
  }

  /** With at most `k` starts between check and allocation at once. */
  ghost predicate Bounded(p: Pool, total: int, k: nat) {
    p.total + Sum(p.pending) <= Limit(total) + k * MAX_BUFFER_CAP
  }

  lemma {:induction false} SumBounds(caps: map<string, int>)
    requires forall id | id in caps :: InRange(caps[id])
    ensures MIN_BUFFER_CAP * |caps| <= Sum(caps) <= MAX_BUFFER_CAP * |caps|
    decreases |caps|
  {
    if caps != map[] {
      var id :| id in caps;
      SumRemove(caps, id);
      var rest := caps - {id};
      assert rest.Keys == caps.Keys - {id};
      SumBounds(rest);
      assert |caps| == |rest| + 1;
    }
  }

  lemma StepKeepsSound(p: Pool, step: Step, total: int)
    requires Sound(p) && Enabled(p, step, total)
    ensures Sound(Next(p, step))
  {
    match step
    case Check(_, _, _, _) =>
    case Alloc(id) => AllocateKeepsTotal(p, id, p.pending[id]);
    case Abandon(_) =>
    case Drop(id) => DropKeepsTotal(p, id);
  }

  /** The starts already under way hold at most `k` buffers, so one more grant within the limit
      leaves the bound intact. */
  lemma CheckKeepsBound(p: Pool, id: string, c: int, total: int, k: nat)
    requires Sound(p) && id !in p.pending && InRange(c) && |p.pending[id := c]| <= k + 1
    requires p.total + c <= Limit(total)
    ensures Bounded(p.(pending := p.pending[id := c]), total, k)
  {
    SumInsert(p.pending, id, c);
    OneMore(p.pending, id, c);
    SumBounds(p.pending);
    assert 0 <= MAX_BUFFER_CAP * (k - |p.pending|);
  }

  lemma DropKeepsBound(p: Pool, id: string, total: int, k: nat)
    requires Sound(p) && Bounded(p, total, k)
    ensures Bounded(Dropped(p, id), total, k)
  {
  }

  lemma LeavingKeepsBound(p: Pool, id: string, total: int, k: nat)
    requires Sound(p) && id in p.pending && Bounded(p, total, k)
    ensures Bounded(p.(pending := p.pending - {id}), total, k)
    ensures Bounded(Allocated(p, id, p.pending[id]).(pending := p.pending - {id}), total, k)
  {
    SumRemove(p.pending, id);
  }

  lemma StepKeepsBound(p: Pool, step: Step, total: int, k: nat)
    requires total > 0 && Sound(p) && Enabled(p, step, total) && Bounded(p, total, k)
    requires |Next(p, step).pending| <= k + 1
    ensures Bounded(Next(p, step), total, k)
  {
    match step
    case Check(id, cfgBytes, sizing, vm) =>
      var g := ResolveCap(cfgBytes, sizing, Sampled(vm), p.total);
      if g.Granted? {
        CheckKeepsBound(p, id, g.capBytes, total, k);
      }
    case Alloc(id) => LeavingKeepsBound(p, id, total, k);
    case Abandon(id) => LeavingKeepsBound(p, id, total, k);
    case Drop(id) => DropKeepsBound(p, id, total, k);
  }

  predicate Possible(p: Pool, steps: seq<Step>, total: int, inFlight: nat)
    decreases |steps|
  {
    steps != [] ==>
      && Enabled(p, steps[0], total)
      && |Next(p, steps[0]).pending| <= inFlight
      && Possible(Next(p, steps[0]), steps[1..], total, inFlight)
  }

  function Run(p: Pool, steps: seq<Step>, total: int, inFlight: nat): Pool
    requires Possible(p, steps, total, inFlight)
    decreases |steps|
  {
    if steps == [] then p else Run(Next(p, steps[0]), steps[1..], total, inFlight)
  }

  lemma {:induction false} RunKeeps(p: Pool, steps: seq<Step>, total: int, inFlight: nat)
    requires total > 0 && inFlight > 0 && Possible(p, steps, total, inFlight)
    requires Sound(p) && Bounded(p, total, inFlight - 1)
    ensures Sound(Run(p, steps, total, inFlight)) && Bounded(Run(p, steps, total, inFlight), total, inFlight - 1)
    decreases |steps|
  {
    if steps != [] {
      StepKeepsSound(p, steps[0], total);
      StepKeepsBound(p, steps[0], total, inFlight - 1);
      RunKeeps(Next(p, steps[0]), steps[1..], total, inFlight);
    }
  }

  /** In every run that has at most `inFlight` starts between check and allocation at once, the
      running total is the sum of the live capacities, each of which lies in range, and exceeds
      a quarter of system memory by at most (inFlight - 1) of the largest buffers; so with
      starts one at a time it never exceeds it. */
  lemma BudgetHolds(steps: seq<Step>, total: int, inFlight: nat)
    requires total > 0 && inFlight > 0 && Possible(Pool(map[], 0, map[]), steps, total, inFlight)
    ensures var p := Run(Pool(map[], 0, map[]), steps, total, inFlight);
            && p.total == Sum(p.caps)
            && (forall id | id in p.caps :: InRange(p.caps[id]))
            && p.total <= Limit(total) + (inFlight - 1) * MAX_BUFFER_CAP
            && (inFlight == 1 ==> p.total <= Limit(total))
  {
    RunKeeps(Pool(map[], 0, map[]), steps, total, inFlight);
    var p := Run(Pool(map[], 0, map[]), steps, total, inFlight);
    SumBounds(p.pending);
  }

  ghost predicate Steps(p: Pool, step: Step, q: Pool, total: int, inFlight: nat) {
    Enabled(p, step, total) && Next(p, step) == q && |q.pending| <= inFlight
  }

  lemma OneStep(p: Pool, step: Step, q: Pool, rest: seq<Step>, total: int, inFlight: nat)
    requires Steps(p, step, q, total, inFlight) && Possible(q, rest, total, inFlight)
    ensures Possible(p, [step] + rest, total, inFlight)
    ensures Run(p, [step] + rest, total, inFlight) == Run(q, rest, total, inFlight)
  {
    assert ([step] + rest)[1..] == rest;
  }

  lemma {:induction false} RunBoth(p: Pool, a: seq<Step>, b: seq<Step>, total: int, inFlight: nat)
    requires Possible(p, a, total, inFlight) && Possible(Run(p, a, total, inFlight), b, total, inFlight)
    ensures Possible(p, a + b, total, inFlight)
    ensures Run(p, a + b, total, inFlight) == Run(Run(p, a, total, inFlight), b, total, inFlight)
    decreases |a|
  {
    if a == [] {
      assert a + b == b;
    } else {
      RunBoth(Next(p, a[0]), a[1..], b, total, inFlight);
      assert (a + b)[0] == a[0] && (a + b)[1..] == a[1..] + b;
    }
  }

  // ---- the excess is real ----

  /** The i-th of a supply of different ids. */
  function Id(i: nat): string { seq(i, _ => 'i') }

  lemma IdsDiffer(i: nat, j: nat)
    requires Id(i) == Id(j)
    ensures i == j
  {
    assert |Id(i)| == i && |Id(j)| == j;
  }

  /** Buffers of size `c` under the ids from `lo` up to `hi`. */
  function Stock(lo: nat, hi: nat, c: int): map<string, int> {
    if lo >= hi then map[] else Stock(lo, hi - 1, c)[Id(hi - 1) := c]
  }

  lemma {:induction false} StockHas(lo: nat, hi: nat, c: int, i: nat)
    ensures Id(i) in Stock(lo, hi, c) <==> lo <= i < hi
    decreases hi
  {
    if lo < hi {
      StockHas(lo, hi - 1, c, i);
      if Id(i) == Id(hi - 1) {
        IdsDiffer(i, hi - 1);
      }
    }
  }

  lemma {:induction false} StockShrinks(lo: nat, hi: nat, c: int)
    requires lo < hi
    ensures Id(lo) in Stock(lo, hi, c) && Stock(lo, hi, c)[Id(lo)] == c
    ensures Stock(lo, hi, c) - {Id(lo)} == Stock(lo + 1, hi, c)
    decreases hi
  {
    if lo + 1 < hi {
      StockShrinks(lo, hi - 1, c);
      assert |Id(lo)| == lo && |Id(hi - 1)| == hi - 1;
    } else {
      assert Stock(lo, lo, c) == map[];
      assert map[Id(lo) := c] - {Id(lo)} == map[];
    }
  }

  lemma OneMore(caps: map<string, int>, id: string, c: int)
    requires id !in caps
    ensures |caps[id := c]| == |caps| + 1
  {
    assert caps[id := c].Keys == caps.Keys + {id};
    assert |caps[id := c].Keys| == |caps.Keys| + 1;
  }

  lemma {:induction false} StockSize(lo: nat, hi: nat, c: int)
    requires lo <= hi
    ensures |Stock(lo, hi, c)| == hi - lo
    decreases hi
  {
    if lo < hi {
      StockSize(lo, hi - 1, c);
      StockHas(lo, hi - 1, c, hi - 1);
      OneMore(Stock(lo, hi - 1, c), Id(hi - 1), c);
    }
  }

  /** `n` starts are past their checks with buffers of size `c`; `have` are allocated, `sum`
      bytes in all. */
  function Waiting(have: nat, sum: int, n: nat, c: int): Pool {
    Pool(Stock(0, have, c), sum, Stock(have, have + n, c))
  }

  /** `n` sizes added up. */
  function Times(n: nat, c: int): int { if n == 0 then 0 else Times(n - 1, c) + c }

  /** One more start passes its check while its buffer alone would still fit. */
  lemma CheckMore(have: nat, sum: int, n: nat, c: int, total: int, inFlight: nat) returns (step: Step)
    requires InRange(c) && total > 0 && sum + c <= Limit(total) && n < inFlight
    ensures Steps(Waiting(have, sum, n, c), step, Waiting(have, sum, n + 1, c), total, inFlight)
  {
    step := Check(Id(have + n), c, NoSampler, MemStat(total, 0, 0));
    StockHas(0, have, c, have + n);
    StockHas(have, have + n, c, have + n);
    StockSize(have, have + n + 1, c);
  }

  lemma AllocNext(have: nat, sum: int, n: nat, c: int)
    requires n > 0
    ensures Id(have) in Waiting(have, sum, n, c).pending
    ensures Next(Waiting(have, sum, n, c), Alloc(Id(have))) == Waiting(have + 1, sum + c, n - 1, c)
  {
    StockShrinks(have, have + n, c);
    var p := Waiting(have, sum, n, c);
    assert Next(p, Alloc(Id(have))) == Pool(p.caps[Id(have) := c], sum + c, p.pending - {Id(have)});
  }

  lemma AllocOne(have: nat, sum: int, n: nat, c: int, total: int, inFlight: nat)
    requires 0 < n <= inFlight
    ensures Steps(Waiting(have, sum, n, c), Alloc(Id(have)), Waiting(have + 1, sum + c, n - 1, c), total, inFlight)
  {
    AllocNext(have, sum, n, c);
    StockSize(have + 1, have + n, c);
  }

  lemma {:induction false} CheckMany(have: nat, sum: int, n: nat, more: nat, c: int, total: int, inFlight: nat)
    returns (steps: seq<Step>)
    requires InRange(c) && total > 0 && sum + c <= Limit(total) && n + more <= inFlight
    ensures Possible(Waiting(have, sum, n, c), steps, total, inFlight)
    ensures Run(Waiting(have, sum, n, c), steps, total, inFlight) == Waiting(have, sum, n + more, c)
    decreases more
  {
    steps := [];
    if more > 0 {
      var step := CheckMore(have, sum, n, c, total, inFlight);
      var rest := CheckMany(have, sum, n + 1, more - 1, c, total, inFlight);
      OneStep(Waiting(have, sum, n, c), step, Waiting(have, sum, n + 1, c), rest, total, inFlight);
      steps := [step] + rest;
    }
  }

  lemma AllocThen(have: nat, sum: int, n: nat, c: int, total: int, inFlight: nat, rest: seq<Step>)
    returns (steps: seq<Step>)
    requires 0 < n <= inFlight && Possible(Waiting(have + 1, sum + c, n - 1, c), rest, total, inFlight)
    ensures Possible(Waiting(have, sum, n, c), steps, total, inFlight)
    ensures Run(Waiting(have, sum, n, c), steps, total, inFlight)
         == Run(Waiting(have + 1, sum + c, n - 1, c), rest, total, inFlight)
  {
    AllocOne(have, sum, n, c, total, inFlight);
    steps := [Alloc(Id(have))] + rest;
    OneStep(Waiting(have, sum, n, c), Alloc(Id(have)), Waiting(have + 1, sum + c, n - 1, c), rest, total, inFlight);
  }

  lemma {:induction false} AllocMany(have: nat, sum: int, n: nat, c: int, total: int, inFlight: nat)
    returns (steps: seq<Step>)
    requires n <= inFlight
    ensures Possible(Waiting(have, sum, n, c), steps, total, inFlight)
    ensures Run(Waiting(have, sum, n, c), steps, total, inFlight) == Waiting(have + n, sum + Times(n, c), 0, c)
    decreases n
  {
    steps := [];
    if n > 0 {
      var rest := AllocMany(have + 1, sum + c, n - 1, c, total, inFlight);
      steps := AllocThen(have, sum, n, c, total, inFlight, rest);
    }
  }

  /** `n` starts check one after the other and only then allocate. */
  lemma Burst(have: nat, sum: int, n: nat, c: int, total: int, inFlight: nat) returns (steps: seq<Step>)
    requires InRange(c) && total > 0 && sum + c <= Limit(total) && n <= inFlight
    ensures Possible(Waiting(have, sum, 0, c), steps, total, inFlight)
    ensures Run(Waiting(have, sum, 0, c), steps, total, inFlight) == Waiting(have + n, sum + Times(n, c), 0, c)
  {
    var checks := CheckMany(have, sum, 0, n, c, total, inFlight);
    var allocs := AllocMany(have, sum, n, c, total, inFlight);
    RunBoth(Waiting(have, sum, 0, c), checks, allocs, total, inFlight);
    steps := checks + allocs;
  }

  lemma {:induction false} TimesLargest(n: nat)
    ensures Times(n, MAX_BUFFER_CAP) == n * MAX_BUFFER_CAP
  {
    if n > 0 {
      TimesLargest(n - 1);
    }
  }

  /** The bound of `BudgetHolds` is met for every number of overlapping starts: where the limit
      has room for one of the largest buffers, `n` of them are granted. */
  lemma OverlapExceeds(n: nat) returns (steps: seq<Step>)
    requires n > 0
    ensures var total := 4 * MAX_BUFFER_CAP;
            && Possible(Pool(map[], 0, map[]), steps, total, n)
            && Run(Pool(map[], 0, map[]), steps, total, n).total == Limit(total) + (n - 1) * MAX_BUFFER_CAP
  {
    assert Waiting(0, 0, 0, MAX_BUFFER_CAP) == Pool(map[], 0, map[]);
    steps := Burst(0, 0, n, MAX_BUFFER_CAP, 4 * MAX_BUFFER_CAP, n);
    TimesLargest(n);
  }

  /** Starts of the smallest size, one at a time, until at most one more fits. */
  lemma FillUp(have: nat, sum: nat, total: int, inFlight: nat) returns (have': nat, sum': nat, steps: seq<Step>)
    requires total > 0 && inFlight > 0 && sum + MIN_BUFFER_CAP <= Limit(total)
    ensures Possible(Waiting(have, sum, 0, MIN_BUFFER_CAP), steps, total, inFlight)
    ensures Run(Waiting(have, sum, 0, MIN_BUFFER_CAP), steps, total, inFlight)
         == Waiting(have', sum', 0, MIN_BUFFER_CAP)
    ensures sum' + MIN_BUFFER_CAP <= Limit(total) < sum' + 2 * MIN_BUFFER_CAP
    decreases Limit(total) - sum
  {
    have', sum', steps := have, sum, [];
    if sum + 2 * MIN_BUFFER_CAP <= Limit(total) {
      var first := Burst(have, sum, 1, MIN_BUFFER_CAP, total, inFlight);
      assert Times(1, MIN_BUFFER_CAP) == MIN_BUFFER_CAP;
      have', sum', steps := FillUp(have + 1, sum + MIN_BUFFER_CAP, total, inFlight);
      RunBoth(Waiting(have, sum, 0, MIN_BUFFER_CAP), first, steps, total, inFlight);
      steps := first + steps;
    }
  }

  ghost predicate NeverExceeds(total: int, inFlight: nat) {
    forall steps: seq<Step> | Possible(Pool(map[], 0, map[]), steps, total, inFlight) ::
      Run(Pool(map[], 0, map[]), steps, total, inFlight).total <= Limit(total)
  }

  lemma TwoMore(have: nat, sum: nat, total: int, inFlight: nat) returns (steps: seq<Step>)
    requires total > 0 && inFlight >= 2 && sum + MIN_BUFFER_CAP <= Limit(total)
    ensures Possible(Waiting(have, sum, 0, MIN_BUFFER_CAP), steps, total, inFlight)
    ensures Run(Waiting(have, sum, 0, MIN_BUFFER_CAP), steps, total, inFlight).total == sum + 2 * MIN_BUFFER_CAP
  {
    steps := Burst(have, sum, 2, MIN_BUFFER_CAP, total, inFlight);
    assert Times(2, MIN_BUFFER_CAP) == 2 * MIN_BUFFER_CAP;
  }

  /** Two overlapping starts, where one of the smallest buffers fits, pass the limit. */
  lemma TwoExceed(total: int, inFlight: nat) returns (steps: seq<Step>)
    requires total > 0 && inFlight >= 2 && Limit(total) >= MIN_BUFFER_CAP
    ensures Possible(Pool(map[], 0, map[]), steps, total, inFlight)
    ensures Run(Pool(map[], 0, map[]), steps, total, inFlight).total > Limit(total)
  {
    var empty := Pool(map[], 0, map[]);
    assert Waiting(0, 0, 0, MIN_BUFFER_CAP) == empty;
    var have, sum, most := FillUp(0, 0, total, inFlight);
    var last := TwoMore(have, sum, total, inFlight);
    RunBoth(empty, most, last, total, inFlight);
    steps := most + last;
  }

  /** With less than the smallest buffer to give away nothing is ever granted. */
  lemma {:induction false} NothingGranted(steps: seq<Step>, total: int, inFlight: nat)
    requires total > 0 && Limit(total) < MIN_BUFFER_CAP && Possible(Pool(map[], 0, map[]), steps, total, inFlight)
    ensures Run(Pool(map[], 0, map[]), steps, total, inFlight) == Pool(map[], 0, map[])
    decreases |steps|
  {
    if steps != [] {
      NothingGranted(steps[1..], total, inFlight);
    }
  }

  /** Exactly when the promised quarter of memory is never exceeded: one start at a time, or
      too little memory for any buffer at all. */
  lemma QuarterHoldsIff(total: int, inFlight: nat)
    requires total > 0 && inFlight > 0
    ensures NeverExceeds(total, inFlight) <==> inFlight == 1 || Limit(total) < MIN_BUFFER_CAP
  {
    if inFlight > 1 && Limit(total) >= MIN_BUFFER_CAP {
      var steps := TwoExceed(total, inFlight);
    } else {
      forall steps: seq<Step> | Possible(Pool(map[], 0, map[]), steps, total, inFlight)
        ensures Run(Pool(map[], 0, map[]), steps, total, inFlight).total <= Limit(total)
      {
        if inFlight == 1 {
          BudgetHolds(steps, total, inFlight);
        } else {
          NothingGranted(steps, total, inFlight);
        }
      }
    }
  }

  // ---- the manager's own fields ----

  ghost function Caps(buffers: map<string, RingBuffer>): map<string, int> {
    map id | id in buffers :: buffers[id].cap
  }

  class Manager {
    var buffers: map<string, RingBuffer>
    var totalBufBytes: int

    ghost function Live(): Pool
      reads this
    {
      Pool(Caps(buffers), totalBufBytes, map[])
    }

    constructor ()
      ensures Live() == Pool(map[], 0, map[])
    {
      buffers, totalBufBytes := map[], 0;
    }

    method AllocateBuffer(id: string, capBytes: int) returns (buf: RingBuffer)
      modifies this
      ensures Live() == Allocated(old(Live()), id, capBytes)
      ensures buf.Valid() && fresh(buf.Repr) && buf.Model() == Ring(capBytes, [], false)
      ensures buffers == old(buffers)[id := buf]
    {
      buf := new RingBuffer(capBytes);
      buffers := buffers[id := buf];
      totalBufBytes := totalBufBytes + capBytes;
    }

    /** Dropping an id that is not there does nothing, so it may be repeated. */
    method DropBuffer(id: string)
      requires id in buffers ==> buffers[id].Valid()
      modifies this, if id in buffers then {buffers[id]} else {}
      ensures Live() == Dropped(old(Live()), id)
      ensures buffers == old(buffers) - {id}
      ensures id in old(buffers) ==> old(buffers)[id].Valid() && old(buffers)[id].closed
    {
      if id !in buffers {
        return;
      }
      var rb := buffers[id];
      if rb.cap > 0 {
        totalBufBytes := totalBufBytes - rb.cap;
      }
      rb.Close();
      buffers := buffers - {id};
    }

    /** The buffer path of Start, uninterrupted; `id` is newly made. */
    method Start(id: string, cfgBytes: int, sizing: Sample, budget: Sample, needsOutput: bool) returns (g: Grant)
      requires id !in buffers && Conserved(Live())
      modifies this
      ensures Conserved(Live()) && g == ResolveCap(cfgBytes, sizing, budget, old(totalBufBytes))
      ensures Live() == if g.Granted? && needsOutput then Allocated(old(Live()), id, g.capBytes) else old(Live())
      ensures g.Granted? && needsOutput && Checked(budget) ==> totalBufBytes <= Limit(budget.vm.total)
    {
      g := ResolveCap(cfgBytes, sizing, budget, totalBufBytes);
      if g.Granted? && needsOutput {
        AllocateKeepsTotal(Live(), id, g.capBytes);
        var buf := AllocateBuffer(id, g.capBytes);
      }
    }
  }
}
