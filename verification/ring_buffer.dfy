/** The bounded output ring of one instance (internal/framework/ringbuffer.go).

    `Ring` is the abstract value: everything ever written, plus the capacity and the closed
    flag. `RingBuffer` is the implementation over a circular byte array, and every one of its
    methods is proved against `Ring`. */
module RingBuffers {
  /** A byte as the terminal path sees it: moved, never computed with. */
  type byte = bv8

  function Min(a: int, b: int): int { if a <= b then a else b }
  function Max(a: int, b: int): int { if a <= b then b else a }

  /** What a read answers: the bytes and the absolute offset that follows them. */
  datatype Read = Read(body: seq<byte>, next: int) | BadMaxBytes(since: int)

  datatype Ring = Ring(cap: int, hist: seq<byte>, closed: bool) {
    function Head(): nat { |hist| }

    /** How many of the newest bytes are still held. */
    function Used(): nat {
      if closed || cap <= 0 then 0 else Min(cap, |hist|)
    }

    /** The absolute offset of the oldest byte still held. */
    function Oldest(): nat { |hist| - Used() }

    function Append(src: seq<byte>): Ring {
      if closed then this else this.(hist := hist + src)
    }

    function Close(): Ring { this.(closed := true) }

    function Tail(n: int): Read {
      Read(hist[|hist| - Min(Max(n, 0), Used())..], |hist|)
    }

    function ReadSince(since: int, maxBytes: int): Read {
      var from := Max(since, 0);
      if maxBytes < 0 then BadMaxBytes(since)
      else if from >= |hist| || maxBytes == 0 then Read([], from)
      else
        var start := Max(from, Oldest());
        var stop := Min(start + maxBytes, |hist|);
        Read(hist[start..stop], stop)
    }
  }

  /** `b` is what `a` may have become: bytes are only ever added at the end, and a closed ring
      stays closed. */
  ghost predicate Evolves(a: Ring, b: Ring) {
    && a.cap == b.cap
    && a.hist <= b.hist
    && (a.closed ==> b.closed && b.hist == a.hist)
  }

  datatype Op = WriteOp(src: seq<byte>) | CloseOp

  function Apply(r: Ring, op: Op): Ring {
    match op
    case WriteOp(src) => r.Append(src)
    case CloseOp => r.Close()
  }

  function Run(r: Ring, ops: seq<Op>): Ring
    decreases |ops|
  {
    if ops == [] then r else Run(Apply(r, ops[0]), ops[1..])
  }

  /** The bytes of every write that comes before the first close. */
  function Accepted(ops: seq<Op>): seq<byte>
    decreases |ops|
  {
    if ops == [] || ops[0].CloseOp? then [] else ops[0].src + Accepted(ops[1..])
  }

  lemma {:induction false} RunEvolves(r: Ring, ops: seq<Op>)
    ensures Evolves(r, Run(r, ops))
    decreases |ops|
  {
    if ops != [] {
      RunEvolves(Apply(r, ops[0]), ops[1..]);
    }
  }

  /** After any run of writes and closes the ring's history is exactly what was accepted. */
  lemma {:induction false} RunHistory(r: Ring, ops: seq<Op>)
    ensures Run(r, ops).cap == r.cap
    ensures Run(r, ops).hist == if r.closed then r.hist else r.hist + Accepted(ops)
    ensures Run(r, ops).closed <==> r.closed || CloseOp in ops
    decreases |ops|
  {
    if ops == [] {
      assert Accepted(ops) == [];
    } else {
      RunHistory(Apply(r, ops[0]), ops[1..]);
      assert CloseOp in ops <==> ops[0] == CloseOp || CloseOp in ops[1..];
    }
  }

  /** The documented contract of a fresh ring: it holds exactly the last `cap` accepted bytes
      while open, none once closed, and its offset counts every accepted byte. */
  lemma FreshRingHoldsLastCapBytes(cap: int, ops: seq<Op>, n: int)
    ensures var r := Run(Ring(cap, [], false), ops);
            var all := Accepted(ops);
            && r.Head() == |all|
            && r.Tail(n).next == |all|
            && r.Tail(n).body == (if CloseOp in ops then [] else all[|all| - Max(0, Min(n, Min(cap, |all|)))..])
  {
    RunHistory(Ring(cap, [], false), ops);
    var r, all := Run(Ring(cap, [], false), ops), Accepted(ops);
    assert r.hist == [] + all == all;
    if CloseOp in ops {
      assert r.Used() == 0 && all[|all|..] == [];
    } else {
      assert r.Used() == Max(0, Min(cap, |all|));
      assert Min(Max(n, 0), r.Used()) == Max(0, Min(n, Min(cap, |all|)));
    }
  }

  /** Reading forward from any cursor: the chunk is the history slice that ends at `next`, it
      starts at the cursor unless eviction overtook it, and an empty answer never moves an
      open reader past a byte the ring still holds. */
  lemma ReadSinceContract(r: Ring, since: nat, maxBytes: nat)
    requires maxBytes > 0
    ensures var rd := r.ReadSince(since, maxBytes);
            && rd.Read?
            && (rd.body != [] ==>
                  && since < rd.next <= r.Head()
                  && |rd.body| <= maxBytes
                  && rd.next - |rd.body| == Max(since, r.Oldest())
                  && rd.next == Min(Max(since, r.Oldest()) + maxBytes, r.Head())
                  && rd.body == r.hist[rd.next - |rd.body|..rd.next])
            && (rd.body == [] ==>
                  && (since >= r.Head() ==> rd.next == since)
                  && (since < r.Head() ==> rd.next == r.Head() == r.Oldest()))
  {
  }

  /** The rest of the arguments: a negative limit is an error, a zero one reads nothing, and a
      negative cursor is the start. */
  lemma ReadSinceEdges(r: Ring, since: int, maxBytes: int)
    ensures r.ReadSince(since, maxBytes).BadMaxBytes? <==> maxBytes < 0
    ensures maxBytes == 0 ==> r.ReadSince(since, 0) == Read([], Max(since, 0))
    ensures since < 0 <= maxBytes ==> r.ReadSince(since, maxBytes) == r.ReadSince(0, maxBytes)
  {
  }

  // ---- wrap-around arithmetic ----

  lemma MulAtLeast(d: int, cap: int)
    requires cap > 0 && d >= 1
    ensures d * cap >= cap
  {
  }

  lemma ModUnique(x: int, q: int, m: int, cap: int)
    requires cap > 0 && x == q * cap + m && 0 <= m < cap
    ensures x % cap == m
  {
    var q', m' := x / cap, x % cap;
    assert x == q' * cap + m';
    assert (q - q') * cap == m' - m && (q' - q) * cap == m - m';
    if q > q' {
      MulAtLeast(q - q', cap);
    } else if q < q' {
      MulAtLeast(q' - q, cap);
    }
  }

  /** Stepping `d` bytes forward from `base` inside one lap of the ring. */
  lemma ModStep(base: nat, d: nat, cap: nat)
    requires cap > 0 && d < cap
    ensures var pos := base % cap;
            (base + d) % cap == if pos + d < cap then pos + d else pos + d - cap
  {
    var q, pos := base / cap, base % cap;
    assert base == q * cap + pos;
    if pos + d < cap {
      ModUnique(base + d, q, pos + d, cap);
    } else {
      assert (q + 1) * cap == q * cap + cap;
      ModUnique(base + d, q + 1, pos + d - cap, cap);
    }
  }

  lemma ModLap(k: nat, cap: nat)
    requires cap > 0
    ensures (k + cap) % cap == k % cap
  {
    assert (k / cap + 1) * cap == k / cap * cap + cap;
    ModUnique(k + cap, k / cap + 1, k % cap, cap);
  }

  /** Every held byte `k` sits at array index `k % cap`. */
  ghost predicate Holds(data: seq<byte>, hist: seq<byte>, used: nat) {
    && used <= |hist|
    && (used > 0 ==> |data| > 0)
    && forall k | |hist| - used <= k < |hist| :: data[k % |data|] == hist[k]
  }

  /** The array index `d` bytes after index `pos`, going around once. */
  function Slot(pos: nat, d: nat, cap: nat): nat {
    if pos + d < cap then pos + d else pos + d - cap
  }

  /** `after` is `before` with `w` written circularly from index `pos` on. */
  ghost predicate WrittenAt(before: seq<byte>, after: seq<byte>, pos: nat, w: seq<byte>)
    requires pos < |before| && |w| <= |before| && |after| == |before|
  {
    forall d {:trigger Slot(pos, d, |before|)} | 0 <= d < |before| ::
      after[Slot(pos, d, |before|)] == if d < |w| then w[d] else before[Slot(pos, d, |before|)]
  }

  /** A circular write of the last `|w|` bytes of `src` leaves the array holding the new
      history. */
  lemma WriteKeepsHolding(before: seq<byte>, after: seq<byte>, hist: seq<byte>, src: seq<byte>, w: seq<byte>)
    requires |before| > 0 && |after| == |before|
    requires w == src[if |src| > |before| then |src| - |before| else 0..]
    requires Holds(before, hist, Min(|before|, |hist|))
    requires WrittenAt(before, after, (|hist| + |src| - |w|) % |before|, w)
    ensures Holds(after, hist + src, Min(|before|, |hist| + |src|))
  {
    var cap := |before|;
    var base := |hist| + |src| - |w|;
    var hist' := hist + src;
    forall k | |hist'| - Min(cap, |hist'|) <= k < |hist'|
      ensures after[k % cap] == hist'[k]
    {
      if k >= base {
        ModStep(base, k - base, cap);
        assert k % cap == Slot(base % cap, k - base, cap);
        assert hist'[k] == src[k - |hist|] == w[k - base];
      } else {
        var d := k + cap - base;
        ModLap(k, cap);
        ModStep(base, d, cap);
        assert k % cap == Slot(base % cap, d, cap);
        assert before[k % cap] == hist[k];
      }
    }
  }

  /** Go's `copy(dst[at:], src)`. */
  method Copy(dst: array<byte>, at: nat, src: seq<byte>) returns (n: nat)
    requires at <= dst.Length
    modifies dst
    ensures n == Min(dst.Length - at, |src|)
    ensures forall i | 0 <= i < dst.Length ::
              dst[i] == if at <= i < at + n then src[i - at] else old(dst[i])
  {
    n := 0;
    while n < |src| && at + n < dst.Length
      invariant 0 <= n <= |src| && at + n <= dst.Length
      invariant forall i | 0 <= i < dst.Length ::
                  dst[i] == if at <= i < at + n then src[i - at] else old(dst[i])
    {
      dst[at + n] := src[n];
      n := n + 1;
    }
  }

  class RingBuffer {
    const cap: int
    var data: array?<byte>
    var head: nat
    var used: nat
    var closed: bool
    ghost var hist: seq<byte>
    ghost const Repr: set<object>

    ghost predicate Valid()
      reads this, Repr
    {
      && this in Repr
      && (data != null ==> data in Repr)
      && head == |hist|
      && used == Model().Used()
      && (data == null <==> closed || cap <= 0)
      && (data != null ==> data.Length == cap && Holds(data[..], hist, used))
    }

    ghost function Model(): Ring
      reads this
    {
      Ring(cap, hist, closed)
    }

    constructor (capBytes: int)
      ensures Valid() && fresh(Repr)
      ensures Model() == Ring(capBytes, [], false)
    {
      cap := capBytes;
      head, used, closed, hist := 0, 0, false, [];
      if capBytes > 0 {
        var store := new byte[capBytes](_ => 0);
        data := store;
        Repr := {this, store};
      } else {
        data := null;
        Repr := {this};
      }
    }

    /** The copying half of a write: the last `cap` bytes of `src`, around the end if need be. */
    method Store(src: seq<byte>)
      requires Valid() && data != null
      modifies data
      ensures Holds(data[..], hist + src, Min(cap, |hist| + |src|))
    {
      var srcStart := if |src| > cap then |src| - cap else 0;
      var pos := (head + srcStart) % cap;
      var writeData := src[srcStart..];
      ghost var before := data[..];
      var copied := Copy(data, pos, writeData);
      if copied < |writeData| {
        var rest := Copy(data, 0, writeData[copied..]);
      }
      WriteKeepsHolding(before, data[..], hist, src, writeData);
    }

    /** Write and WriteString share this body; `src` is whichever argument carries bytes. */
    method Write(src: seq<byte>) returns (n: nat)
      requires Valid()
      modifies Repr
      ensures Valid() && Model() == old(Model()).Append(src)
      ensures n == if old(closed) then 0 else |src|
    {
      if |src| == 0 {
        assert hist + src == hist;
        return 0;
      }
      if closed {
        return 0;
      }
      if cap > 0 {
        Store(src);
      }
      head := head + |src|;
      hist := hist + src;
      if cap > 0 {
        var newUsed := used + |src|;
        if newUsed > cap {
          used := cap;
        } else {
          used := newUsed;
        }
      }
      n := |src|;
    }

    method Offset() returns (off: nat)
      requires Valid()
      ensures off == Model().Head()
    {
      off := head;
    }

    method BytesUsed() returns (n: nat)
      requires Valid()
      ensures n == Model().Used()
    {
      n := used;
    }

    method Tail(n: int) returns (body: seq<byte>, off: nat)
      requires Valid()
      ensures Read(body, off) == Model().Tail(n)
    {
      if n <= 0 || used == 0 {
        return [], head;
      }
      var m := n;
      if m > used {
        m := used;
      }
      body := CopyRange(head - m, m);
      off := head;
    }

    method ReadSince(since: int, maxBytes: int) returns (rd: Read)
      requires Valid()
      ensures rd == Model().ReadSince(since, maxBytes)
    {
      if maxBytes < 0 {
        return BadMaxBytes(since);
      }
      var from := since;
      if from < 0 {
        from := 0;
      }
      if from >= head {
        return Read([], from);
      }
      if maxBytes == 0 {
        return Read([], from);
      }
      var start := from;
      if start < head - used {
        start := head - used;
      }
      var avail := head - start;
      if avail > maxBytes {
        avail := maxBytes;
      }
      var body := CopyRange(start, avail);
      return Read(body, start + avail);
    }

    method Close()
      requires Valid()
      modifies this
      ensures Valid() && Model() == old(Model()).Close()
    {
      closed := true;
      data := null;
      used := 0;
    }

    /** copyRangeLocked: the held bytes [start, start + n), unwrapped. */
    method CopyRange(start: nat, n: nat) returns (out: seq<byte>)
      requires Valid()
      requires head - used <= start && start + n <= head
      ensures out == hist[start..start + n]
    {
      if data == null || n <= 0 {
        return [];
      }
      var buf := new byte[n](_ => 0);
      var pos := start % cap;
      var copied := Copy(buf, 0, data[pos..]);
      if copied < n {
        var rest := Copy(buf, copied, data[..n - copied]);
      }
      forall d | 0 <= d < n
        ensures buf[d] == hist[start + d]
      {
        ModStep(start, d, cap);
        assert data[..][(start + d) % cap] == hist[start + d];
      }
      out := buf[..];
    }

    /** Whatever the writer goroutine and the framework do between two reads. */
    method Perform(ops: seq<Op>)
      requires Valid()
      modifies Repr
      ensures Valid() && Model() == Run(old(Model()), ops)
    {
      var i := 0;
      while i < |ops|
        invariant 0 <= i <= |ops|
        invariant Valid()
        invariant Run(old(Model()), ops) == Run(Model(), ops[i..])
      {
        match ops[i] {
          case WriteOp(src) =>
            var n := Write(src);
          case CloseOp =>
            Close();
        }
        assert ops[i..][1..] == ops[i + 1..];
        i := i + 1;
      }
    }
  }
}
