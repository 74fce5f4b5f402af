/** WebSocket frames (internal/ws/ws.go): the printer, the parser, and the round trip between
    them. Sections 5.2 and 5.3 of RFC 6455. */
module WsFrames {
  /** A byte as a number: the codec computes with them. */
  type octet = x: int | 0 <= x < 256

  const MAX_MESSAGE: nat := 10485760
  const OP_CLOSE: octet := 0x8
  const OP_PING: octet := 0x9
  const OP_PONG: octet := 0xA

  datatype Frame = Frame(fin: bool, op: octet, payload: seq<octet>)

  datatype WsError =
    | UnexpectedEof | FrameTooLarge | NotMasked
    | Fragmented | NoOpenMessage | MessageTooLarge | MessageStillOpen

  datatype Decoded = Got(frame: Frame, rest: seq<octet>) | Bad(error: WsError)

  // The bit operations of the source, on bytes as numbers.

  /** Go's byte(n): the low eight bits. */
  function Byte(n: nat): octet { n % 256 }

  /** b | 0x80, b & 0x80 != 0, b & 0x7F and b & 0x0F. */
  function SetTop(b: octet): octet { if b < 128 then b + 128 else b }
  predicate TopSet(b: octet) { b >= 128 }
  function Low7(b: octet): octet { b % 128 }
  function Low4(b: octet): octet { b % 16 }

  /** Exclusive or, from the lowest bit up. */
  function XorNat(a: nat, b: nat): nat
    decreases a + b
  {
    if a == 0 && b == 0 then 0
    else (if a % 2 == b % 2 then 0 else 1) + 2 * XorNat(a / 2, b / 2)
  }

  lemma {:induction false} XorNatTwice(a: nat, b: nat)
    ensures XorNat(XorNat(a, b), b) == a
    decreases a + b
  {
    if a != 0 || b != 0 {
      var x := XorNat(a, b);
      XorNatTwice(a / 2, b / 2);
      assert x / 2 == XorNat(a / 2, b / 2) && x % 2 == (if a % 2 == b % 2 then 0 else 1);
    }
  }

  lemma {:induction false} XorNatBelow(a: nat, b: nat, bits: nat, limit: nat)
    requires limit == Power2(bits) && a < limit && b < limit
    ensures XorNat(a, b) < limit
    decreases bits
  {
    if bits > 0 {
      XorNatBelow(a / 2, b / 2, bits - 1, Power2(bits - 1));
    }
  }

  function Power2(n: nat): (p: nat)
    ensures p > 0
  {
    if n == 0 then 1 else 2 * Power2(n - 1)
  }

  /** a ^ b on bytes. */
  function Xor(a: octet, b: octet): octet {
    assert Power2(8) == 256 by {
      assert Power2(4) == 16;
    }
    XorNatBelow(a, b, 8, 256);
    XorNat(a, b)
  }

  /** Payload XOR the four-byte key, repeated; an empty key leaves it alone. */
  function Masked(p: seq<octet>, key: seq<octet>): seq<octet>
    requires key == [] || |key| == 4
  {
    if key == [] then p else seq(|p|, i requires 0 <= i < |p| => Xor(p[i], key[i % 4]))
  }

  /** Masking is its own inverse. */
  lemma MaskedTwice(p: seq<octet>, key: seq<octet>)
    requires key == [] || |key| == 4
    ensures Masked(Masked(p, key), key) == p
  {
    if key != [] {
      forall i | 0 <= i < |p|
        ensures Masked(Masked(p, key), key)[i] == p[i]
      {
        XorNatTwice(p[i], key[i % 4]);
      }
    }
  }

  // Masking bit by bit.

  /** Bit `k` of a number. */
  function Bit(b: nat, k: nat): nat { b / Power2(k) % 2 }

  lemma MulAtLeast(q: int, d: nat)
    requires q >= 1
    ensures q * d >= d
  {
  }

  lemma QuotientUnique(x: nat, q: nat, m: nat, d: nat)
    requires x == q * d + m && m < d
    ensures x / d == q
  {
    var q', m' := x / d, x % d;
    assert x == q' * d + m';
    assert (q - q') * d == m' - m && (q' - q) * d == m - m';
    if q > q' {
      MulAtLeast(q - q', d);
    } else if q < q' {
      MulAtLeast(q' - q, d);
    }
  }

  lemma HalfFirst(b: nat, d: nat)
    requires d > 0
    ensures b / (2 * d) == b / 2 / d
  {
    var q, m := b / 2 / d, b / 2 % d;
    assert b / 2 == q * d + m;
    assert b == q * (2 * d) + (2 * m + b % 2);
    QuotientUnique(b, q, 2 * m + b % 2, 2 * d);
  }

  lemma NextBit(b: nat, k: nat)
    requires k > 0
    ensures Bit(b, k) == Bit(b / 2, k - 1)
  {
    HalfFirst(b, Power2(k - 1));
  }

  lemma XorHalf(a: nat, b: nat)
    ensures XorNat(a, b) % 2 == (if a % 2 == b % 2 then 0 else 1) && XorNat(a, b) / 2 == XorNat(a / 2, b / 2)
  {
  }

  lemma {:induction false} XorBit(a: nat, b: nat, k: nat)
    ensures Bit(XorNat(a, b), k) == 1 <==> Bit(a, k) != Bit(b, k)
    decreases k
  {
    XorHalf(a, b);
    if k == 0 {
      assert Power2(0) == 1;
    } else {
      NextBit(a, k);
      NextBit(b, k);
      NextBit(XorNat(a, b), k);
      XorBit(a / 2, b / 2, k - 1);
    }
  }

  /** Section 5.3: a bit is set exactly when it differs between the octet and the octet of the key
      at the same place modulo four. */
  ghost predicate MaskBits(p: seq<octet>, key: seq<octet>, r: seq<octet>)
    requires |key| == 4
  {
    && |r| == |p|
    && forall i, k: nat | 0 <= i < |p| && k < 8 :: Bit(r[i], k) == 1 <==> Bit(p[i], k) != Bit(key[i % 4], k)
  }

  lemma MaskedBits(p: seq<octet>, key: seq<octet>)
    requires |key| == 4
    ensures MaskBits(p, key, Masked(p, key))
  {
    forall i, k: nat | 0 <= i < |p| && k < 8
      ensures Bit(Masked(p, key)[i], k) == 1 <==> Bit(p[i], k) != Bit(key[i % 4], k)
    {
      XorBit(p[i], key[i % 4], k);
    }
  }

  /** The second header byte and the extended length: 7-bit, 16-bit or 64-bit form. */
  function LengthBytes(n: nat, masked: bool): seq<octet> {
    var field := if n <= 125 then n else if n <= 65535 then 126 else 127;
    [if masked then SetTop(field) else field]
    + if n <= 125 then []
      else if n <= 65535 then [Byte(n / 256), Byte(n)]
      else [0, 0, 0, 0, Byte(n / 16777216), Byte(n / 65536), Byte(n / 256), Byte(n)]
  }

  function Encode(f: Frame, key: seq<octet>): seq<octet>
    requires key == [] || |key| == 4
  {
    [if f.fin then SetTop(f.op) else f.op]
    + LengthBytes(|f.payload|, key != [])
    + key
    + Masked(f.payload, key)
  }

  datatype Length = Len(n: nat, rest: seq<octet>) | BadLength(error: WsError)

  function BigEndian(s: seq<octet>): nat {
    if s == [] then 0 else BigEndian(s[..|s| - 1]) * 256 + s[|s| - 1]
  }

  /** The payload length announced by the 7-bit field and, for 126 and 127, the bytes after. */
  function ReadLength(field: nat, s: seq<octet>): Length {
    if field == 126 then
      if |s| < 2 then BadLength(UnexpectedEof) else Len(BigEndian(s[..2]), s[2..])
    else if field == 127 then
      if |s| < 8 then BadLength(UnexpectedEof)
      else if BigEndian(s[..8]) > MAX_MESSAGE then BadLength(FrameTooLarge)
      else Len(BigEndian(s[..8]), s[8..])
    else Len(field, s)
  }

  /** The key and the payload that follow the length. */
  function ReadBody(client: bool, fin: bool, op: octet, masked: bool, n: nat, s: seq<octet>): (d: Decoded)
    ensures d.Got? ==> |d.rest| <= |s|
  {
    if masked && |s| < 4 then Bad(UnexpectedEof)
    else if !masked && !client then Bad(NotMasked)
    else
      var key := if masked then s[..4] else [];
      var body := if masked then s[4..] else s;
      if |body| < n then Bad(UnexpectedEof)
      else Got(Frame(fin, op, Masked(body[..n], key)), body[n..])
  }

  function Decode(client: bool, s: seq<octet>): (d: Decoded)
    ensures d.Got? ==> |d.rest| < |s|
  {
    if |s| < 2 then Bad(UnexpectedEof)
    else
      match ReadLength(Low7(s[1]), s[2..])
      case BadLength(e) => Bad(e)
      case Len(n, rest) => ReadBody(client, TopSet(s[0]), Low4(s[0]), TopSet(s[1]), n, rest)
  }

  lemma BigEndianSnoc(s: seq<octet>, b: octet)
    ensures BigEndian(s + [b]) == BigEndian(s) * 256 + b
  {
    assert (s + [b])[..|s|] == s;
  }

  lemma BigEndian2(a: octet, b: octet)
    ensures BigEndian([a, b]) == 256 * a + b
  {
    BigEndianSnoc([], a);
    BigEndianSnoc([a], b);
    assert [] + [a] == [a] && [a] + [b] == [a, b];
  }

  lemma BigEndian4(a: octet, b: octet, c: octet, d: octet)
    ensures BigEndian([a, b, c, d]) == 16777216 * a + 65536 * b + 256 * c + d
  {
    BigEndian2(a, b);
    BigEndianSnoc([a, b], c);
    BigEndianSnoc([a, b, c], d);
    assert [a, b] + [c] == [a, b, c] && [a, b, c] + [d] == [a, b, c, d];
  }

  lemma BigEndian8(a: octet, b: octet, c: octet, d: octet)
    ensures BigEndian([0, 0, 0, 0, a, b, c, d]) == 16777216 * a + 65536 * b + 256 * c + d
  {
    BigEndian4(0, 0, 0, 0);
    BigEndianSnoc([0, 0, 0, 0], a);
    BigEndianSnoc([0, 0, 0, 0, a], b);
    BigEndianSnoc([0, 0, 0, 0, a, b], c);
    BigEndianSnoc([0, 0, 0, 0, a, b, c], d);
    assert [0, 0, 0, 0] + [a] == [0, 0, 0, 0, a] && [0, 0, 0, 0, a] + [b] == [0, 0, 0, 0, a, b];
    assert [0, 0, 0, 0, a, b] + [c] == [0, 0, 0, 0, a, b, c] && [0, 0, 0, 0, a, b, c] + [d] == [0, 0, 0, 0, a, b, c, d];
  }

  /** Splitting the low 32 bits of a length into bytes and adding them up again. */
  lemma Low32(n: nat)
    ensures 16777216 * Byte(n / 16777216) + 65536 * Byte(n / 65536) + 256 * Byte(n / 256) + Byte(n) == n % 4294967296
  {
    var m, m', m'' := n / 256, n / 65536, n / 16777216;
    assert m / 256 == m' && m' / 256 == m'';
    assert n == 256 * m + n % 256 && m == 256 * m' + m % 256 && m' == 256 * m'' + m' % 256;
    assert m'' == 256 * (n / 4294967296) + m'' % 256;
  }

  /** Reading back what the printer wrote for a length. */
  lemma LengthRoundTrip(n: nat, masked: bool, suffix: seq<octet>)
    ensures var l := LengthBytes(n, masked);
            && (TopSet(l[0]) <==> masked)
            && ReadLength(Low7(l[0]), l[1..] + suffix)
               == (if n <= 65535 then Len(n, suffix)
                   else if n % 4294967296 > MAX_MESSAGE then BadLength(FrameTooLarge)
                   else Len(n % 4294967296, suffix))
  {
    var l := LengthBytes(n, masked);
    var s := l[1..] + suffix;
    if n <= 125 {
      assert s == suffix;
    } else if n <= 65535 {
      assert s[..2] == [Byte(n / 256), Byte(n)] && s[2..] == suffix;
      BigEndian2(Byte(n / 256), Byte(n));
    } else {
      LongLength(n, suffix);
      assert l[1..] == Long(n);
    }
  }

  function Long(n: nat): seq<octet> {
    [0, 0, 0, 0, Byte(n / 16777216), Byte(n / 65536), Byte(n / 256), Byte(n)]
  }

  lemma LongLength(n: nat, suffix: seq<octet>)
    ensures (Long(n) + suffix)[8..] == suffix && BigEndian((Long(n) + suffix)[..8]) == n % 4294967296
  {
    assert (Long(n) + suffix)[..8] == Long(n);
    BigEndian8(Byte(n / 16777216), Byte(n / 65536), Byte(n / 256), Byte(n));
    Low32(n);
  }

  lemma BodyRoundTrip(client: bool, f: Frame, op: octet, key: seq<octet>, n: nat, suffix: seq<octet>)
    requires key == [] || |key| == 4
    requires n <= |f.payload| && (client || key != [])
    ensures var d := ReadBody(client, f.fin, op, key != [], n, Body(f, key, suffix));
            && d.Got? && d.frame.fin == f.fin && d.frame.op == op && |d.frame.payload| == n
            && (n == |f.payload| ==> d == Got(f.(op := op), suffix))
  {
    var s := Body(f, key, suffix);
    var body := if key != [] then s[4..] else s;
    assert key != [] ==> s[..4] == key;
    assert body == Masked(f.payload, key) + suffix;
    if n == |f.payload| {
      assert body[..n] == Masked(f.payload, key) && body[n..] == suffix;
      MaskedTwice(f.payload, key);
    }
  }

  /** The bytes after the length of an encoded frame. */
  function Body(f: Frame, key: seq<octet>, suffix: seq<octet>): seq<octet>
    requires key == [] || |key| == 4
  {
    key + Masked(f.payload, key) + suffix
  }

  function FirstByte(f: Frame): octet { if f.fin then SetTop(f.op) else f.op }

  lemma EncodedShape(f: Frame, key: seq<octet>, suffix: seq<octet>)
    requires key == [] || |key| == 4
    ensures var s, l := Encode(f, key) + suffix, LengthBytes(|f.payload|, key != []);
            |s| >= 2 && s[0] == FirstByte(f) && s[1] == l[0] && s[2..] == l[1..] + Body(f, key, suffix)
  {
    var l := LengthBytes(|f.payload|, key != []);
    assert Encode(f, key) + suffix == [FirstByte(f)] + l + Body(f, key, suffix);
  }

  /** What the parser makes of any printed frame. */
  lemma DecodeEncoded(client: bool, f: Frame, key: seq<octet>, suffix: seq<octet>)
    requires key == [] || |key| == 4
    ensures var n, m, h := |f.payload|, |f.payload| % 4294967296, FirstByte(f);
            Decode(client, Encode(f, key) + suffix)
            == (if n > 65535 && m > MAX_MESSAGE then Bad(FrameTooLarge)
                else ReadBody(client, TopSet(h), Low4(h), key != [], if n <= 65535 then n else m, Body(f, key, suffix)))
  {
    EncodedShape(f, key, suffix);
    LengthRoundTrip(|f.payload|, key != [], Body(f, key, suffix));
  }

  lemma FirstByteFields(f: Frame)
    ensures f.op < 16 ==> Low4(FirstByte(f)) == f.op && (TopSet(FirstByte(f)) <==> f.fin)
    ensures f.op >= 16 ==> Low4(FirstByte(f)) != f.op
  {
  }

  lemma FrameSurvives(client: bool, f: Frame, key: seq<octet>, suffix: seq<octet>)
    requires key == [] || |key| == 4
    requires f.op < 16 && |f.payload| <= MAX_MESSAGE && (client || key != [])
    ensures Decode(client, Encode(f, key) + suffix) == Got(f, suffix)
  {
    FirstByteFields(f);
    BodyRoundTrip(client, f, f.op, key, |f.payload|, suffix);
    assert |f.payload| % 4294967296 == |f.payload|;
    DecodeEncoded(client, f, key, suffix);
  }

  lemma FrameLost(client: bool, f: Frame, key: seq<octet>, suffix: seq<octet>)
    requires key == [] || |key| == 4
    requires f.op >= 16 || |f.payload| > MAX_MESSAGE || !(client || key != [])
    ensures Decode(client, Encode(f, key) + suffix) != Got(f, suffix)
  {
    DecodeEncoded(client, f, key, suffix);
    FirstByteFields(f);
    var n, h := |f.payload|, FirstByte(f);
    var m := if n <= 65535 then n else n % 4294967296;
    if client || key != [] {
      BodyRoundTrip(client, f.(fin := TopSet(h)), Low4(h), key, m, suffix);
      assert Body(f.(fin := TopSet(h)), key, suffix) == Body(f, key, suffix);
    }
  }

  /** A frame survives the wire exactly when its opcode is a nibble, its payload fits the
      message cap, and it is masked or read by a client. Nothing after it is consumed. */
  lemma FrameRoundTrip(client: bool, f: Frame, key: seq<octet>, suffix: seq<octet>)
    requires key == [] || |key| == 4
    ensures Decode(client, Encode(f, key) + suffix) == Got(f, suffix)
            <==> f.op < 16 && |f.payload| <= MAX_MESSAGE && (client || key != [])
  {
    if f.op < 16 && |f.payload| <= MAX_MESSAGE && (client || key != []) {
      FrameSurvives(client, f, key, suffix);
    } else {
      FrameLost(client, f, key, suffix);
    }
  }

  // ---- the layout of section 5.2 ----

  function Two(a: nat, b: nat): nat { 256 * a + b }

  function Four(a: nat, b: nat, c: nat, d: nat): nat { 16777216 * a + 65536 * b + 256 * c + d }

  /** The length field is `n7` and the octets after it are `ext`: how many there must be, and the
      payload length they announce, most significant octet first. */
  ghost predicate Announces(n7: nat, ext: seq<octet>, n: nat) {
    if n7 == 126 then |ext| == 2 && n == Two(ext[0], ext[1])
    else if n7 == 127 then
      && |ext| == 8
      && n == 4294967296 * Four(ext[0], ext[1], ext[2], ext[3]) + Four(ext[4], ext[5], ext[6], ext[7])
    else ext == [] && n == n7
  }

  /** The octets are this frame's, masked with this key (none when it is empty). */
  ghost predicate Layout(s: seq<octet>, f: Frame, key: seq<octet>, ext: seq<octet>, body: seq<octet>) {
    && |s| >= 2 && (key == [] || |key| == 4)
    && s == s[..2] + ext + key + body
    && (Bit(s[0], 7) == 1 <==> f.fin) && s[0] % 16 == f.op
    && (Bit(s[1], 7) == 1 <==> key != [])
    && Announces(s[1] % 128, ext, |f.payload|)
    && if key == [] then body == f.payload else MaskBits(body, key, f.payload)
  }

  lemma TopBit(b: octet)
    ensures Bit(b, 7) == 1 <==> TopSet(b)
  {
    assert Power2(4) == 16 && Power2(7) == 128;
  }

  lemma BigEndianParts(s: seq<octet>)
    ensures |s| == 2 ==> BigEndian(s) == Two(s[0], s[1])
    ensures |s| == 4 ==> BigEndian(s) == Four(s[0], s[1], s[2], s[3])
  {
    if |s| == 2 {
      assert s == [s[0], s[1]];
      BigEndian2(s[0], s[1]);
    } else if |s| == 4 {
      assert s == [s[0], s[1], s[2], s[3]];
      BigEndian4(s[0], s[1], s[2], s[3]);
    }
  }

  lemma BigEndianEight(s: seq<octet>)
    requires |s| == 8
    ensures Announces(127, s, BigEndian(s))
  {
    BigEndianParts(s[..4]);
    BigEndianSnoc(s[..4], s[4]);
    BigEndianSnoc(s[..5], s[5]);
    BigEndianSnoc(s[..6], s[6]);
    BigEndianSnoc(s[..7], s[7]);
    assert s[..4] + [s[4]] == s[..5] && s[..5] + [s[5]] == s[..6] && s[..6] + [s[6]] == s[..7] && s[..7] + [s[7]] == s;
  }

  lemma LengthAnnounced(n7: nat, s: seq<octet>) returns (ext: seq<octet>)
    requires ReadLength(n7, s).Len?
    ensures Announces(n7, ext, ReadLength(n7, s).n) && s == ext + ReadLength(n7, s).rest
  {
    ext := if n7 == 126 then s[..2] else if n7 == 127 then s[..8] else [];
    if n7 == 126 {
      BigEndianParts(ext);
    } else if n7 == 127 {
      BigEndianEight(ext);
    }
  }

  lemma BodyRead(client: bool, fin: bool, op: octet, masked: bool, n: nat, s: seq<octet>)
    returns (key: seq<octet>, body: seq<octet>)
    requires ReadBody(client, fin, op, masked, n, s).Got?
    ensures var d := ReadBody(client, fin, op, masked, n, s);
            && s == key + body + d.rest && (masked <==> key != []) && (key == [] || |key| == 4)
            && |d.frame.payload| == n && d.frame.fin == fin && d.frame.op == op && (client || masked)
            && if key == [] then body == d.frame.payload else MaskBits(body, key, d.frame.payload)
  {
    key := if masked then s[..4] else [];
    var after := if masked then s[4..] else s;
    body := after[..n];
    if masked {
      MaskedBits(body, key);
    }
  }

  /** Whatever the parser accepts has this layout, with the unread rest behind it; a server only
      accepts masked frames. */
  lemma ParsedLayout(client: bool, s: seq<octet>) returns (key: seq<octet>, ext: seq<octet>, body: seq<octet>)
    requires Decode(client, s).Got?
    ensures var d := Decode(client, s);
            && |d.rest| <= |s|
            && Layout(s[..|s| - |d.rest|], d.frame, key, ext, body) && s[|s| - |d.rest|..] == d.rest
            && (client || key != [])
  {
    var d := Decode(client, s);
    var len := ReadLength(Low7(s[1]), s[2..]);
    ext := LengthAnnounced(Low7(s[1]), s[2..]);
    key, body := BodyRead(client, TopSet(s[0]), Low4(s[0]), TopSet(s[1]), len.n, len.rest);
    TopBit(s[0]);
    TopBit(s[1]);
    SplitParts(s, ext, key, body, d.rest);
  }

  /** And every frame the printer can print has it. */
  lemma PrintedLayout(f: Frame, key: seq<octet>) returns (k: seq<octet>, ext: seq<octet>, body: seq<octet>)
    requires key == [] || |key| == 4
    requires f.op < 16 && |f.payload| <= MAX_MESSAGE
    ensures Layout(Encode(f, key), f, k, ext, body) && (k == [] <==> key == [])
  {
    var s := Encode(f, key);
    FrameSurvives(true, f, key, []);
    assert s + [] == s;
    k, ext, body := ParsedLayout(true, s);
    assert s[..|s|] == s;
    EncodedShape(f, key, []);
    LengthRoundTrip(|f.payload|, key != [], []);
    TopBit(s[1]);
  }

  lemma SplitParts(s: seq<octet>, ext: seq<octet>, key: seq<octet>, body: seq<octet>, rest: seq<octet>)
    requires |s| >= 2 && s[2..] == ext + (key + body + rest)
    ensures |rest| <= |s| - 2 && s[|s| - |rest|..] == rest
    ensures var t := s[..|s| - |rest|]; t[..2] == s[..2] && t == t[..2] + ext + key + body
  {
    assert s == s[..2] + s[2..];
    assert s == s[..2] + ext + key + body + rest;
  }

  const HELLO: seq<octet> := [0x48, 0x65, 0x6c, 0x6c, 0x6f]
  const KEY: seq<octet> := [0x37, 0xfa, 0x21, 0x3d]

  /** Whether the lowest bits differ. */
  function Differ(a: nat, b: nat): nat { if a % 2 == b % 2 then 0 else 1 }

  lemma XorNext(a: nat, b: nat)
    ensures XorNat(a, b) == 2 * XorNat(a / 2, b / 2) + Differ(a, b)
  {
  }

  lemma XorNibble(a: nat, b: nat)
    ensures XorNat(a, b) == 16 * XorNat(a / 16, b / 16) + 8 * Differ(a / 8, b / 8) + 4 * Differ(a / 4, b / 4)
                            + 2 * Differ(a / 2, b / 2) + Differ(a, b)
  {
    assert a / 2 / 2 == a / 4 && b / 2 / 2 == b / 4;
    assert a / 4 / 2 == a / 8 && b / 4 / 2 == b / 8;
    assert a / 8 / 2 == a / 16 && b / 8 / 2 == b / 16;
    XorNext(a, b);
    XorNext(a / 2, b / 2);
    XorNext(a / 4, b / 4);
    XorNext(a / 8, b / 8);
  }

  lemma XorOctet(a: octet, b: octet, c: nat)
    requires var high := 8 * Differ(a / 128, b / 128) + 4 * Differ(a / 64, b / 64) + 2 * Differ(a / 32, b / 32)
                         + Differ(a / 16, b / 16);
             c == 16 * high + 8 * Differ(a / 8, b / 8) + 4 * Differ(a / 4, b / 4) + 2 * Differ(a / 2, b / 2)
                  + Differ(a, b)
    ensures XorNat(a, b) == c
  {
    var high, low := a / 16, b / 16;
    assert high / 16 == 0 && low / 16 == 0;
    XorNibble(a, b);
    XorNibble(high, low);
    assert high / 8 == a / 128 && high / 4 == a / 64 && high / 2 == a / 32;
    assert low / 8 == b / 128 && low / 4 == b / 64 && low / 2 == b / 32;
  }

  /** The five letters and their masked forms, for any five octets and key. */
  lemma MaskedFive(p: seq<octet>, key: seq<octet>, r: seq<octet>)
    requires |p| == |r| == 5 && |key| == 4
    requires XorNat(p[0], key[0]) == r[0] && XorNat(p[1], key[1]) == r[1] && XorNat(p[2], key[2]) == r[2]
    requires XorNat(p[3], key[3]) == r[3] && XorNat(p[4], key[0]) == r[4]
    ensures Masked(p, key) == r
  {
  }

  lemma XorLetter(a: octet, b: octet, c: octet)
    requires (a, b, c) == (0x48, 0x37, 0x7f) || (a, b, c) == (0x65, 0xfa, 0x9f) || (a, b, c) == (0x6c, 0x21, 0x4d)
             || (a, b, c) == (0x6c, 0x3d, 0x51) || (a, b, c) == (0x6f, 0x37, 0x58)
    ensures XorNat(a, b) == c
  {
    XorOctet(a, b, c);
  }

  lemma HelloMasked(p: seq<octet>, key: seq<octet>, r: seq<octet>)
    requires p == HELLO && key == KEY && r == [0x7f, 0x9f, 0x4d, 0x51, 0x58]
    ensures Masked(p, key) == r
  {
    XorLetter(p[0], key[0], r[0]);
    XorLetter(p[1], key[1], r[1]);
    XorLetter(p[2], key[2], r[2]);
    XorLetter(p[3], key[3], r[3]);
    XorLetter(p[4], key[0], r[4]);
    MaskedFive(p, key, r);
  }

  /** The standard's own frames (section 5.7): "Hello" unmasked and masked, and the header lengths
      of 256 and 65536 octets. */
  lemma StandardFrames()
    ensures Encode(Frame(true, 1, HELLO), []) == [0x81, 0x05, 0x48, 0x65, 0x6c, 0x6c, 0x6f]
    ensures Encode(Frame(true, 1, HELLO), KEY)
         == [0x81, 0x85, 0x37, 0xfa, 0x21, 0x3d, 0x7f, 0x9f, 0x4d, 0x51, 0x58]
    ensures LengthBytes(256, false) == [0x7e, 0x01, 0x00]
    ensures LengthBytes(65536, false) == [0x7f, 0, 0, 0, 0, 0, 1, 0, 0]
  {
    HelloMasked(HELLO, KEY, [0x7f, 0x9f, 0x4d, 0x51, 0x58]);
    assert LengthBytes(5, false) == [5] && LengthBytes(5, true) == [0x85];
  }

  lemma TruncatedLength(n: nat, masked: bool, m: nat)
    requires m < |LengthBytes(n, masked)| - 1
    ensures var l := LengthBytes(n, masked); ReadLength(Low7(l[0]), l[1..][..m]) == BadLength(UnexpectedEof)
  {
  }

  lemma TruncatedBody(client: bool, fin: bool, op: octet, key: seq<octet>, n: nat, s: seq<octet>)
    requires key == [] || |key| == 4
    requires (client || key != []) && |s| < |key| + n
    ensures ReadBody(client, fin, op, key != [], n, s) == Bad(UnexpectedEof)
  {
  }

  lemma CutParts(s: seq<octet>, l: seq<octet>, body: seq<octet>, n: nat)
    requires 2 <= n <= |s| && |l| > 0 && s[2..] == l[1..] + body
    ensures n - 2 < |l| - 1 ==> s[..n][2..] == l[1..][..n - 2]
    ensures n - 2 >= |l| - 1 ==> n - 1 - |l| <= |body| && s[..n][2..] == l[1..] + body[..n - 1 - |l|]
  {
    assert s[..n][2..] == s[2..][..n - 2];
  }

  lemma CutShape(f: Frame, key: seq<octet>, n: nat)
    requires key == [] || |key| == 4
    requires 2 <= n < |Encode(f, key)|
    ensures var cut, l, body := Encode(f, key)[..n], LengthBytes(|f.payload|, key != []), Body(f, key, []);
            && cut[1] == l[0] && (TopSet(l[0]) <==> key != [])
            && (n - 2 < |l| - 1 ==> cut[2..] == l[1..][..n - 2])
            && (n - 2 >= |l| - 1 ==>
                  n - 1 - |l| < |body| == |key| + |f.payload| && cut[2..] == l[1..] + body[..n - 1 - |l|])
  {
    EncodedShape(f, key, []);
    var s, l := Encode(f, key), LengthBytes(|f.payload|, key != []);
    assert s + [] == s;
    CutParts(s, l, Body(f, key, []), n);
  }

  lemma BreaksInLength(client: bool, cut: seq<octet>, n: nat, masked: bool, m: nat)
    requires m < |LengthBytes(n, masked)| - 1
    requires |cut| >= 2 && cut[1] == LengthBytes(n, masked)[0] && cut[2..] == LengthBytes(n, masked)[1..][..m]
    ensures Decode(client, cut) == Bad(UnexpectedEof)
  {
    TruncatedLength(n, masked, m);
  }

  lemma BreaksInBody(client: bool, cut: seq<octet>, n: nat, key: seq<octet>, left: seq<octet>)
    requires key == [] || |key| == 4
    requires n <= MAX_MESSAGE && (client || key != []) && |left| < |key| + n
    requires |cut| >= 2 && cut[1] == LengthBytes(n, key != [])[0] && cut[2..] == LengthBytes(n, key != [])[1..] + left
    ensures Decode(client, cut) == Bad(UnexpectedEof)
  {
    LengthRoundTrip(n, key != [], left);
    assert n % 4294967296 == n;
    TruncatedBody(client, TopSet(cut[0]), Low4(cut[0]), key, n, left);
  }

  /** A printed frame that breaks off anywhere is not taken for a frame: the read fails at the
      end of the stream. */
  lemma TruncatedFrame(client: bool, f: Frame, key: seq<octet>, n: nat)
    requires key == [] || |key| == 4
    requires |f.payload| <= MAX_MESSAGE && (client || key != []) && n < |Encode(f, key)|
    ensures Decode(client, Encode(f, key)[..n]) == Bad(UnexpectedEof)
  {
    if 2 <= n {
      CutShape(f, key, n);
      var cut, l := Encode(f, key)[..n], LengthBytes(|f.payload|, key != []);
      if n - 2 < |l| - 1 {
        BreaksInLength(client, cut, |f.payload|, key != [], n - 2);
      } else {
        BreaksInBody(client, cut, |f.payload|, key, Body(f, key, [])[..n - 1 - |l|]);
      }
    }
  }

  /** The framing half of ws.Conn: what is left to read and what has been written. */
  class Conn {
    const client: bool
    var inp: seq<octet>
    var out: seq<octet>

    constructor (isClient: bool, incoming: seq<octet>)
      ensures client == isClient && inp == incoming && out == []
    {
      client, inp, out := isClient, incoming, [];
    }

    /** io.ReadFull on the buffered connection. */
    method ReadFull(n: nat) returns (ok: bool, data: seq<octet>)
      modifies this`inp
      ensures ok <==> n <= |old(inp)|
      ensures ok ==> data == old(inp)[..n] && inp == old(inp)[n..]
    {
      if |inp| < n {
        inp := [];
        return false, [];
      }
      ok, data := true, inp[..n];
      inp := inp[n..];
    }

    method Unmask(payload: array<octet>, key: seq<octet>)
      requires |key| == 4
      modifies payload
      ensures payload[..] == Masked(old(payload[..]), key)
      ensures MaskBits(old(payload[..]), key, payload[..])
    {
      for i := 0 to payload.Length
        invariant forall j | 0 <= j < payload.Length ::
                    payload[j] == if j < i then Xor(old(payload[j]), key[j % 4]) else old(payload[j])
      {
        payload[i] := Xor(payload[i], key[i % 4]);
      }
      MaskedBits(old(payload[..]), key);
    }

    method ReadExtendedLength(field: nat) returns (r: Length)
      modifies this`inp
      ensures r == (match ReadLength(field, old(inp)) case Len(n, _) => Len(n, inp) case BadLength(e) => BadLength(e))
      ensures r.Len? ==> inp == ReadLength(field, old(inp)).rest
    {
      if field == 126 {
        var ok, ext := ReadFull(2);
        if !ok {
          return BadLength(UnexpectedEof);
        }
        return Len(BigEndian(ext), inp);
      } else if field == 127 {
        var ok, ext := ReadFull(8);
        if !ok {
          return BadLength(UnexpectedEof);
        }
        var u := BigEndian(ext);
        if u > MAX_MESSAGE {
          return BadLength(FrameTooLarge);
        }
        return Len(u, inp);
      }
      return Len(field, inp);
    }

    method ReadFrame() returns (d: Decoded)
      modifies this`inp
      ensures d == Decode(client, old(inp))
      ensures d.Got? ==> inp == d.rest
    {
      var ok, h := ReadFull(2);
      if !ok {
        return Bad(UnexpectedEof);
      }
      var fin := TopSet(h[0]);
      var opcode := Low4(h[0]);
      var masked := TopSet(h[1]);
      var length := ReadExtendedLength(Low7(h[1]));
      if length.BadLength? {
        return Bad(length.error);
      }
      ghost var rest := inp;
      var key: seq<octet> := [];
      if masked {
        ok, key := ReadFull(4);
        if !ok {
          return Bad(UnexpectedEof);
        }
      } else if !client {
        return Bad(NotMasked);
      }
      var ok', raw := ReadFull(length.n);
      if !ok' {
        return Bad(UnexpectedEof);
      }
      var payload := new octet[|raw|](i requires 0 <= i < |raw| => raw[i]);
      assert payload[..] == raw;
      if masked {
        Unmask(payload, key);
      }
      d := Got(Frame(fin, opcode, payload[..]), inp);
      assert d == ReadBody(client, fin, opcode, masked, length.n, rest);
    }

    method Mask(p: seq<octet>, key: seq<octet>) returns (mp: array<octet>)
      requires |key| == 4
      ensures mp[..] == Masked(p, key) && fresh(mp)
      ensures MaskBits(p, key, mp[..])
    {
      mp := new octet[|p|](_ => 0);
      for i := 0 to |p|
        invariant forall j | 0 <= j < i :: mp[j] == Xor(p[j], key[j % 4])
      {
        mp[i] := Xor(p[i], key[i % 4]);
      }
      MaskedBits(p, key);
    }

    /** The two header fields of a final frame. */
    method Header(op: octet, n: nat) returns (h: seq<octet>)
      ensures h == [SetTop(op)] + LengthBytes(n, client)
    {
      h := [SetTop(op)];
      if n <= 125 {
        h := h + [if client then SetTop(n) else n];
      } else if n <= 65535 {
        h := h + [if client then SetTop(126) else 126, Byte(n / 256), Byte(n)];
      } else {
        h := h + [if client then SetTop(127) else 127, 0, 0, 0, 0,
                  Byte(n / 16777216), Byte(n / 65536), Byte(n / 256), Byte(n)];
      }
    }

    /** `key` is the four random bytes a client draws for this frame. */
    method WriteFrame(op: octet, p: seq<octet>, key: seq<octet>)
      requires |key| == 4
      modifies this`out
      ensures out == old(out) + Encode(Frame(true, op, p), if client then key else [])
    {
      ghost var before := out;
      var h := Header(op, |p|);
      out := out + h;
      if !client {
        out := out + p;
        assert out == before + (h + [] + p);
        return;
      }
      out := out + key;
      var mp := Mask(p, key);
      out := out + mp[..];
      assert out == before + (h + key + Masked(p, key));
    }
  }
}
