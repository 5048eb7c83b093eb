// Bodies of binary frames: a type byte, sequence number, length, payload and checksum; the
// three numbers are two bytes each, low byte first.

module Frame {
  import opened Bytes
  import opened Crc16
  import Cobs

  datatype Frame = Frame(ftype: byte, seqno: nat, payload: bytes)

  const MAX_PAYLOAD: nat := 1024
  const MAX_FRAME_WIRE: nat := 1100

  predicate Sendable(f: Frame) {
    f.seqno < 0x10000 && |f.payload| < 0x10000
  }

  function CrcValue(data: bytes): nat {
    FromBits(Crc(INIT, data))
  }

  function Header(f: Frame): bytes {
    [f.ftype] + ToLE(f.seqno, 2) + ToLE(|f.payload|, 2)
  }

  // What the firmware puts on the wire, before stuffing.
  function Body(f: Frame): bytes {
    var data := Header(f) + f.payload;
    data + ToLE(CrcValue(data), 2)
  }

  // parse_frame_body
  function Parse(body: bytes): Result<Frame> {
    if |body| < 7 then Err("frame body too short")
    else
      var length := FromLE(body[3..5]);
      if |body| != 5 + length + 2 then Err("frame length mismatch")
      else if FromLE(body[5 + length..]) != CrcValue(body[..5 + length]) then Err("frame CRC mismatch")
      else Ok(Frame(body[0], FromLE(body[1..3]), body[5..5 + length]))
  }

  lemma TwoByteField(s: bytes)
    requires |s| == 2
    ensures FromLE(s) == (s[0] as int) + 256 * (s[1] as int)
  {
    assert FromLE(s[1..]) == s[1] + 256 * FromLE(s[1..][1..]);
  }

  lemma Pow256Two()
    ensures Pow256(2) == 0x10000
  {
  }

  // ---- the two directions of the codec ----------------------------------------

  // Where the fields of a body lie.
  lemma BodyFields(f: Frame)
    ensures var body, n := Body(f), |f.payload|;
      && |body| == n + 7 && body[0] == f.ftype && body[1..3] == ToLE(f.seqno, 2) && body[3..5] == ToLE(n, 2)
      && body[5..5 + n] == f.payload && body[..5 + n] == Header(f) + f.payload
      && body[5 + n..] == ToLE(CrcValue(Header(f) + f.payload), 2)
  {
    var data, crc := Header(f) + f.payload, ToLE(CrcValue(Header(f) + f.payload), 2);
    assert data[1..3] == ToLE(f.seqno, 2) && data[3..5] == ToLE(|f.payload|, 2);
    assert data[5..] == f.payload;
    assert Body(f) == data + crc;
  }

  lemma CrcFits(data: bytes)
    ensures CrcValue(data) < 0x10000
  {
    assert Pow2(16) == 0x10000 by { assert Pow2(8) == 256; assert Pow2(12) == 4096; }
  }

  lemma ParseBody(f: Frame)
    requires Sendable(f)
    ensures Parse(Body(f)) == Ok(f)
  {
    Pow256Two();
    BodyFields(f);
    CrcFits(Header(f) + f.payload);
    FieldOfValue(|f.payload|, 2);
    FieldOfValue(f.seqno, 2);
    FieldOfValue(CrcValue(Header(f) + f.payload), 2);
  }

  lemma BodyOfParse(body: bytes)
    requires Parse(body).Ok?
    ensures Sendable(Parse(body).value) && Body(Parse(body).value) == body
  {
    Pow256Two();
    var f := Parse(body).value;
    var length := |f.payload|;
    assert FromLE(body[3..5]) == length;
    ValueOfField(body[1..3]);
    ValueOfField(body[3..5]);
    ValueOfField(body[5 + length..]);
    assert body == [body[0]] + body[1..3] + body[3..5] + body[5..5 + length] + body[5 + length..];
    assert Header(f) + f.payload == body[..5 + length];
  }

  // Every permitted payload fits the reader's frame buffer once stuffed.
  lemma WireBound(f: Frame, pad: bool)
    requires |f.payload| <= MAX_PAYLOAD
    ensures |Cobs.Encode(Body(f), pad)| <= 1036 <= MAX_FRAME_WIRE
  {
    Cobs.EncodeSize(Body(f), pad);
  }

  // ---- damage detection --------------------------------------------------------

  lemma Doubled(p: nat, n: nat)
    ensures (2 * p) * n == 2 * (p * n)
  {
  }

  lemma {:induction false} FromBitsAppend(s: seq<bool>, t: seq<bool>)
    ensures FromBits(s + t) == Pow2(|t|) * FromBits(s) + FromBits(t)
    decreases |t|
  {
    if t == [] {
      assert s + t == s;
    } else {
      var u, b := t[..|t| - 1], t[|t| - 1];
      FromBitsAppend(s, u);
      Snoc(s + u, b);
      Snoc(u, b);
      assert t == u + [b] && s + t == (s + u) + [b];
      Doubled(Pow2(|u|), FromBits(s));
    }
  }

  lemma ByteValue(b: byte)
    ensures FromBits(ToBits(b, 8)) == b
  {
    assert Pow2(8) == 256;
    ValueOfBits(b, 8);
  }

  lemma StoredBits(reg: Reg, h: seq<bool>, l: seq<bool>)
    requires |h| + |l| == 16
    ensures FromBits(reg) == Pow2(|l|) * FromBits(h) + FromBits(l) <==> reg == h + l
  {
    FromBitsAppend(h, l);
    if FromBits(reg) == FromBits(h + l) {
      BitsOfValue(reg);
      BitsOfValue(h + l);
    }
  }

  // The stored checksum equals the register exactly when its bits do.
  lemma StoredCrc(reg: Reg, lo: byte, hi: byte)
    ensures FromBits(reg) == lo + 256 * hi <==> reg == ToBits(hi, 8) + ToBits(lo, 8)
  {
    ByteValue(lo);
    ByteValue(hi);
    StoredBits(reg, ToBits(hi, 8), ToBits(lo, 8));
  }

  predicate SameExcept(v: bytes, w: bytes, k: nat) {
    |v| == |w| && forall i :: 0 <= i < |v| && i != k && i != k + 1 ==> v[i] == w[i]
  }

  // The one pattern that slips through: the last payload byte changed by 0x89
  // together with the low checksum byte stored right after it changed by 0xA1.
  predicate BlindSpot(v: bytes, w: bytes, k: nat)
    requires |v| == |w|
  {
    && |v| > 7 && k == |v| - 3
    && Xor(ToBits(v[k], 8), ToBits(w[k], 8)) == HOLE
    && Xor(ToBits(v[k + 1], 8), ToBits(w[k + 1], 8)) == HOLE_ECHO
  }

  lemma LengthFieldFixed(v: bytes, w: bytes)
    requires |v| == |w| && Parse(v).Ok? && Parse(w).Ok?
    ensures v[3] == w[3] && v[4] == w[4]
  {
    ValueOfField(v[3..5]);
    ValueOfField(w[3..5]);
    assert v[3..5] == w[3..5];
    assert v[3] == v[3..5][0] && w[3] == w[3..5][0] && v[4] == v[3..5][1] && w[4] == w[3..5][1];
  }

  lemma Around(v: bytes, w: bytes, k: nat, n: nat)
    requires SameExcept(v, w, k) && k + 2 <= n <= |v|
    ensures v[..n] == v[..k] + v[k..k + 2] + v[k + 2..n]
    ensures v[..k] == w[..k] && v[k + 2..n] == w[k + 2..n] && v[n..] == w[n..]
    ensures v[k..k + 2] == w[k..k + 2] ==> v == w
  {
    assert v == v[..k] + v[k..k + 2] + v[k + 2..];
    assert w == w[..k] + w[k..k + 2] + w[k + 2..];
    assert v[..k] == w[..k] && v[k + 2..] == w[k + 2..];
  }

  // Valid bodies that store the same checksum have the same register.
  lemma SameRegister(v: bytes, w: bytes, n: nat)
    requires Parse(v).Ok? && Parse(w).Ok? && |v| == |w| == n + 2 && v[n..] == w[n..]
    ensures Crc(INIT, v[..n]) == Crc(INIT, w[..n])
  {
    BitsOfValue(Crc(INIT, v[..n]));
    BitsOfValue(Crc(INIT, w[..n]));
  }

  // Two valid bodies that differ at most in two neighbouring checked bytes
  // (type..payload) are equal.
  lemma DataDamageImpossible(v: bytes, w: bytes, k: nat)
    requires SameExcept(v, w, k) && k + 1 <= |v| - 3 && Parse(v).Ok? && Parse(w).Ok?
    ensures v == w
  {
    var n := |v| - 2;
    Around(v, w, k, n);
    Around(w, v, k, n);
    SameRegister(v, w, n);
    DifferenceShows(v[..k], v[k..k + 2], w[k..k + 2], v[k + 2..n]);
  }

  lemma DifferenceShows(before: bytes, x: bytes, y: bytes, after: bytes)
    requires |x| == |y| == 2 && Crc(INIT, before + x + after) == Crc(INIT, before + y + after)
    ensures x == y
  {
    if x != y {
      TwoBytesDetected(INIT, before, x, y, after);
    }
  }

  // Likewise for the two checksum bytes.
  lemma CrcFieldDamageImpossible(v: bytes, w: bytes)
    requires |v| >= 7 && SameExcept(v, w, |v| - 2) && Parse(v).Ok? && Parse(w).Ok?
    ensures v == w
  {
    LengthFieldFixed(v, w);
    var n := |v| - 2;
    assert v[..n] == w[..n];
    ValueOfField(v[n..]);
    ValueOfField(w[n..]);
    assert v == v[..n] + v[n..] && w == w[..n] + w[n..];
  }

  lemma CrcOfLastByte(d: bytes, p: byte)
    ensures Crc(INIT, d + [p]) == Feed(Crc(INIT, d), ToBits(p, 8))
  {
    FoldAppend(Absorb, INIT, d, [p]);
    CrcIsFeed(Crc(INIT, d), [p]);
    assert AllBits([p]) == ToBits(p, 8);
  }

  lemma XorHalves(a: seq<bool>, b: seq<bool>, c: seq<bool>)
    requires |a| == |b| == |c| == 8
    ensures Xor(a + b, a + c) == Zeros(8) + Xor(b, c)
  {
  }

  lemma HoleIsNotZero()
    ensures HOLE != Zeros(8) && HOLE_ECHO != Zeros(8)
  {
    assert HOLE[0] && HOLE_ECHO[0];
  }

  lemma Halves(d: seq<bool>, e: seq<bool>)
    requires |d| == 16 && |e| == 8
    ensures d == Zeros(8) + e <==> d[..8] == Zeros(8) && d[8..] == e
  {
    assert d == d[..8] + d[8..];
  }

  // Two registers that differ by the effect of one last byte, and whose stored
  // forms share the high byte.
  lemma StraddleBits(mid: Reg, p: seq<bool>, q: seq<bool>, hi: seq<bool>, lo: seq<bool>, lo': seq<bool>)
    requires |p| == |q| == |hi| == |lo| == |lo'| == 8
    requires Feed(mid, p) == hi + lo
    requires p != q || lo != lo'
    ensures Feed(mid, q) == hi + lo' <==> Xor(p, q) == HOLE && Xor(lo, lo') == HOLE_ECHO
  {
    var d := Feed(Zeros(16), Xor(p, q));
    FeedLinear(mid, mid, p, q);
    assert Xor(mid, mid) == Zeros(16);
    XorHalves(hi, lo, lo');
    XorCancel(hi + lo, Feed(mid, q), hi + lo');
    Halves(d, Xor(lo, lo'));
    OneByteResidue(Xor(p, q));
    HoleIsNotZero();
    if Xor(p, q) == Zeros(8) {
      XorZero(p, q);
      XorSelf(Feed(mid, p));
      if d[8..] == Xor(lo, lo') {
        XorZero(lo, lo');
      }
    }
  }

  lemma XorSelf(x: seq<bool>)
    ensures Xor(x, x) == Zeros(|x|)
  {
  }

  lemma XorCancel(x: seq<bool>, y: seq<bool>, z: seq<bool>)
    requires |x| == |y| == |z|
    ensures Xor(x, y) == Xor(x, z) <==> y == z
  {
    if Xor(x, y) == Xor(x, z) {
      forall i | 0 <= i < |x| ensures y[i] == z[i] {
        assert Xor(x, y)[i] == Xor(x, z)[i];
      }
    }
  }

  lemma XorZero(x: seq<bool>, y: seq<bool>)
    requires |x| == |y| && Xor(x, y) == Zeros(|x|)
    ensures x == y
  {
    forall i | 0 <= i < |x| ensures x[i] == y[i] {
      assert !Xor(x, y)[i];
    }
  }

  lemma Straddle(v: bytes, w: bytes)
    requires |v| > 7 && SameExcept(v, w, |v| - 3) && v != w && Parse(v).Ok?
    ensures Parse(w).Ok? <==> BlindSpot(v, w, |v| - 3)
  {
    var n := |v| - 2;
    var d := v[..n - 1];
    assert v[3..5] == w[3..5];
    assert v[..n] == d + [v[n - 1]] && w[..n] == d + [w[n - 1]];
    CrcOfLastByte(d, v[n - 1]);
    CrcOfLastByte(d, w[n - 1]);
    TwoByteField(v[n..]);
    TwoByteField(w[n..]);
    StoredCrc(Crc(INIT, v[..n]), v[n], v[n + 1]);
    StoredCrc(Crc(INIT, w[..n]), w[n], w[n + 1]);
    if ToBits(v[n - 1], 8) == ToBits(w[n - 1], 8) { ByteBitsInjective(v[n - 1], w[n - 1]); }
    if ToBits(v[n], 8) == ToBits(w[n], 8) { ByteBitsInjective(v[n], w[n]); }
    assert v[n - 1] != w[n - 1] || v[n] != w[n];
    StraddleBits(Crc(INIT, d), ToBits(v[n - 1], 8), ToBits(w[n - 1], 8),
                 ToBits(v[n + 1], 8), ToBits(v[n], 8), ToBits(w[n], 8));
  }

  // Damage confined to two neighbouring bytes of a valid body is accepted in
  // the blind spot and nowhere else.
  lemma AdjacentDamage(v: bytes, w: bytes, k: nat)
    requires Parse(v).Ok? && SameExcept(v, w, k) && v != w
    ensures Parse(w).Ok? <==> BlindSpot(v, w, k)
  {
    var n := |v|;
    if k == n - 3 && n > 7 {
      Straddle(v, w);
    } else if Parse(w).Ok? {
      LengthFieldFixed(v, w);
      if k + 1 <= n - 3 {
        DataDamageImpossible(v, w, k);
      } else {
        assert SameExcept(v, w, n - 2);
        CrcFieldDamageImpossible(v, w);
      }
    }
  }

  function Flip(b: byte, mask: seq<bool>): byte
    requires |mask| == 8
  {
    var n := FromBits(Xor(ToBits(b, 8), mask));
    assert n < Pow2(8) == 256;
    n
  }

  lemma FlipBits(b: byte, mask: seq<bool>)
    requires |mask| == 8
    ensures Xor(ToBits(b, 8), ToBits(Flip(b, mask), 8)) == mask
  {
    var x := Xor(ToBits(b, 8), mask);
    BitsOfValue(x);
    assert forall i :: 0 <= i < 8 ==> Xor(ToBits(b, 8), x)[i] == mask[i];
  }

  // The blind spot is real: every valid body with a payload has a damaged twin in it that
  // is accepted too.
  lemma DamagedTwin(v: bytes) returns (w: bytes)
    requires Parse(v).Ok? && |v| > 7
    ensures w != v && SameExcept(v, w, |v| - 3) && BlindSpot(v, w, |v| - 3) && Parse(w).Ok?
  {
    var k := |v| - 3;
    w := v[k := Flip(v[k], HOLE)][k + 1 := Flip(v[k + 1], HOLE_ECHO)];
    FlipBits(v[k], HOLE);
    FlipBits(v[k + 1], HOLE_ECHO);
    assert BlindSpot(v, w, k);
    BlindSpotNeedsTwo(v, w, k);
    AdjacentDamage(v, w, k);
  }

  lemma BlindSpotNeedsTwo(v: bytes, w: bytes, k: nat)
    requires |v| == |w| && BlindSpot(v, w, k)
    ensures v[k] != w[k] && v[k + 1] != w[k + 1]
  {
    HoleIsNotZero();
    XorSelf(ToBits(v[k], 8));
    XorSelf(ToBits(v[k + 1], 8));
  }

  // In particular no single damaged byte goes unnoticed.
  lemma SingleByteDamage(v: bytes, w: bytes, k: nat)
    requires Parse(v).Ok? && |v| == |w| && k < |v| && w == v[k := w[k]] && w != v
    ensures Parse(w).Err?
  {
    assert forall i :: 0 <= i < |v| && i != k ==> v[i] == w[i];
    AdjacentDamage(v, w, k);
    if BlindSpot(v, w, k) {
      BlindSpotNeedsTwo(v, w, k);
    }
  }
}
