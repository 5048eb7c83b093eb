// CRC16-CCITT-FALSE (polynomial 0x1021, initial value 0xFFFF, not reflected, no
// final xor).  The register is the list of its sixteen bits, most significant
// first, so that << 1 drops the head and & 0xFFFF keeps the length.

module Crc16 {
  import opened Bytes

  type Reg = r: seq<bool> | |r| == 16 witness seq(16, i => false)

  // x^16 + x^12 + x^5 + 1
  const POLY: Reg := [false, false, false, true] + [false, false, false, false]
                   + [false, false, true, false] + [false, false, false, true]

  const INIT: Reg := [true, true, true, true] + [true, true, true, true]
                   + [true, true, true, true] + [true, true, true, true]

  lemma Snoc(s: seq<bool>, a: bool)
    ensures FromBits(s + [a]) == 2 * FromBits(s) + if a then 1 else 0
  {
    assert (s + [a])[..|s|] == s;
  }

  lemma Pair(s: seq<bool>, a: bool, b: bool)
    ensures FromBits(s + [a, b]) == 4 * FromBits(s) + (if a then 2 else 0) + if b then 1 else 0
  {
    Snoc(s, a);
    Snoc(s + [a], b);
    assert s + [a, b] == s + [a] + [b];
  }

  lemma Nibble(s: seq<bool>, a: bool, b: bool, c: bool, d: bool)
    ensures FromBits(s + [a, b, c, d]) ==
      16 * FromBits(s) + (if a then 8 else 0) + (if b then 4 else 0) + (if c then 2 else 0) + if d then 1 else 0
  {
    Pair(s, a, b);
    Pair(s + [a, b], c, d);
    assert s + [a, b, c, d] == s + [a, b] + [c, d];
  }

  // The two registers are the constants of the source read as numbers.
  lemma Constants()
    ensures FromBits(POLY) == 0x1021 && FromBits(INIT) == 0xFFFF
  {
    var p1, q1 := [false, false, false, true], [true, true, true, true];
    var p2, q2 := p1 + [false, false, false, false], q1 + [true, true, true, true];
    var p3, q3 := p2 + [false, false, true, false], q2 + [true, true, true, true];
    Nibble([], false, false, false, true);
    Nibble([], true, true, true, true);
    assert [] + p1 == p1 && [] + q1 == q1;
    Nibble(p1, false, false, false, false);
    Nibble(q1, true, true, true, true);
    Nibble(p2, false, false, true, false);
    Nibble(q2, true, true, true, true);
    Nibble(p3, false, false, false, true);
    Nibble(q3, true, true, true, true);
  }

  function Xor(x: seq<bool>, y: seq<bool>): (z: seq<bool>)
    requires |x| == |y|
    ensures |z| == |x|
    ensures forall i :: 0 <= i < |x| ==> z[i] == (x[i] != y[i])
  {
    seq(|x|, i requires 0 <= i < |x| => x[i] != y[i])
  }

  function Zeros(n: nat): (z: seq<bool>)
    ensures |z| == n && forall i :: 0 <= i < n ==> !z[i]
  {
    seq(n, i => false)
  }

  function Shl(r: Reg): Reg { r[1..] + [false] }

  // One turn of the inner loop: shift, and fold the polynomial in when a one
  // fell off the top.
  function BitStep(r: Reg): Reg {
    if r[0] then Xor(Shl(r), POLY) else Shl(r)
  }

  function BitSteps(r: Reg, n: nat): Reg
    decreases n
  {
    if n == 0 then r else BitSteps(BitStep(r), n - 1)
  }

  // crc ^= byte << 8, then eight turns.
  function Absorb(r: Reg, b: byte): Reg {
    var m := ToBits(b, 8);
    BitSteps(Xor(r, m + Zeros(8)), |m|)
  }

  function Crc(r: Reg, data: bytes): Reg {
    Fold(Absorb, r, data)
  }

  // The bit-serial reference loop.
  method CrcBitwise(data: bytes, init: Reg) returns (crc: Reg)
    ensures crc == Crc(init, data)
  {
    crc := init;
    for i := 0 to |data|
      invariant crc == Crc(init, data[..i])
    {
      CrcNext(init, data[..i], data[i]);
      assert data[..i + 1] == data[..i] + [data[i]];
      crc := AbsorbLoop(crc, data[i]);
    }
    assert data[..|data|] == data;
  }

  // Its inner loop: one byte into the top of the register, then eight shifts.
  method AbsorbLoop(before: Reg, b: byte) returns (crc: Reg)
    ensures crc == Absorb(before, b)
  {
    crc := Xor(before, ToBits(b, 8) + Zeros(8));
    for turn := 0 to 8
      invariant BitSteps(crc, 8 - turn) == Absorb(before, b)
    {
      crc := if crc[0] then Xor(Shl(crc), POLY) else Shl(crc);
    }
  }

  lemma CrcNext(init: Reg, data: bytes, b: byte)
    ensures Crc(init, data + [b]) == Absorb(Crc(init, data), b)
  {
    FoldAppend(Absorb, init, data, [b]);
    var r := Crc(init, data);
    assert Crc(r, [b]) == Crc(Absorb(r, b), [b][1..]);
  }

  // ---- the same register driven one message bit at a time --------------------

  function Feed1(r: Reg, b: bool): Reg {
    if r[0] != b then Xor(Shl(r), POLY) else Shl(r)
  }

  function Feed(r: Reg, m: seq<bool>): Reg {
    Fold(Feed1, r, m)
  }

  function AllBits(data: bytes): seq<bool> {
    if data == [] then [] else ToBits(data[0], 8) + AllBits(data[1..])
  }

  lemma {:induction false} StepsAreFeed(r: Reg, m: seq<bool>)
    requires |m| <= 16
    ensures BitSteps(Xor(r, m + Zeros(16 - |m|)), |m|) == Feed(r, m)
    decreases m
  {
    var x := Xor(r, m + Zeros(16 - |m|));
    if m == [] {
      assert x == r;
    } else {
      assert BitStep(x) == Xor(Feed1(r, m[0]), m[1..] + Zeros(16 - |m[1..]|));
      StepsAreFeed(Feed1(r, m[0]), m[1..]);
    }
  }

  // Byte-at-a-time and bit-at-a-time processing agree on every message.
  lemma {:induction false} CrcIsFeed(r: Reg, data: bytes)
    ensures Crc(r, data) == Feed(r, AllBits(data))
    decreases data
  {
    if data == [] {
    } else {
      StepsAreFeed(r, ToBits(data[0], 8));
      CrcIsFeed(Absorb(r, data[0]), data[1..]);
      FoldAppend(Feed1, r, ToBits(data[0], 8), AllBits(data[1..]));
    }
  }

  // ---- error detection -------------------------------------------------------

  // A feedback bit enters at the three taps, one of them the last position.
  lemma Feedback(r: Reg, b: bool)
    ensures Feed1(r, b)[15] == (r[0] != b)
    ensures forall i :: 0 <= i < 15 ==>
      Feed1(r, b)[i] == (r[i + 1] != ((r[0] != b) && (i == 3 || i == 10)))
  {
    assert POLY[15] && forall i :: 0 <= i < 15 ==> POLY[i] == (i == 3 || i == 10);
  }

  // Running one bit backwards: equal tails before the shift, equal feedback.
  lemma BackStep(r: Reg, b: bool, s: Reg, c: bool, j: nat)
    requires j <= 15 && Feed1(r, b)[j..] == Feed1(s, c)[j..]
    ensures (r[0] != b) == (s[0] != c)
    ensures r[j + 1..] == s[j + 1..]
  {
    var r1, s1 := Feed1(r, b), Feed1(s, c);
    Feedback(r, b);
    Feedback(s, c);
    forall i | j <= i < 16
      ensures r1[i] == s1[i]
    {
      assert r1[i] == r1[j..][i - j] && s1[i] == s1[j..][i - j];
    }
    forall i | j < i < 16
      ensures r[i] == s[i]
    {
      assert r1[i - 1] == s1[i - 1];
    }
  }

  lemma {:induction false} FeedInjective(r: Reg, s: Reg, m: seq<bool>)
    requires Feed(r, m) == Feed(s, m)
    ensures r == s
    decreases m
  {
    if m == [] {
    } else {
      FeedInjective(Feed1(r, m[0]), Feed1(s, m[0]), m[1..]);
      BackStep(r, m[0], s, m[0], 0);
      assert r == [r[0]] + r[1..] && s == [s[0]] + s[1..];
    }
  }

  // Two runs that meet after at most sixteen bits already agreed on every
  // position the shifts have not yet pushed out.
  lemma {:induction false} TailsAgree(r: Reg, s: Reg, m: seq<bool>, n: seq<bool>)
    requires |m| == |n| <= 16 && Feed(r, m) == Feed(s, n)
    ensures r[|m|..] == s[|m|..]
    decreases m
  {
    if m == [] {
    } else {
      TailsAgree(Feed1(r, m[0]), Feed1(s, n[0]), m[1..], n[1..]);
      BackStep(r, m[0], s, n[0], |m| - 1);
    }
  }

  lemma {:induction false} ShortInputsInjective(r: Reg, m: seq<bool>, n: seq<bool>)
    requires |m| == |n| <= 16 && Feed(r, m) == Feed(r, n)
    ensures m == n
    decreases m
  {
    if m == [] {
    } else {
      TailsAgree(Feed1(r, m[0]), Feed1(r, n[0]), m[1..], n[1..]);
      BackStep(r, m[0], r, n[0], |m| - 1);
      ShortInputsInjective(Feed1(r, m[0]), m[1..], n[1..]);
      assert m == [m[0]] + m[1..] && n == [n[0]] + n[1..];
    }
  }

  // Every error burst of at most sixteen bits, at any bit position, changes the CRC.
  lemma BurstDetected(r: Reg, before: seq<bool>, m: seq<bool>, n: seq<bool>, after: seq<bool>)
    requires |m| == |n| <= 16 && m != n
    ensures Feed(r, before + m + after) != Feed(r, before + n + after)
  {
    var mid := Feed(r, before);
    FoldAppend(Feed1, r, before + m, after);
    FoldAppend(Feed1, r, before, m);
    FoldAppend(Feed1, r, before + n, after);
    FoldAppend(Feed1, r, before, n);
    if Feed(r, before + m + after) == Feed(r, before + n + after) {
      FeedInjective(Feed(mid, m), Feed(mid, n), after);
      ShortInputsInjective(mid, m, n);
    }
  }

  lemma {:induction false} AllBitsAppend(a: bytes, b: bytes)
    ensures AllBits(a + b) == AllBits(a) + AllBits(b)
  {
    if a == [] {
      assert a + b == b;
    } else {
      AllBitsAppend(a[1..], b);
      assert (a + b)[1..] == a[1..] + b;
    }
  }

  lemma ByteBitsInjective(x: byte, y: byte)
    requires ToBits(x, 8) == ToBits(y, 8)
    ensures x == y
  {
    assert Pow2(8) == 256;
    ValueOfBits(x, 8);
    ValueOfBits(y, 8);
  }

  lemma {:induction false} AllBitsInjective(x: bytes, y: bytes)
    requires |x| == |y| && AllBits(x) == AllBits(y)
    ensures x == y
  {
    if x == [] {
    } else {
      var p, q := AllBits(x[1..]), AllBits(y[1..]);
      assert ToBits(x[0], 8) == AllBits(x)[..8] == AllBits(y)[..8] == ToBits(y[0], 8);
      assert p == AllBits(x)[8..] == AllBits(y)[8..] == q;
      ByteBitsInjective(x[0], y[0]);
      AllBitsInjective(x[1..], y[1..]);
      assert x == [x[0]] + x[1..] && y == [y[0]] + y[1..];
    }
  }

  lemma {:induction false} AllBitsLength(x: bytes)
    ensures |AllBits(x)| == 8 * |x|
  {
    if x != [] { AllBitsLength(x[1..]); }
  }

  // Byte form of the burst theorem: any change inside two neighbouring bytes.
  lemma TwoBytesDetected(r: Reg, before: bytes, m: bytes, n: bytes, after: bytes)
    requires |m| == |n| <= 2 && m != n
    ensures Crc(r, before + m + after) != Crc(r, before + n + after)
  {
    CrcIsFeed(r, before + m + after);
    CrcIsFeed(r, before + n + after);
    AllBitsAppend(before + m, after);
    AllBitsAppend(before + n, after);
    AllBitsAppend(before, m);
    AllBitsAppend(before, n);
    AllBitsLength(m);
    AllBitsLength(n);
    if AllBits(m) == AllBits(n) { AllBitsInjective(m, n); }
    BurstDetected(r, AllBits(before), AllBits(m), AllBits(n), AllBits(after));
  }

  // ---- linearity -------------------------------------------------------------

  lemma {:induction false} FeedLinear(r: Reg, s: Reg, m: seq<bool>, n: seq<bool>)
    requires |m| == |n|
    ensures Xor(Feed(r, m), Feed(s, n)) == Feed(Xor(r, s), Xor(m, n))
    decreases m
  {
    if m == [] {
    } else {
      Feedback(r, m[0]);
      Feedback(s, n[0]);
      Feedback(Xor(r, s), m[0] != n[0]);
      assert Xor(Feed1(r, m[0]), Feed1(s, n[0])) == Feed1(Xor(r, s), Xor(m, n)[0]);
      FeedLinear(Feed1(r, m[0]), Feed1(s, n[0]), m[1..], n[1..]);
      assert Xor(m, n)[1..] == Xor(m[1..], n[1..]);
    }
  }

  lemma FeedFour(r: Reg, a: bool, b: bool, c: bool, d: bool)
    ensures Feed(r, [a, b, c, d]) == Feed1(Feed1(Feed1(Feed1(r, a), b), c), d)
  {
    var r1 := Feed1(r, a);
    var r2 := Feed1(r1, b);
    var r3 := Feed1(r2, c);
    assert [a, b, c, d][1..] == [b, c, d] && [b, c, d][1..] == [c, d] && [c, d][1..] == [d] && [d][1..] == [];
    assert Feed(r, [a, b, c, d]) == Feed(r1, [b, c, d]);
    assert Feed(r1, [b, c, d]) == Feed(r2, [c, d]);
    assert Feed(r2, [c, d]) == Feed(r3, [d]);
    assert Feed(r3, [d]) == Feed(Feed1(r3, d), []);
  }

  // One step seen bit by bit: f is the feedback.
  ghost predicate Shifted(r: Reg, b: bool, s: Reg) {
    var f := r[0] != b;
    && s[0] == r[1] && s[1] == r[2] && s[2] == r[3] && s[3] == (r[4] != f)
    && s[4] == r[5] && s[5] == r[6] && s[6] == r[7] && s[7] == r[8]
    && s[8] == r[9] && s[9] == r[10] && s[10] == (r[11] != f) && s[11] == r[12]
    && s[12] == r[13] && s[13] == r[14] && s[14] == r[15] && s[15] == f
  }

  lemma FeedIsShifted(r: Reg, b: bool)
    ensures Shifted(r, b, Feed1(r, b))
  {
    Feedback(r, b);
  }

  // Eight steps from the zero register.
  lemma EightShifts(m: seq<bool>, r0: Reg, r1: Reg, r2: Reg, r3: Reg, r4: Reg, r5: Reg, r6: Reg, r7: Reg, r8: Reg)
    requires |m| == 8 && forall i :: 0 <= i < 16 ==> !r0[i]
    requires Shifted(r0, m[0], r1) && Shifted(r1, m[1], r2) && Shifted(r2, m[2], r3) && Shifted(r3, m[3], r4)
    requires Shifted(r4, m[4], r5) && Shifted(r5, m[5], r6) && Shifted(r6, m[6], r7) && Shifted(r7, m[7], r8)
    ensures (forall i :: 0 <= i < 8 ==> !r8[i]) <==>
      m[0] == m[4] == m[7] && !m[1] && !m[2] && !m[3] && !m[5] && !m[6]
    ensures (forall i :: 0 <= i < 8 ==> !r8[i]) ==>
      r8[8] == r8[10] == r8[15] == m[0] && !r8[9] && !r8[11] && !r8[12] && !r8[13] && !r8[14]
  {
  }

  const HOLE: seq<bool> := [true, false, false, false, true, false, false, true]
  const HOLE_ECHO: seq<bool> := [true, false, true, false, false, false, false, true]

  // One message byte fed into the zero register leaves the upper half zero
  // exactly for the bytes 0 and 0x89; the lower half is then 0 or 0xA1.
  lemma OneByteResidue(m: seq<bool>)
    requires |m| == 8
    ensures var r := Feed(Zeros(16), m);
      r[..8] == Zeros(8) <==> m == Zeros(8) || m == HOLE
    ensures var r := Feed(Zeros(16), m);
      r[..8] == Zeros(8) && m != Zeros(8) ==> r[8..] == HOLE_ECHO
  {
    var zero: Reg := Zeros(16);
    var head, tail := m[..4], m[4..];
    assert m == head + tail;
    FoldAppend(Feed1, zero, head, tail);
    var r1, r2, r3, r4 := FourShifts(zero, head);
    var r5, r6, r7, r8 := FourShifts(r4, tail);
    EightShifts(m, zero, r1, r2, r3, r4, r5, r6, r7, r8);
    HalfZero(m, r8);
  }

  lemma FourShifts(r: Reg, m: seq<bool>) returns (r1: Reg, r2: Reg, r3: Reg, r4: Reg)
    requires |m| == 4
    ensures Shifted(r, m[0], r1) && Shifted(r1, m[1], r2) && Shifted(r2, m[2], r3) && Shifted(r3, m[3], r4)
    ensures r4 == Feed(r, m)
  {
    r1 := Feed1(r, m[0]);
    r2 := Feed1(r1, m[1]);
    r3 := Feed1(r2, m[2]);
    r4 := Feed1(r3, m[3]);
    FeedFour(r, m[0], m[1], m[2], m[3]);
    assert m == [m[0], m[1], m[2], m[3]];
    FeedIsShifted(r, m[0]);
    FeedIsShifted(r1, m[1]);
    FeedIsShifted(r2, m[2]);
    FeedIsShifted(r3, m[3]);
  }

  lemma HalfZero(m: seq<bool>, r: Reg)
    requires |m| == 8
    requires (forall i :: 0 <= i < 8 ==> !r[i]) <==>
      m[0] == m[4] == m[7] && !m[1] && !m[2] && !m[3] && !m[5] && !m[6]
    requires (forall i :: 0 <= i < 8 ==> !r[i]) ==>
      r[8] == r[10] == r[15] == m[0] && !r[9] && !r[11] && !r[12] && !r[13] && !r[14]
    ensures r[..8] == Zeros(8) <==> m == Zeros(8) || m == HOLE
    ensures r[..8] == Zeros(8) && m != Zeros(8) ==> r[8..] == HOLE_ECHO
  {
    if r[..8] == Zeros(8) {
      forall i | 0 <= i < 8 ensures !r[i] { assert r[i] == r[..8][i]; }
    }
  }
}
