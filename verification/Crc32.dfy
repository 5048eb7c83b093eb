// CRC-32 of section 8 of RFC 1952, in the running form of zlib's crc32(data, crc).

module Checksum32 {
  import opened Bytes
  import opened Crc16

  type Word = r: seq<bool> | |r| == 32 witness seq(32, i => false)

  // 0xEDB88320
  const REFLECTED: Word :=
    [true, true, true, false, true, true, false, true, true, false, true, true, true, false, false, false]
    + [true, false, false, false, false, false, true, true, false, false, true, false, false, false, false, false]

  function Not(r: Word): (n: Word)
    ensures forall i :: 0 <= i < 32 ==> n[i] == !r[i]
  {
    seq(32, i requires 0 <= i < 32 => !r[i])
  }

  function Turn(r: Word): Word {
    var half := [false] + r[..31];
    if r[31] then Xor(half, REFLECTED) else half
  }

  function Turns(r: Word, n: nat): Word
    decreases n
  {
    if n == 0 then r else Turns(Turn(r), n - 1)
  }

  // The 32-bit value of a number, as the checksum functions see it.
  function WordOf(n: nat): Word {
    ToBits(n, |REFLECTED|)
  }

  const ZERO: Word := Zeros(32)

  // Continue a finished checksum over more data; ZERO starts a new one.
  function Crc32(data: bytes, crc: Word): Word
    decreases |data|, 1
  {
    if data == [] then crc else NextByte(data, crc)
  }

  // The last byte: undo the final complement, absorb, complement again.
  function NextByte(data: bytes, crc: Word): Word
    requires data != []
    decreases |data|, 0
  {
    var n := |data| - 1;
    var m := ToBits(data[n], 8);
    Not(Turns(Xor(Not(Crc32(data[..n], crc)), Zeros(24) + m), |m|))
  }

  // Checksumming in pieces gives the checksum of the whole.
  lemma {:induction false} Streaming(a: bytes, b: bytes, crc: Word)
    ensures Crc32(a + b, crc) == Crc32(b, Crc32(a, crc))
    decreases |b|
  {
    if b == [] {
      assert a + b == a;
    } else {
      Streaming(a, b[..|b| - 1], crc);
      assert (a + b)[..|a + b| - 1] == a + b[..|b| - 1];
    }
  }

  // Comparing words is comparing the 32-bit numbers.
  lemma WordsCompare(m: nat, n: nat)
    requires m < 0x1_0000_0000 && n < 0x1_0000_0000
    ensures WordOf(m) == WordOf(n) <==> m == n
  {
    var w: nat := |REFLECTED|;
    assert Pow2(w) == 0x1_0000_0000 by {
      assert Pow2(8) == 0x100;
      assert Pow2(16) == 0x10000 by { assert Pow2(12) == 0x1000; }
      assert Pow2(24) == 0x100_0000 by { assert Pow2(20) == 0x10_0000; }
      assert Pow2(28) == 0x1000_0000;
    }
    ValueOfBits(m, w);
    ValueOfBits(n, w);
  }

  // 0xEDB88320, the reversed polynomial.
  lemma ReflectedValue()
    ensures FromBits(REFLECTED) == 0xEDB88320
  {
    var p1 := [true, true, true, false];
    var p2 := p1 + [true, true, false, true];
    var p3 := p2 + [true, false, true, true];
    var p4 := p3 + [true, false, false, false];
    var p5 := p4 + [true, false, false, false];
    var p6 := p5 + [false, false, true, true];
    var p7 := p6 + [false, false, true, false];
    Nibble([], true, true, true, false);
    assert [] + p1 == p1;
    Nibble(p1, true, true, false, true);
    Nibble(p2, true, false, true, true);
    Nibble(p3, true, false, false, false);
    Nibble(p4, true, false, false, false);
    Nibble(p5, false, false, true, true);
    Nibble(p6, false, false, true, false);
    Nibble(p7, false, false, false, false);
    assert REFLECTED == p7 + [false, false, false, false];
  }
}
