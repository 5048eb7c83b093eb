// Consistent Overhead Byte Stuffing (Cheshire and Baker, IEEE/ACM ToN 1999):
// the host's decoder, and the encoder it must undo.

module Cobs {
  import opened Bytes

  const MAX_RUN: nat := 254

  // Length of the leading zero-free run, at most 254.
  function Run(x: bytes, limit: nat): (k: nat)
    ensures k <= limit && k <= |x|
    ensures 0 !in x[..k]
    ensures k < limit && k < |x| ==> x[k] == 0
  {
    if limit == 0 || x == [] || x[0] == 0 then 0 else
      var k := Run(x[1..], limit - 1);
      assert x[..k + 1] == [x[0]] + x[1..][..k];
      k + 1
  }

  // Encoders differ in one place: after a full run that ends the data, some
  // write a final empty group (pad) and some stop.
  function Encode(x: bytes, pad: bool): bytes
    decreases |x|
  {
    var k := Run(x, MAX_RUN);
    if k == MAX_RUN then
      [0xFF] + x[..k] + if |x| == k && !pad then [] else Encode(x[k..], pad)
    else if k == |x| then
      [k + 1] + x
    else
      [k + 1] + x[..k] + Encode(x[k + 1..], pad)
  }

  function Prepend(p: bytes, r: Result<bytes>): Result<bytes> {
    if r.Ok? then Ok(p + r.value) else r
  }

  lemma PrependTwice(p: bytes, q: bytes, r: Result<bytes>)
    ensures Prepend([], r) == r
    ensures Prepend(p, Prepend(q, r)) == Prepend(p + q, r)
  {
    if r.Ok? {
      assert [] + r.value == r.value;
      assert p + (q + r.value) == (p + q) + r.value;
    }
  }

  function Decode(e: bytes): Result<bytes>
    decreases |e|
  {
    if e == [] then Ok([])
    else if e[0] == 0 then Err("zero code byte inside COBS data")
    else if e[0] > |e| then Err("COBS run overruns buffer")
    else
      var zero: bytes := if e[0] < 0xFF && e[0] < |e| then [0] else [];
      Prepend(e[1..e[0]] + zero, Decode(e[e[0]..]))
  }

  // cobs_decode, as the loop over an index and a growing output.
  method CobsDecode(encoded: bytes) returns (r: Result<bytes>)
    ensures r == Decode(encoded)
  {
    var out: bytes := [];
    var i := 0;
    var n := |encoded|;
    assert encoded[0..] == encoded;
    PrependTwice([], [], Decode(encoded));
    while i < n
      invariant 0 <= i <= n
      invariant Decode(encoded) == Prepend(out, Decode(encoded[i..]))
    {
      ghost var rest := encoded[i..];
      var code := encoded[i];
      if code == 0 {
        return Err("zero code byte inside COBS data");
      }
      i := i + 1;
      var end := i + code - 1;
      if end > n {
        return Err("COBS run overruns buffer");
      }
      ghost var before := out;
      out := out + encoded[i..end];
      assert rest[1..code] == encoded[i..end];
      i := end;
      assert rest[code..] == encoded[i..];
      if code < 0xFF && i < n {
        out := out + [0];
      }
      ghost var zero: bytes := if code < 0xFF && code < |rest| then [0] else [];
      assert out == before + (rest[1..code] + zero);
      PrependTwice(before, rest[1..code] + zero, Decode(rest[code..]));
    }
    assert encoded[i..] == [];
    assert out + [] == out;
    r := Ok(out);
  }

  // ---- round trip -------------------------------------------------------------

  lemma DecodeGroup(p: bytes, rest: bytes)
    requires |p| <= MAX_RUN
    ensures Decode([|p| + 1] + p + rest) ==
      Prepend(p + (if |p| < MAX_RUN && rest != [] then [0] else []), Decode(rest))
  {
    var e: bytes := [|p| + 1] + p + rest;
    assert e[1..e[0]] == p && e[e[0]..] == rest;
  }

  // The first group of an encoding, and what the groups after it encode.
  lemma EncodeShape(x: bytes, pad: bool) returns (p: bytes, rest: bytes)
    ensures Encode(x, pad) == [|p| + 1] + p + rest && 0 !in p && |p| <= MAX_RUN
    ensures
      || (rest == [] && x == p)
      || (|p| == MAX_RUN <= |x| && rest == Encode(x[|p|..], pad) && x == p + x[|p|..])
      || (|p| < MAX_RUN && |p| < |x| && rest == Encode(x[|p| + 1..], pad) && x == p + [0] + x[|p| + 1..])
  {
    var k := Run(x, MAX_RUN);
    p := x[..k];
    if k == MAX_RUN {
      assert x == p + x[k..];
      if |x| == k && !pad {
        rest := [];
        assert x == p;
      } else {
        rest := Encode(x[k..], pad);
      }
      assert Encode(x, pad) == [0xFF] + p + rest;
    } else if k == |x| {
      rest := [];
      assert x == p;
      assert [k + 1] + p + rest == [k + 1] + x;
    } else {
      rest := Encode(x[k + 1..], pad);
      assert x == p + [x[k]] + x[k + 1..];
    }
  }

  lemma EncodeNonempty(x: bytes, pad: bool)
    ensures Encode(x, pad) != []
  {
  }

  lemma {:induction false} DecodeEncode(x: bytes, pad: bool)
    ensures Decode(Encode(x, pad)) == Ok(x)
    decreases |x|
  {
    var p, rest := EncodeShape(x, pad);
    DecodeGroup(p, rest);
    if rest == [] {
      assert p + [] + [] == x;
    } else if |p| == MAX_RUN {
      DecodeEncode(x[|p|..], pad);
      assert p + [] == p;
    } else {
      DecodeEncode(x[|p| + 1..], pad);
    }
  }

  lemma {:induction false} EncodeHasNoZero(x: bytes, pad: bool)
    ensures 0 !in Encode(x, pad)
    decreases |x|
  {
    var k := Run(x, MAX_RUN);
    if k == MAX_RUN {
      if !(|x| == k && !pad) { EncodeHasNoZero(x[k..], pad); }
    } else if k == |x| {
      assert x == x[..k];
    } else {
      EncodeHasNoZero(x[k + 1..], pad);
    }
  }

  // At most one byte of overhead per 254, plus one.
  lemma {:induction false} EncodeSize(x: bytes, pad: bool)
    ensures |x| < |Encode(x, pad)| <= |x| + |x| / MAX_RUN + 1
    decreases |x|
  {
    var k := Run(x, MAX_RUN);
    if k == MAX_RUN {
      if !(|x| == k && !pad) { EncodeSize(x[k..], pad); }
    } else if k == |x| {
    } else {
      EncodeSize(x[k + 1..], pad);
    }
  }

  // ---- the decoder accepts nothing but encodings ------------------------------

  lemma RunOf(p: bytes, rest: bytes, limit: nat)
    requires 0 !in p && |p| <= limit
    requires |p| == limit || rest == [] || rest[0] == 0
    ensures Run(p + rest, limit) == |p|
  {
    if p == [] {
      assert p + rest == rest;
    } else {
      assert (p + rest)[1..] == p[1..] + rest;
      RunOf(p[1..], rest, limit - 1);
    }
  }

  lemma EncodeFull(p: bytes, y: bytes, pad: bool)
    requires |p| == MAX_RUN && 0 !in p
    ensures Encode(p + y, pad) == [0xFF] + p + if y == [] && !pad then [] else Encode(y, pad)
  {
    RunOf(p, y, MAX_RUN);
    assert (p + y)[..MAX_RUN] == p && (p + y)[MAX_RUN..] == y;
  }

  lemma EncodeShort(p: bytes, y: bytes, pad: bool)
    requires |p| < MAX_RUN && 0 !in p
    ensures Encode(p, pad) == [|p| + 1] + p
    ensures Encode(p + [0] + y, pad) == [|p| + 1] + p + Encode(y, pad)
  {
    assert p + [] == p;
    RunOf(p, [], MAX_RUN);
    var x := p + [0] + y;
    assert x == p + ([0] + y);
    RunOf(p, [0] + y, MAX_RUN);
    assert x[..|p|] == p && x[|p| + 1..] == y;
  }

  // The first group of a decodable chunk and the rest.
  lemma DecodeShape(e: bytes) returns (p: bytes, rest: bytes)
    requires e != [] && 0 !in e && Decode(e).Ok?
    ensures e == [|p| + 1] + p + rest && |p| <= MAX_RUN && 0 !in p && 0 !in rest && Decode(rest).Ok?
    ensures rest == [] ==> Decode(e).value == p
    ensures rest != [] ==> Decode(e).value == p + (if |p| < MAX_RUN then [0] else []) + Decode(rest).value
  {
    var code := e[0];
    p, rest := e[1..code], e[code..];
    assert e == [code] + p + rest;
    DecodeGroup(p, rest);
    assert rest == [] ==> p + [] + [] == p;
  }

  lemma {:induction false} DecodeOnlyEncodings(e: bytes, x: bytes)
    requires e != [] && 0 !in e && Decode(e) == Ok(x)
    ensures e == Encode(x, false) || e == Encode(x, true)
    decreases |e|
  {
    var p, rest := DecodeShape(e);
    assert p + [] == p;
    if rest == [] {
      if |p| == MAX_RUN {
        EncodeFull(p, [], false);
        assert e == [0xFF] + p + [];
      } else {
        EncodeShort(p, [], false);
        assert e == [|p| + 1] + p;
      }
    } else {
      var y := Decode(rest).value;
      DecodeOnlyEncodings(rest, y);
      if |p| == MAX_RUN {
        EncodeFull(p, y, false);
        EncodeFull(p, y, true);
        if y == [] {
          assert Encode([], false) == [1] == Encode([], true);
        }
      } else {
        EncodeShort(p, y, false);
        EncodeShort(p, y, true);
      }
    }
  }

  // A zero-free chunk decodes to x exactly when it is one of x's encodings.
  lemma DecodesIffEncoding(e: bytes, x: bytes)
    requires e != [] && 0 !in e
    ensures Decode(e) == Ok(x) <==> e in {Encode(x, false), Encode(x, true)}
  {
    DecodeEncode(x, false);
    DecodeEncode(x, true);
    if Decode(e) == Ok(x) { DecodeOnlyEncodings(e, x); }
  }
}
