// Payloads of the live PCM frames: packed little-endian structs and their parsers.

module LiveCodec {
  import opened Bytes

  const BEGIN_WIDTHS: seq<nat> := [1, 1, 1, 1, 4, 8, 8, 2, 2]     // <BBBBIQQHH
  const PCM_WIDTHS: seq<nat> := [1, 1, 8, 8, 4, 2]                // <BBQQIH
  const TERMINAL_WIDTHS: seq<nat> := [1, 1, 8, 8, 4, 4, 4]        // <BBQQIII

  const MAX_PCM_BYTES: nat := 1000
  const MAX_PCM_SAMPLES: nat := 500

  // ---- struct.Struct ---------------------------------------------------------------

  function Size(widths: seq<nat>): nat {
    if widths == [] then 0 else widths[0] + Size(widths[1..])
  }

  ghost predicate Fits(widths: seq<nat>, values: seq<nat>) {
    |values| == |widths| && forall i :: 0 <= i < |widths| ==> values[i] < Pow256(widths[i])
  }

  function Pack(widths: seq<nat>, values: seq<nat>): (p: bytes)
    requires |values| == |widths|
    ensures |p| == Size(widths)
  {
    if widths == [] then [] else ToLE(values[0], widths[0]) + Pack(widths[1..], values[1..])
  }

  function Unpack(widths: seq<nat>, p: bytes): (values: seq<nat>)
    requires |p| == Size(widths)
    ensures Fits(widths, values)
  {
    if widths == [] then [] else
      var values := [FromLE(p[..widths[0]])] + Unpack(widths[1..], p[widths[0]..]);
      values
  }

  lemma {:induction false} UnpackPack(widths: seq<nat>, values: seq<nat>)
    requires Fits(widths, values)
    ensures Unpack(widths, Pack(widths, values)) == values
    decreases widths
  {
    if widths == [] {
    } else {
      var p := Pack(widths, values);
      assert values[0] < Pow256(widths[0]);
      FieldOfValue(values[0], widths[0]);
      assert p[..widths[0]] == ToLE(values[0], widths[0]);
      assert p[widths[0]..] == Pack(widths[1..], values[1..]);
      assert Fits(widths[1..], values[1..]) by {
        forall i | 0 <= i < |widths| - 1 ensures values[1..][i] < Pow256(widths[1..][i]) {
          assert values[i + 1] < Pow256(widths[i + 1]);
        }
      }
      UnpackPack(widths[1..], values[1..]);
      assert values == [values[0]] + values[1..];
    }
  }

  lemma {:induction false} PackUnpack(widths: seq<nat>, p: bytes)
    requires |p| == Size(widths)
    ensures Pack(widths, Unpack(widths, p)) == p
    decreases widths
  {
    if widths == [] {
    } else {
      var head, tail := p[..widths[0]], p[widths[0]..];
      var rest := Unpack(widths[1..], tail);
      ValueOfField(head);
      PackUnpack(widths[1..], tail);
      var values := Unpack(widths, p);
      assert values[0] == FromLE(head) && values[1..] == rest;
      assert Pack(widths, values) == ToLE(values[0], widths[0]) + Pack(widths[1..], values[1..]);
      assert p == head + tail;
    }
  }

  // ---- records ---------------------------------------------------------------------------

  datatype Begin = Begin(
    flags: nat, source: nat, format: nat, rate: nat, exchange: nat, controller: nat, chunkSamples: nat)
  datatype Pcm = Pcm(flags: nat, exchange: nat, controller: nat, offset: nat, count: nat, pcm: bytes)
  datatype Terminal = Terminal(
    reason: nat, exchange: nat, controller: nat, total: nat, crc: nat, dropped: nat)

  const VERSION: nat := 1
  const U32: nat := 0x1_0000_0000

  predicate ValidId(v: nat) {
    0 < v < U32 * U32 && v / U32 != 0 && v % U32 != 0
  }

  // flags & ~LIVE_KNOWN_FLAGS, with one known flag of value 1.
  predicate KnownFlags(flags: nat) {
    flags <= 1
  }

  predicate ValidCommon(version: nat, flags: nat, exchange: nat, controller: nat) {
    version == VERSION && KnownFlags(flags) && ValidId(exchange) && ValidId(controller)
  }

  predicate ValidBegin(b: Begin) {
    && ValidCommon(VERSION, b.flags, b.exchange, b.controller)
    && b.source <= 2 && b.format == 1 && b.rate == 16000 && 0 < b.chunkSamples < 0x10000
    && (b.flags == 1) == (b.source == 0)
  }

  predicate ValidPcm(f: Pcm) {
    && ValidCommon(VERSION, f.flags, f.exchange, f.controller)
    && 0 < f.count <= MAX_PCM_SAMPLES && |f.pcm| == 2 * f.count && f.offset + f.count <= U32
  }

  predicate ValidTerminal(t: Terminal) {
    && ValidId(t.exchange) && ValidId(t.controller)
    && t.reason < 256 && t.total < U32 && t.crc < U32 && t.dropped < U32
  }

  function PackBegin(b: Begin): bytes {
    Pack(BEGIN_WIDTHS, [VERSION, b.flags, b.source, b.format, b.rate, b.exchange, b.controller, b.chunkSamples, 0])
  }

  function PackPcm(f: Pcm): bytes {
    Pack(PCM_WIDTHS, [VERSION, f.flags, f.exchange, f.controller, f.offset, f.count]) + f.pcm
  }

  function PackTerminal(t: Terminal): bytes {
    Pack(TERMINAL_WIDTHS, [VERSION, t.reason, t.exchange, t.controller, t.total, t.crc, t.dropped])
  }

  // ---- parsers -----------------------------------------------------------------------------

  function ParseBegin(p: bytes): Result<Begin> {
    if |p| != Size(BEGIN_WIDTHS) then Err("LIVE_BEGIN length")
    else
      var v := Unpack(BEGIN_WIDTHS, p);
      if v[0] != VERSION then Err("unsupported live PCM version")
      else if !KnownFlags(v[1]) then Err("unknown live PCM flags")
      else if !ValidId(v[5]) || !ValidId(v[6]) then Err("live ID")
      else if v[2] > 2 then Err("unknown live PCM source")
      else if v[3] != 1 then Err("unsupported live PCM format")
      else if v[4] != 16000 then Err("unsupported live PCM sample rate")
      else if v[7] == 0 then Err("live PCM logical chunk cannot be empty")
      else if v[8] != 0 then Err("LIVE_BEGIN reserved field is nonzero")
      else if (v[1] == 1) != (v[2] == 0) then Err("live PCM synthetic flag/source mismatch")
      else Ok(Begin(v[1], v[2], v[3], v[4], v[5], v[6], v[7]))
  }

  function ParsePcm(p: bytes): Result<Pcm> {
    var n := Size(PCM_WIDTHS);
    if |p| < n then Err("LIVE_PCM length")
    else
      var v := Unpack(PCM_WIDTHS, p[..n]);
      var pcm := p[n..];
      if v[0] != VERSION then Err("unsupported live PCM version")
      else if !KnownFlags(v[1]) then Err("unknown live PCM flags")
      else if !ValidId(v[2]) || !ValidId(v[3]) then Err("live ID")
      else if v[5] == 0 || v[5] > MAX_PCM_SAMPLES then Err("LIVE_PCM sample count outside 1..500")
      else if |pcm| != v[5] * 2 then Err("LIVE_PCM declares another length")
      else if |pcm| > MAX_PCM_BYTES then Err("LIVE_PCM carries too many bytes")
      else if v[4] + v[5] > U32 then Err("LIVE_PCM sample range overflows uint32")
      else Ok(Pcm(v[1], v[2], v[3], v[4], v[5], pcm))
  }

  function ParseTerminal(p: bytes): Result<Terminal> {
    if |p| != Size(TERMINAL_WIDTHS) then Err("live terminal length")
    else
      var v := Unpack(TERMINAL_WIDTHS, p);
      if v[0] != VERSION then Err("unsupported live PCM version")
      else if !ValidId(v[2]) || !ValidId(v[3]) then Err("live ID")
      else Ok(Terminal(v[1], v[2], v[3], v[4], v[5], v[6]))
  }

  lemma Widths()
    ensures Pow256(1) == 0x100 && Pow256(2) == 0x10000 && Pow256(4) == U32 && Pow256(8) == U32 * U32
    ensures Size(BEGIN_WIDTHS) == 28 && Size(PCM_WIDTHS) == 24 && Size(TERMINAL_WIDTHS) == 30
  {
    assert Pow256(2) == 0x10000;
    assert Pow256(4) == 0x10000 * 0x10000 by { assert Pow256(4) == 256 * (256 * Pow256(2)); }
    assert Pow256(8) == 256 * (256 * (256 * (256 * Pow256(4))));
  }

  // Where a field of a packed struct lies.
  lemma {:induction false} FieldAt(widths: seq<nat>, values: seq<nat>, i: nat)
    requires |values| == |widths| && i < |widths|
    ensures var n := Size(widths[..i]);
      n + widths[i] <= |Pack(widths, values)| && Pack(widths, values)[n..n + widths[i]] == ToLE(values[i], widths[i])
    decreases i
  {
    hide ToLE, Pow256;
    var head, tail := ToLE(values[0], widths[0]), Pack(widths[1..], values[1..]);
    if i == 0 {
      assert widths[..0] == [] && (head + tail)[..|head|] == head;
    } else {
      FieldAt(widths[1..], values[1..], i - 1);
      assert widths[..i][1..] == widths[1..][..i - 1];
      Behind(head, tail, Size(widths[1..][..i - 1]), widths[i]);
    }
  }

  lemma Behind(head: bytes, tail: bytes, n: nat, w: nat)
    requires n + w <= |tail|
    ensures (head + tail)[|head| + n..|head| + n + w] == tail[n..n + w]
  {
  }

  // The bytes of a BEGIN, field by field.
  lemma BeginLayout(b: Begin)
    ensures var p := PackBegin(b);
      && |p| == 28 && p[0..1] == ToLE(1, 1) && p[1..2] == ToLE(b.flags, 1) && p[2..3] == ToLE(b.source, 1)
      && p[3..4] == ToLE(b.format, 1) && p[4..8] == ToLE(b.rate, 4) && p[8..16] == ToLE(b.exchange, 8)
      && p[16..24] == ToLE(b.controller, 8) && p[24..26] == ToLE(b.chunkSamples, 2) && p[26..28] == ToLE(0, 2)
  {
    hide Pack, Size, ToLE;
    var v := [VERSION, b.flags, b.source, b.format, b.rate, b.exchange, b.controller, b.chunkSamples, 0];
    BeginOffsets();
    FieldAt(BEGIN_WIDTHS, v, 0);
    FieldAt(BEGIN_WIDTHS, v, 1);
    FieldAt(BEGIN_WIDTHS, v, 2);
    FieldAt(BEGIN_WIDTHS, v, 3);
    FieldAt(BEGIN_WIDTHS, v, 4);
    FieldAt(BEGIN_WIDTHS, v, 5);
    FieldAt(BEGIN_WIDTHS, v, 6);
    FieldAt(BEGIN_WIDTHS, v, 7);
    FieldAt(BEGIN_WIDTHS, v, 8);
  }

  // The bytes of a PCM header and of a terminal.
  lemma PcmLayout(f: Pcm)
    ensures var p := PackPcm(f);
      && |p| == 24 + |f.pcm| && p[0..1] == ToLE(1, 1) && p[1..2] == ToLE(f.flags, 1) && p[2..10] == ToLE(f.exchange, 8)
      && p[10..18] == ToLE(f.controller, 8) && p[18..22] == ToLE(f.offset, 4) && p[22..24] == ToLE(f.count, 2)
      && p[24..] == f.pcm
  {
    hide Pack, Size, ToLE;
    var v := [VERSION, f.flags, f.exchange, f.controller, f.offset, f.count];
    var h := Pack(PCM_WIDTHS, v);
    PcmOffsets();
    assert forall i, j :: 0 <= i <= j <= 24 ==> (h + f.pcm)[i..j] == h[i..j];
    FieldAt(PCM_WIDTHS, v, 0);
    FieldAt(PCM_WIDTHS, v, 1);
    FieldAt(PCM_WIDTHS, v, 2);
    FieldAt(PCM_WIDTHS, v, 3);
    FieldAt(PCM_WIDTHS, v, 4);
    FieldAt(PCM_WIDTHS, v, 5);
  }

  lemma TerminalLayout(t: Terminal)
    ensures var p := PackTerminal(t);
      && |p| == 30 && p[0..1] == ToLE(1, 1) && p[1..2] == ToLE(t.reason, 1) && p[2..10] == ToLE(t.exchange, 8)
      && p[10..18] == ToLE(t.controller, 8) && p[18..22] == ToLE(t.total, 4) && p[22..26] == ToLE(t.crc, 4)
      && p[26..30] == ToLE(t.dropped, 4)
  {
    hide Pack, Size, ToLE;
    var v := [VERSION, t.reason, t.exchange, t.controller, t.total, t.crc, t.dropped];
    TerminalOffsets();
    FieldAt(TERMINAL_WIDTHS, v, 0);
    FieldAt(TERMINAL_WIDTHS, v, 1);
    FieldAt(TERMINAL_WIDTHS, v, 2);
    FieldAt(TERMINAL_WIDTHS, v, 3);
    FieldAt(TERMINAL_WIDTHS, v, 4);
    FieldAt(TERMINAL_WIDTHS, v, 5);
    FieldAt(TERMINAL_WIDTHS, v, 6);
  }

  // Where each field begins.
  lemma BeginOffsets()
    ensures Size(BEGIN_WIDTHS[..0]) == 0 && Size(BEGIN_WIDTHS[..1]) == 1 && Size(BEGIN_WIDTHS[..2]) == 2
    ensures Size(BEGIN_WIDTHS[..3]) == 3 && Size(BEGIN_WIDTHS[..4]) == 4 && Size(BEGIN_WIDTHS[..5]) == 8
    ensures Size(BEGIN_WIDTHS[..6]) == 16 && Size(BEGIN_WIDTHS[..7]) == 24 && Size(BEGIN_WIDTHS[..8]) == 26
    ensures Size(BEGIN_WIDTHS) == 28
  {
    Offsets(BEGIN_WIDTHS);
    Widths();
  }

  lemma PcmOffsets()
    ensures Size(PCM_WIDTHS[..0]) == 0 && Size(PCM_WIDTHS[..1]) == 1 && Size(PCM_WIDTHS[..2]) == 2
    ensures Size(PCM_WIDTHS[..3]) == 10 && Size(PCM_WIDTHS[..4]) == 18 && Size(PCM_WIDTHS[..5]) == 22
    ensures Size(PCM_WIDTHS) == 24
  {
    Offsets(PCM_WIDTHS);
    Widths();
  }

  lemma TerminalOffsets()
    ensures Size(TERMINAL_WIDTHS[..0]) == 0 && Size(TERMINAL_WIDTHS[..1]) == 1 && Size(TERMINAL_WIDTHS[..2]) == 2
    ensures Size(TERMINAL_WIDTHS[..3]) == 10 && Size(TERMINAL_WIDTHS[..4]) == 18 && Size(TERMINAL_WIDTHS[..5]) == 22
    ensures Size(TERMINAL_WIDTHS[..6]) == 26
    ensures Size(TERMINAL_WIDTHS) == 30
  {
    Offsets(TERMINAL_WIDTHS);
    Widths();
  }

  // Each field begins where the one before it ends.
  lemma Offsets(widths: seq<nat>)
    ensures widths[..0] == [] && Size([]) == 0
    ensures forall i :: 0 <= i < |widths| ==> Size(widths[..i + 1]) == Size(widths[..i]) + widths[i]
  {
    forall i | 0 <= i < |widths|
      ensures Size(widths[..i + 1]) == Size(widths[..i]) + widths[i]
    {
      SizeSnoc(widths[..i], widths[i]);
      assert widths[..i + 1] == widths[..i] + [widths[i]];
    }
  }

  lemma {:induction false} SizeSnoc(widths: seq<nat>, w: nat)
    ensures Size(widths + [w]) == Size(widths) + w
  {
    if widths == [] {
      assert [] + [w] == [w] && [w][1..] == [];
    } else {
      SizeSnoc(widths[1..], w);
      assert (widths + [w])[1..] == widths[1..] + [w];
    }
  }

  lemma BeginRoundTrip(b: Begin)
    requires ValidBegin(b)
    ensures ParseBegin(PackBegin(b)) == Ok(b)
  {
    Widths();
    var v := [VERSION, b.flags, b.source, b.format, b.rate, b.exchange, b.controller, b.chunkSamples, 0];
    UnpackPack(BEGIN_WIDTHS, v);
  }

  lemma BeginCanonical(p: bytes)
    requires ParseBegin(p).Ok?
    ensures ValidBegin(ParseBegin(p).value) && PackBegin(ParseBegin(p).value) == p
  {
    Widths();
    var v := Unpack(BEGIN_WIDTHS, p);
    PackUnpack(BEGIN_WIDTHS, p);
    assert v[7] < Pow256(BEGIN_WIDTHS[7]);
    var b := ParseBegin(p).value;
    assert v == [VERSION, b.flags, b.source, b.format, b.rate, b.exchange, b.controller, b.chunkSamples, 0];
  }

  lemma PcmRoundTrip(f: Pcm)
    requires ValidPcm(f)
    ensures ParsePcm(PackPcm(f)) == Ok(f)
  {
    hide Pack, Unpack;
    Widths();
    var v := [VERSION, f.flags, f.exchange, f.controller, f.offset, f.count];
    UnpackPack(PCM_WIDTHS, v);
    var p := PackPcm(f);
    assert p[..24] == Pack(PCM_WIDTHS, v) && p[24..] == f.pcm;
  }

  lemma PcmCanonical(p: bytes)
    requires ParsePcm(p).Ok?
    ensures ValidPcm(ParsePcm(p).value) && PackPcm(ParsePcm(p).value) == p
  {
    Widths();
    var v := Unpack(PCM_WIDTHS, p[..24]);
    PackUnpack(PCM_WIDTHS, p[..24]);
    var f := ParsePcm(p).value;
    assert v == [VERSION, f.flags, f.exchange, f.controller, f.offset, f.count];
    assert p == p[..24] + p[24..];
  }

  lemma TerminalRoundTrip(t: Terminal)
    requires ValidTerminal(t)
    ensures ParseTerminal(PackTerminal(t)) == Ok(t)
  {
    Widths();
    var v := [VERSION, t.reason, t.exchange, t.controller, t.total, t.crc, t.dropped];
    UnpackPack(TERMINAL_WIDTHS, v);
  }

  lemma TerminalCanonical(p: bytes)
    requires ParseTerminal(p).Ok?
    ensures ValidTerminal(ParseTerminal(p).value) && PackTerminal(ParseTerminal(p).value) == p
  {
    Widths();
    var v := Unpack(TERMINAL_WIDTHS, p);
    PackUnpack(TERMINAL_WIDTHS, p);
    var t := ParseTerminal(p).value;
    assert v[1] < Pow256(TERMINAL_WIDTHS[1]) && v[4] < Pow256(TERMINAL_WIDTHS[4]);
    assert v[5] < Pow256(TERMINAL_WIDTHS[5]) && v[6] < Pow256(TERMINAL_WIDTHS[6]);
    assert v == [VERSION, t.reason, t.exchange, t.controller, t.total, t.crc, t.dropped];
  }
}
