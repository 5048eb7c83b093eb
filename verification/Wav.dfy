// The RIFF/WAV reader and the canonical writer.

module Wav {
  import opened Bytes

  datatype Chunk = Chunk(id: bytes, body: bytes)

  datatype Format = Format(rate: nat, channels: nat, bits: nat)

  datatype WavData = WavData(format: Format, pcm: bytes)

  const RIFF: bytes := [0x52, 0x49, 0x46, 0x46]
  const WAVE: bytes := [0x57, 0x41, 0x56, 0x45]
  const FMT: bytes := [0x66, 0x6D, 0x74, 0x20]
  const DATA: bytes := [0x64, 0x61, 0x74, 0x61]

  const WORD_MAX := 0x1_0000_0000

  // ---- what a file is: a RIFF header and word-aligned chunks -----------------------------

  function Pad(n: nat): bytes {
    if n % 2 == 1 then [0] else []
  }

  function ChunkBytes(c: Chunk): bytes {
    c.id + ToLE(|c.body|, 4) + c.body + Pad(|c.body|)
  }

  function AllBytes(cs: seq<Chunk>): bytes {
    if cs == [] then [] else ChunkBytes(cs[0]) + AllBytes(cs[1..])
  }

  // Codec 1 is linear PCM.
  predicate FormatOk(body: bytes) {
    |body| >= 16 && FromLE(body[..2]) == 1
  }

  // <HHIIHH: codec, channels, rate, byte rate, block align, bits.
  function ReadFormat(body: bytes): Format
    requires |body| >= 16
  {
    Format(FromLE(body[4..8]), FromLE(body[2..4]), FromLE(body[14..16]))
  }

  function FormatBytes(channels: nat, rate: nat, bits: nat): (body: bytes)
    ensures |body| == 16
  {
    ToLE(1, 2) + ToLE(channels, 2) + ToLE(rate, 4) + ToLE(rate * 2, 4) + ToLE(2, 2) + ToLE(bits, 2)
  }

  predicate Readable(c: Chunk) {
    |c.id| == 4 && |c.body| < WORD_MAX && (c.id == FMT ==> FormatOk(c.body))
  }

  function LastOf(cs: seq<Chunk>, id: bytes): Option<bytes> {
    if cs == [] then None
    else if cs[|cs| - 1].id == id then Some(cs[|cs| - 1].body)
    else LastOf(cs[..|cs| - 1], id)
  }

  // The verdict on a file with these chunks: the last format and the last data count.
  function Verdict(fmt: Option<bytes>, pcm: Option<bytes>): Result<WavData>
    requires fmt.Some? ==> |fmt.value| >= 16
  {
    if fmt.None? || pcm.None? then Err("missing fmt or data chunk")
    else if ReadFormat(fmt.value).bits == 16 && |pcm.value| % 2 == 1 then Err("odd data length")
    else Ok(WavData(ReadFormat(fmt.value), pcm.value))
  }

  // ---- parse ---------------------------------------------------------------------------------

  // The chunk walk; Err for a chunk that is cut short or a format that is not linear PCM.
  function Walk(data: bytes, pos: nat): Result<seq<Chunk>>
    decreases if pos <= |data| then |data| - pos else 0
  {
    if pos + 8 > |data| then Ok([])
    else
      var size := FromLE(data[pos + 4..pos + 8]);
      if pos + 8 + size > |data| then Err("truncated chunk")
      else
        var c := Chunk(data[pos..pos + 4], data[pos + 8..pos + 8 + size]);
        if c.id == FMT && !FormatOk(c.body) then Err("bad fmt chunk")
        else
          var rest := Walk(data, pos + 8 + size + size % 2);
          if rest.Err? then rest else Ok([c] + rest.value)
  }

  predicate FormatsOk(cs: seq<Chunk>) {
    forall i :: 0 <= i < |cs| && cs[i].id == FMT ==> FormatOk(cs[i].body)
  }

  lemma {:induction false} WalkFormats(data: bytes, pos: nat)
    requires Walk(data, pos).Ok?
    ensures FormatsOk(Walk(data, pos).value)
    decreases if pos <= |data| then |data| - pos else 0
  {
    if pos + 8 <= |data| {
      var size := FromLE(data[pos + 4..pos + 8]);
      WalkFormats(data, pos + 8 + size + size % 2);
    }
  }

  lemma {:induction false} LastFormat(cs: seq<Chunk>)
    requires FormatsOk(cs)
    ensures LastOf(cs, FMT).Some? ==> FormatOk(LastOf(cs, FMT).value)
  {
    if cs != [] && cs[|cs| - 1].id != FMT {
      LastFormat(cs[..|cs| - 1]);
    }
  }

  predicate IsRiff(data: bytes) {
    |data| >= 12 && data[..4] == RIFF && data[8..12] == WAVE
  }

  // What parse returns, in terms of the chunks of the file.
  function Parsed(data: bytes): Result<WavData> {
    if !IsRiff(data) then Err("not a RIFF/WAVE file")
    else
      var cs := Walk(data, 12);
      if cs.Err? then Err(cs.reason)
      else
        WalkFormats(data, 12);
        LastFormat(cs.value);
        Verdict(LastOf(cs.value, FMT), LastOf(cs.value, DATA))
  }

  // The loop of parse stands at pos and has gone over the chunks in seen.
  ghost predicate Ahead(data: bytes, pos: nat, seen: seq<Chunk>) {
    && (Walk(data, pos).Err? ==> Walk(data, 12) == Walk(data, pos))
    && (Walk(data, pos).Ok? ==> Walk(data, 12) == Ok(seen + Walk(data, pos).value))
  }

  ghost predicate Latest(seen: seq<Chunk>, fmt: Option<bytes>, pcm: Option<bytes>) {
    FormatsOk(seen) && fmt == LastOf(seen, FMT) && pcm == LastOf(seen, DATA)
  }

  method Parse(data: bytes) returns (r: Result<WavData>)
    ensures r == Parsed(data)
  {
    if !IsRiff(data) {
      return Err("not a RIFF/WAVE file");
    }
    var pos: nat := 12;
    var fmt, pcm: Option<bytes> := None, None;
    ghost var seen: seq<Chunk> := [];
    Starts(data);
    while pos + 8 <= |data|
      invariant Ahead(data, pos, seen) && Latest(seen, fmt, pcm)
    {
      var cid := data[pos..pos + 4];
      var size := FromLE(data[pos + 4..pos + 8]);
      if pos + 8 + size > |data| {
        return Err("truncated chunk");
      }
      var body := data[pos + 8..pos + 8 + size];
      if cid == FMT && !FormatOk(body) {
        return Err("bad fmt chunk");
      }
      Steps(data, pos, seen, Chunk(cid, body));
      OneMore(seen, Chunk(cid, body), fmt, pcm);
      if cid == FMT {
        fmt := Some(body);
      } else if cid == DATA {
        pcm := Some(body);
      }
      seen := seen + [Chunk(cid, body)];
      pos := pos + 8 + size + size % 2;
    }
    Ends(data, pos, seen, fmt, pcm);
    r := Verdict(fmt, pcm);
  }

  lemma Starts(data: bytes)
    ensures Ahead(data, 12, []) && Latest([], None, None)
  {
    assert Walk(data, 12).Ok? ==> [] + Walk(data, 12).value == Walk(data, 12).value;
  }

  // c is the chunk at pos.
  predicate ChunkHere(data: bytes, pos: nat, c: Chunk) {
    && pos + 8 <= |data| && FromLE(data[pos + 4..pos + 8]) == |c.body| <= |data| - pos - 8
    && c == Chunk(data[pos..pos + 4], data[pos + 8..pos + 8 + |c.body|])
    && (c.id == FMT ==> FormatOk(c.body))
  }

  lemma Steps(data: bytes, pos: nat, seen: seq<Chunk>, c: Chunk)
    requires Ahead(data, pos, seen) && ChunkHere(data, pos, c)
    ensures Ahead(data, pos + 8 + |c.body| + |c.body| % 2, seen + [c])
  {
    var rest := Walk(data, pos + 8 + |c.body| + |c.body| % 2);
    if rest.Ok? {
      Regroup(seen, [c], rest.value);
    }
  }

  lemma OneMore(seen: seq<Chunk>, c: Chunk, fmt: Option<bytes>, pcm: Option<bytes>)
    requires Latest(seen, fmt, pcm) && (c.id == FMT ==> FormatOk(c.body))
    ensures Latest(seen + [c], if c.id == FMT then Some(c.body) else fmt,
                   if c.id != FMT && c.id == DATA then Some(c.body) else pcm)
  {
    assert (seen + [c])[..|seen|] == seen;
    assert FMT[0] != DATA[0];
  }

  lemma Ends(data: bytes, pos: nat, seen: seq<Chunk>, fmt: Option<bytes>, pcm: Option<bytes>)
    requires pos + 8 > |data| && Ahead(data, pos, seen) && Latest(seen, fmt, pcm) && IsRiff(data)
    ensures (fmt.Some? ==> |fmt.value| >= 16) && Parsed(data) == Verdict(fmt, pcm)
  {
    assert seen + [] == seen;
    LastFormat(seen);
  }

  // ---- reading back what was written ----------------------------------------------------------

  // Chunks with whatever stands in the place of their pad bytes.
  function Laid(cs: seq<Chunk>, pads: seq<bytes>): bytes
    requires |pads| == |cs|
  {
    if cs == [] then [] else ChunkHead(cs[0]) + pads[0] + Laid(cs[1..], pads[1..])
  }

  function ChunkHead(c: Chunk): bytes {
    c.id + ToLE(|c.body|, 4) + c.body
  }

  // Every odd chunk has a pad byte, but for the very end of the file; what is left over
  // is too short for a chunk.
  predicate PadsFit(cs: seq<Chunk>, pads: seq<bytes>, tail: bytes) {
    && |pads| == |cs| && |tail| < 8
    && forall i :: 0 <= i < |cs| ==>
         |pads[i]| == |cs[i].body| % 2 || (i == |cs| - 1 && pads[i] == [] && tail == [])
  }

  predicate AllReadable(cs: seq<Chunk>) {
    forall i :: 0 <= i < |cs| ==> Readable(cs[i])
  }

  lemma {:induction false} WalkReads(before: bytes, cs: seq<Chunk>, pads: seq<bytes>, tail: bytes)
    requires AllReadable(cs) && PadsFit(cs, pads, tail)
    ensures Walk(before + Laid(cs, pads) + tail, |before|) == Ok(cs)
    decreases |cs|
  {
    if cs == [] {
      assert before + Laid(cs, pads) + tail == before + tail;
    } else {
      var c, pad, after := cs[0], pads[0], Laid(cs[1..], pads[1..]) + tail;
      var next := before + (ChunkHead(c) + pad);
      PadsFitRest(cs, pads, tail);
      WalkReads(next, cs[1..], pads[1..], tail);
      Regroup(before, ChunkHead(c) + pad, Laid(cs[1..], pads[1..]));
      Regroup(next, Laid(cs[1..], pads[1..]), tail);
      WalkOne(before, c, pad, after, cs[1..]);
      assert cs == [c] + cs[1..];
    }
  }

  lemma PadsFitRest(cs: seq<Chunk>, pads: seq<bytes>, tail: bytes)
    requires cs != [] && PadsFit(cs, pads, tail)
    ensures PadsFit(cs[1..], pads[1..], tail)
    ensures |pads[0]| == |cs[0].body| % 2 || (pads[0] == [] && cs[1..] == [] && tail == [])
  {
    assert forall i :: 0 <= i < |cs| - 1 ==> cs[1..][i] == cs[i + 1] && pads[1..][i] == pads[i + 1];
  }

  lemma WalkOne(before: bytes, c: Chunk, pad: bytes, after: bytes, rest: seq<Chunk>)
    requires Readable(c) && (|pad| == |c.body| % 2 || (pad == [] && after == [] && rest == []))
    requires var next := before + (ChunkHead(c) + pad); Walk(next + after, |next|) == Ok(rest)
    ensures Walk(before + (ChunkHead(c) + pad) + after, |before|) == Ok([c] + rest)
  {
    ChunkAt(before, c, pad, after);
  }

  lemma ChunkAt(before: bytes, c: Chunk, pad: bytes, after: bytes)
    requires Readable(c)
    ensures var data, p, n := before + (ChunkHead(c) + pad) + after, |before|, |c.body|;
      && p + 8 + n <= |data| && FromLE(data[p + 4..p + 8]) == n
      && data[p..p + 4] == c.id && data[p + 8..p + 8 + n] == c.body
      && |before + (ChunkHead(c) + pad)| == p + 8 + n + |pad|
  {
    var n := |c.body|;
    Places(before, c.id, ToLE(n, 4), c.body, pad, after);
    SizeFits(n);
    FieldOfValue(n, 4);
  }

  // The other way: what was walked is chunks, pads and a short rest.
  lemma {:induction false} WalkedIsLaid(data: bytes, pos: nat) returns (pads: seq<bytes>, tail: bytes)
    requires pos <= |data| && Walk(data, pos).Ok?
    ensures var cs := Walk(data, pos).value;
      AllReadable(cs) && PadsFit(cs, pads, tail) && data[pos..] == Laid(cs, pads) + tail
    decreases |data| - pos
  {
    var cs := Walk(data, pos).value;
    if cs == [] {
      pads, tail := [], data[pos..];
      assert [] + tail == tail;
      return;
    }
    var c := cs[0];
    var n := |c.body|;
    var next := pos + 8 + n + n % 2;
    HeadOf(data, pos, c);
    if next > |data| {
      assert Walk(data, next) == Ok([]) && cs == [c];
      pads, tail := [[]], [];
      assert Laid(cs, pads) + tail == ChunkHead(c);
    } else {
      pads, tail := WalkedIsLaid(data, next);
      var pad := data[pos + 8 + n..next];
      assert cs == [c] + Walk(data, next).value && cs[1..] == Walk(data, next).value;
      assert data[pos..] == data[pos..pos + 8 + n] + pad + data[next..];
      OneMoreLaid(c, pad, cs[1..], pads, tail);
      pads := [pad] + pads;
    }
  }

  lemma OneMoreLaid(c: Chunk, pad: bytes, cs: seq<Chunk>, pads: seq<bytes>, tail: bytes)
    requires |pad| == |c.body| % 2 && PadsFit(cs, pads, tail)
    ensures PadsFit([c] + cs, [pad] + pads, tail)
    ensures Laid([c] + cs, [pad] + pads) + tail == ChunkHead(c) + pad + (Laid(cs, pads) + tail)
  {
    assert ([c] + cs)[1..] == cs && ([pad] + pads)[1..] == pads;
    Regroup(ChunkHead(c) + pad, Laid(cs, pads), tail);
  }

  // The bytes of the chunk at pos.
  lemma HeadOf(data: bytes, pos: nat, c: Chunk)
    requires ChunkHere(data, pos, c)
    ensures Readable(c) && data[pos..pos + 8 + |c.body|] == ChunkHead(c)
  {
    ValueOfField(data[pos + 4..pos + 8]);
    assert Pow256(4) == WORD_MAX;
    assert data[pos..pos + 8 + |c.body|]
      == data[pos..pos + 4] + data[pos + 4..pos + 8] + data[pos + 8..pos + 8 + |c.body|];
  }

  // The walk accepts a file, with these chunks, exactly when the file is such chunks one
  // after the other, odd ones padded, with at most seven bytes left over.
  lemma WalkExactly(data: bytes, pos: nat, cs: seq<Chunk>)
    requires pos <= |data|
    ensures Walk(data, pos) == Ok(cs) <==>
      AllReadable(cs) && exists pads, tail :: PadsFit(cs, pads, tail) && data[pos..] == Laid(cs, pads) + tail
  {
    if Walk(data, pos) == Ok(cs) {
      var pads, tail := WalkedIsLaid(data, pos);
    }
    if AllReadable(cs) {
      forall pads, tail | PadsFit(cs, pads, tail) && data[pos..] == Laid(cs, pads) + tail
        ensures Walk(data, pos) == Ok(cs)
      {
        WalkReads(data[..pos], cs, pads, tail);
        Regroup(data[..pos], Laid(cs, pads), tail);
        assert data == data[..pos] + data[pos..];
      }
    }
  }

  function Pads(cs: seq<Chunk>): (pads: seq<bytes>)
    ensures |pads| == |cs|
  {
    if cs == [] then [] else [Pad(|cs[0].body|)] + Pads(cs[1..])
  }

  lemma {:induction false} AllBytesLaid(cs: seq<Chunk>)
    ensures forall i :: 0 <= i < |cs| ==> |Pads(cs)[i]| == |cs[i].body| % 2
    ensures PadsFit(cs, Pads(cs), []) && AllBytes(cs) == Laid(cs, Pads(cs))
    decreases |cs|
  {
    if cs != [] {
      AllBytesLaid(cs[1..]);
      assert Pads(cs)[1..] == Pads(cs[1..]);
      forall i | 0 <= i < |cs|
        ensures |Pads(cs)[i]| == |cs[i].body| % 2
      {
        if i > 0 {
          assert Pads(cs)[i] == Pads(cs[1..])[i - 1] && cs[i] == cs[1..][i - 1];
        }
      }
    }
  }

  lemma SizeFits(n: nat)
    requires n < WORD_MAX
    ensures n < Pow256(4)
  {
  }

  lemma Places(before: bytes, id: bytes, size: bytes, body: bytes, pad: bytes, after: bytes)
    requires |id| == 4 && |size| == 4
    ensures var data, p, n := before + (id + size + body + pad) + after, |before|, |body|;
      |data| >= p + 8 + n && data[p..p + 4] == id && data[p + 4..p + 8] == size && data[p + 8..p + 8 + n] == body
  {
  }

  // Any list of chunks comes back, whatever other chunks stand between fmt and data.
  lemma FileReads(size: bytes, cs: seq<Chunk>)
    requires |size| == 4 && AllReadable(cs)
    ensures LastOf(cs, FMT).Some? ==> FormatOk(LastOf(cs, FMT).value)
    ensures Parsed(RIFF + size + WAVE + AllBytes(cs)) == Verdict(LastOf(cs, FMT), LastOf(cs, DATA))
  {
    var head := RIFF + size + WAVE;
    var data := head + AllBytes(cs);
    AllBytesLaid(cs);
    WalkReads(head, cs, Pads(cs), []);
    assert data + [] == data;
    assert data[..4] == RIFF && data[8..12] == WAVE;
    LastFormat(cs);
  }

  // build; Err also where struct.pack refuses a field of more than 32 bits.
  function Build(pcm: bytes, rate: int): Result<bytes> {
    if |pcm| % 2 == 1 then Err("odd PCM byte length")
    else if rate <= 0 then Err("invalid sample rate")
    else if 36 + |pcm| >= WORD_MAX || rate * 2 >= WORD_MAX then Err("field out of range")
    else
      var fmt := FormatBytes(1, rate, 16);
      Ok(RIFF + ToLE(36 + |pcm|, 4) + WAVE + FMT + ToLE(|fmt|, 4) + fmt + DATA + ToLE(|pcm|, 4) + pcm)
  }

  predicate Canonical(w: WavData) {
    w.format == Format(16000, 1, 16)
  }

  // A built file reads back as the same audio at the same rate; at 16 kHz it is canonical.
  lemma BuildReadsBack(pcm: bytes, rate: int)
    requires Build(pcm, rate).Ok?
    ensures Parsed(Build(pcm, rate).value) == Ok(WavData(Format(rate, 1, 16), pcm))
    ensures rate == 16000 ==> Canonical(Parsed(Build(pcm, rate).value).value)
  {
    FormatReads(1, rate, 16);
    FileOfTwo(ToLE(36 + |pcm|, 4), FormatBytes(1, rate, 16), pcm);
  }

  lemma FileOfTwo(size: bytes, fmt: bytes, pcm: bytes)
    requires |size| == 4 && |fmt| == 16 && FormatOk(fmt) && |pcm| % 2 == 0 && |pcm| < WORD_MAX
    ensures Parsed(RIFF + size + WAVE + FMT + ToLE(|fmt|, 4) + fmt + DATA + ToLE(|pcm|, 4) + pcm)
      == Verdict(Some(fmt), Some(pcm))
  {
    var f, d := Chunk(FMT, fmt), Chunk(DATA, pcm);
    TwoChunks(f, d);
    FileReads(size, [f, d]);
    Flatten(RIFF + size + WAVE, FMT, ToLE(|fmt|, 4), fmt, DATA, ToLE(|pcm|, 4), pcm);
  }

  lemma Flatten(h: bytes, f: bytes, l: bytes, b: bytes, d: bytes, m: bytes, p: bytes)
    ensures h + f + l + b + d + m + p == h + ((f + l + b + []) + (d + m + p + []))
  {
  }

  lemma FormatReads(channels: nat, rate: nat, bits: nat)
    requires channels < 0x10000 && rate < WORD_MAX && bits < 0x10000
    ensures var body := FormatBytes(channels, rate, bits);
      FormatOk(body) && ReadFormat(body) == Format(rate, channels, bits)
  {
    SixFields(ToLE(1, 2), ToLE(channels, 2), ToLE(rate, 4), ToLE(rate * 2, 4), ToLE(2, 2), ToLE(bits, 2));
    WordFits(channels);
    WordFits(bits);
    SizeFits(rate);
    FieldOfValue(1, 2);
    FieldOfValue(channels, 2);
    FieldOfValue(rate, 4);
    FieldOfValue(bits, 2);
  }

  lemma WordFits(n: nat)
    requires n < 0x10000
    ensures n < Pow256(2) && 1 < Pow256(2)
  {
  }

  lemma SixFields(a: bytes, b: bytes, c: bytes, d: bytes, e: bytes, f: bytes)
    requires |a| == |b| == |e| == |f| == 2 && |c| == |d| == 4
    ensures var s := a + b + c + d + e + f;
      s[..2] == a && s[2..4] == b && s[4..8] == c && s[14..16] == f
  {
  }

  lemma TwoChunks(a: Chunk, b: Chunk)
    ensures AllBytes([a, b]) == ChunkBytes(a) + ChunkBytes(b)
    ensures a.id != b.id ==> LastOf([a, b], a.id) == Some(a.body) && LastOf([a, b], b.id) == Some(b.body)
  {
    assert [a, b][1..] == [b] && [b][1..] == [];
    assert AllBytes([b]) == ChunkBytes(b) + AllBytes([b][1..]);
    assert [a, b][..1] == [a];
  }
}
