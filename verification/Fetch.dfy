// Reassembling a recording from the burst of frames that answers one voicefetch.

module Fetch {
  import opened Bytes
  import F = Frame

  const FRAME_META: byte := 0x02
  const FRAME_AUDIO: byte := 0x01

  predicate IsAudio(f: F.Frame) {
    f.ftype == FRAME_AUDIO
  }

  predicate IsMeta(f: F.Frame) {
    f.ftype == FRAME_META
  }

  // The audio frames have different numbers, and chunks is what they carry.
  ghost predicate Carries(fs: seq<F.Frame>, chunks: map<nat, bytes>) {
    && (forall i :: 0 <= i < |fs| && IsAudio(fs[i]) ==> fs[i].seqno in chunks && chunks[fs[i].seqno] == fs[i].payload)
    && (forall k :: k in chunks ==> exists i :: 0 <= i < |fs| && IsAudio(fs[i]) && fs[i].seqno == k)
    && (forall i, j :: 0 <= i < j < |fs| && IsAudio(fs[i]) && IsAudio(fs[j]) ==> fs[i].seqno != fs[j].seqno)
  }

  predicate MetasOk(fs: seq<F.Frame>) {
    forall i :: 0 <= i < |fs| && IsMeta(fs[i]) ==> |fs[i].payload| == 4
  }

  // The size the last META frame declares.
  function Declared(fs: seq<F.Frame>): Option<nat> {
    if fs == [] then None
    else if IsMeta(fs[|fs| - 1]) then Some(FromLE(fs[|fs| - 1].payload))
    else Declared(fs[..|fs| - 1])
  }

  // The numbers 1 to n.
  function Upto(n: nat): (s: set<nat>)
    ensures |s| == n && forall k: nat :: k in s <==> 1 <= k <= n
  {
    if n == 0 then {} else Upto(n - 1) + {n}
  }

  function Joined(chunks: map<nat, bytes>, n: nat): bytes
    requires Upto(n) <= chunks.Keys
  {
    if n == 0 then []
    else
      assert n in Upto(n) && Upto(n - 1) <= Upto(n);
      Joined(chunks, n - 1) + chunks[n]
  }

  // What a good transfer is: numbers 1 to N once each, and size and CRC as declared.
  ghost predicate Good(fs: seq<F.Frame>, chunks: map<nat, bytes>, crc: Option<nat>) {
    && MetasOk(fs) && Carries(fs, chunks) && chunks.Keys == Upto(|chunks|)
    && Declared(fs) == Some(|Joined(chunks, |chunks|)|)
    && (crc.Some? ==> F.CrcValue(Joined(chunks, |chunks|)) == crc.value)
  }

  // The recording of a good transfer, or an error when the transfer is not good.
  ghost predicate IsResult(fs: seq<F.Frame>, crc: Option<nat>, r: Result<bytes>) {
    && (r.Ok? ==> exists chunks :: Good(fs, chunks, crc) && r.value == Joined(chunks, |chunks|))
    && (r.Err? ==> !exists chunks :: Good(fs, chunks, crc))
  }

  // fetch_frames, from the frames and the CRC found in the reply.
  method Reassemble(frames: seq<F.Frame>, crc: Option<nat>) returns (r: Result<bytes>)
    ensures IsResult(frames, crc, r)
  {
    if frames == [] {
      return Err("no frames");
    }
    var collected := Collect(frames, crc);
    if collected.Err? {
      return Err(collected.reason);
    }
    var (total, chunks) := collected.value;
    OnlyThese(frames, chunks, crc);
    if total.None? {
      return Err("no META frame");
    }
    r := InSequence(chunks);
    if r.Err? {
      return;
    }
    if |r.value| != total.value {
      return Err("length mismatch");
    }
    if crc.Some? && F.CrcValue(r.value) != crc.value {
      return Err("CRC mismatch");
    }
    assert Good(frames, chunks, crc);
  }

  // The first loop: the declared size and the audio frames by number.
  method Collect(frames: seq<F.Frame>, ghost crc: Option<nat>)
    returns (r: Result<(Option<nat>, map<nat, bytes>)>)
    ensures r.Ok? ==> MetasOk(frames) && r.value.0 == Declared(frames) && Carries(frames, r.value.1)
    ensures r.Err? ==> !exists chunks :: Good(frames, chunks, crc)
  {
    var total: Option<nat> := None;
    var chunks: map<nat, bytes> := map[];
    for i := 0 to |frames|
      invariant MetasOk(frames[..i]) && total == Declared(frames[..i]) && Carries(frames[..i], chunks)
    {
      var f := frames[i];
      assert frames[..i + 1] == frames[..i] + [f] && frames[..i + 1][..i] == frames[..i];
      if IsMeta(f) {
        if |f.payload| != 4 {
          return Err("bad META frame length");
        }
        total := Some(FromLE(f.payload));
      }
      if !IsAudio(f) {
        OtherFrame(frames[..i], f, chunks);
      } else {
        if f.seqno in chunks {
          TwiceIsBad(frames, i, chunks, crc);
          return Err("duplicate audio frame");
        }
        NextAudio(frames[..i], f, chunks);
        chunks := chunks[f.seqno := f.payload];
      }
    }
    assert frames[..|frames|] == frames;
    return Ok((total, chunks));
  }

  // The second loop: numbers 1, 2, ... as many as there are chunks.
  method InSequence(chunks: map<nat, bytes>) returns (r: Result<bytes>)
    ensures r.Ok? <==> chunks.Keys == Upto(|chunks|)
    ensures r.Ok? ==> r.value == Joined(chunks, |chunks|)
  {
    var out: bytes := [];
    for n := 1 to |chunks| + 1
      invariant Upto(n - 1) <= chunks.Keys && out == Joined(chunks, n - 1)
    {
      if n !in chunks {
        assert n in Upto(|chunks|);
        return Err("missing audio frame");
      }
      out := out + chunks[n];
    }
    Pigeonhole(chunks.Keys, |chunks|);
    return Ok(out);
  }

  lemma OtherFrame(fs: seq<F.Frame>, f: F.Frame, chunks: map<nat, bytes>)
    requires Carries(fs, chunks) && !IsAudio(f)
    ensures Carries(fs + [f], chunks)
  {
    forall k | k in chunks
      ensures exists i :: 0 <= i < |fs + [f]| && IsAudio((fs + [f])[i]) && (fs + [f])[i].seqno == k
    {
      var i :| 0 <= i < |fs| && IsAudio(fs[i]) && fs[i].seqno == k;
      assert (fs + [f])[i] == fs[i];
    }
  }

  lemma NextAudio(fs: seq<F.Frame>, f: F.Frame, chunks: map<nat, bytes>)
    requires Carries(fs, chunks) && IsAudio(f) && f.seqno !in chunks
    ensures Carries(fs + [f], chunks[f.seqno := f.payload])
  {
    var all := fs + [f];
    assert all[|fs|] == f;
    forall k | k in chunks
      ensures exists i :: 0 <= i < |all| && IsAudio(all[i]) && all[i].seqno == k
    {
      var i :| 0 <= i < |fs| && IsAudio(fs[i]) && fs[i].seqno == k;
      assert all[i] == fs[i];
    }
  }

  lemma TwiceIsBad(fs: seq<F.Frame>, j: nat, chunks: map<nat, bytes>, crc: Option<nat>)
    requires j < |fs| && Carries(fs[..j], chunks) && IsAudio(fs[j]) && fs[j].seqno in chunks
    ensures !exists any :: Good(fs, any, crc)
  {
    var i :| 0 <= i < |fs[..j]| && IsAudio(fs[..j][i]) && fs[..j][i].seqno == fs[j].seqno;
    assert fs[i] == fs[..j][i];
  }

  // What the frames carry does not depend on their order.
  lemma OneReading(fs: seq<F.Frame>, gs: seq<F.Frame>, a: map<nat, bytes>, b: map<nat, bytes>)
    requires Carries(fs, a) && Carries(gs, b) && forall f :: f in fs <==> f in gs
    ensures a == b
  {
    forall k
      ensures (k in a <==> k in b) && (k in a ==> a[k] == b[k])
    {
      if k in a {
        var i :| 0 <= i < |fs| && IsAudio(fs[i]) && fs[i].seqno == k;
        assert fs[i] in gs;
      }
      if k in b {
        var i :| 0 <= i < |gs| && IsAudio(gs[i]) && gs[i].seqno == k;
        assert gs[i] in fs;
      }
    }
  }

  lemma OnlyThese(fs: seq<F.Frame>, chunks: map<nat, bytes>, crc: Option<nat>)
    requires Carries(fs, chunks)
    ensures forall any :: Good(fs, any, crc) ==> any == chunks
  {
    forall any | Good(fs, any, crc) ensures any == chunks {
      OneReading(fs, fs, any, chunks);
    }
  }

  // ---- the order of arrival ------------------------------------------------------------------

  predicate MetasAgree(fs: seq<F.Frame>) {
    forall f, g :: f in fs && g in fs && IsMeta(f) && IsMeta(g) ==> FromLE(f.payload) == FromLE(g.payload)
  }

  lemma SameFrames(fs: seq<F.Frame>, gs: seq<F.Frame>)
    requires multiset(fs) == multiset(gs)
    ensures forall f :: f in fs <==> f in gs
  {
    assert forall f :: f in fs <==> f in multiset(fs);
    assert forall f :: f in gs <==> f in multiset(gs);
  }

  lemma SeenTwice<T>(s: seq<T>, i: nat, j: nat)
    requires i < j < |s| && s[i] == s[j]
    ensures multiset(s)[s[i]] >= 2
  {
    assert s == s[..j] + [s[j]] + s[j + 1..];
    assert s[..j][i] in multiset(s[..j]);
  }

  lemma FindTwice<T>(s: seq<T>, x: T) returns (i: nat, j: nat)
    requires multiset(s)[x] >= 2
    ensures i < j < |s| && s[i] == s[j] == x
  {
    assert x in multiset(s);
    i :| i < |s| && s[i] == x;
    assert s == s[..i] + [s[i]] + s[i + 1..];
    assert multiset(s) == multiset(s[..i]) + multiset{x} + multiset(s[i + 1..]);
    if x in multiset(s[..i]) {
      j := i;
      i :| i < |s[..j]| && s[..j][i] == x;
    } else {
      assert x in multiset(s[i + 1..]);
      var k :| 0 <= k < |s[i + 1..]| && s[i + 1..][k] == x;
      j := i + 1 + k;
    }
  }

  lemma CarriesInAnyOrder(fs: seq<F.Frame>, gs: seq<F.Frame>, chunks: map<nat, bytes>)
    requires multiset(fs) == multiset(gs) && Carries(fs, chunks)
    ensures Carries(gs, chunks)
  {
    SameFrames(fs, gs);
    forall k | k in chunks
      ensures exists i :: 0 <= i < |gs| && IsAudio(gs[i]) && gs[i].seqno == k
    {
      var i :| 0 <= i < |fs| && IsAudio(fs[i]) && fs[i].seqno == k;
      assert fs[i] in gs;
    }
    forall i | 0 <= i < |gs| && IsAudio(gs[i])
      ensures gs[i].seqno in chunks && chunks[gs[i].seqno] == gs[i].payload
    {
      assert gs[i] in fs;
    }
    forall i, j | 0 <= i < j < |gs| && IsAudio(gs[i]) && IsAudio(gs[j])
      ensures gs[i].seqno != gs[j].seqno
    {
      if gs[i] == gs[j] {
        SeenTwice(gs, i, j);
        var k, l := FindTwice(fs, gs[i]);
      } else {
        assert gs[i] in fs && gs[j] in fs;
      }
    }
  }

  lemma {:induction false} DeclaredByOne(fs: seq<F.Frame>)
    ensures Declared(fs).Some? ==> exists f :: f in fs && IsMeta(f) && Declared(fs) == Some(FromLE(f.payload))
    ensures Declared(fs).None? ==> forall f :: f in fs ==> !IsMeta(f)
  {
    if fs != [] {
      var n := |fs| - 1;
      assert fs == fs[..n] + [fs[n]];
      if !IsMeta(fs[n]) {
        DeclaredByOne(fs[..n]);
      }
    }
  }

  lemma DeclaredInAnyOrder(fs: seq<F.Frame>, gs: seq<F.Frame>)
    requires multiset(fs) == multiset(gs) && MetasAgree(fs)
    ensures Declared(fs) == Declared(gs)
  {
    SameFrames(fs, gs);
    DeclaredByOne(fs);
    DeclaredByOne(gs);
  }

  lemma GoodInAnyOrder(fs: seq<F.Frame>, gs: seq<F.Frame>, chunks: map<nat, bytes>, crc: Option<nat>)
    requires multiset(fs) == multiset(gs) && MetasAgree(fs) && Good(fs, chunks, crc)
    ensures Good(gs, chunks, crc)
  {
    CarriesInAnyOrder(fs, gs, chunks);
    DeclaredInAnyOrder(fs, gs);
    SameFrames(fs, gs);
    forall i | 0 <= i < |gs| && IsMeta(gs[i])
      ensures |gs[i].payload| == 4
    {
      assert gs[i] in fs;
    }
  }

  // Two METAs that declare different sizes: with the wrong one last the transfer fails.
  lemma LastMetaCounts(fs: seq<F.Frame>, i: nat, chunks: map<nat, bytes>, crc: Option<nat>) returns (gs: seq<F.Frame>)
    requires Good(fs, chunks, crc) && i < |fs| && IsMeta(fs[i]) && Declared(fs) != Some(FromLE(fs[i].payload))
    ensures multiset(fs) == multiset(gs) && !Good(gs, chunks, crc)
  {
    gs := fs[..i] + fs[i + 1..] + [fs[i]];
    assert fs == fs[..i] + [fs[i]] + fs[i + 1..];
    assert gs[|gs| - 1] == fs[i];
  }

  // Every order of arrival is as good as this one exactly when all META frames declare
  // the same size.
  lemma ArrivalOrderIrrelevant(fs: seq<F.Frame>, chunks: map<nat, bytes>, crc: Option<nat>)
    requires Good(fs, chunks, crc)
    ensures MetasAgree(fs) <==> forall gs :: multiset(fs) == multiset(gs) ==> Good(gs, chunks, crc)
  {
    if MetasAgree(fs) {
      forall gs | multiset(fs) == multiset(gs)
        ensures Good(gs, chunks, crc)
      {
        GoodInAnyOrder(fs, gs, chunks, crc);
      }
    } else {
      var f, g :| f in fs && g in fs && IsMeta(f) && IsMeta(g) && FromLE(f.payload) != FromLE(g.payload);
      var wrong := if Declared(fs) == Some(FromLE(f.payload)) then g else f;
      var i: nat :| i < |fs| && fs[i] == wrong;
      var gs := LastMetaCounts(fs, i, chunks, crc);
    }
  }

  // Such a transfer: no audio, a META that declares five bytes and one that declares
  // none.  With the empty one last it is good, the other way round it is an error.
  method LastMetaDecides() returns (five: F.Frame, none: F.Frame, r: Result<bytes>, q: Result<bytes>)
    ensures IsMeta(five) && IsMeta(none) && Good([five, none], map[], None) && !MetasAgree([five, none])
    ensures IsResult([five, none], None, r) && r == Ok([])
    ensures IsResult([none, five], None, q) && q.Err?
  {
    five, none := F.Frame(FRAME_META, 1, [5, 0, 0, 0]), F.Frame(FRAME_META, 2, [0, 0, 0, 0]);
    NoAudio(five, none);
    NoAudio(none, five);
    SizeOf(5);
    SizeOf(0);
    assert five in [five, none] && none in [five, none];
    r := Reassemble([five, none], None);
    q := Reassemble([none, five], None);
  }

  lemma SizeOf(n: byte)
    ensures FromLE([n, 0, 0, 0]) == n
  {
    assert [n, 0, 0, 0][1..] == [0, 0, 0] && [0, 0, 0][1..] == [0, 0] && [0, 0][1..] == [0] && [0][1..] == [];
  }

  // Two METAs alone carry nothing, and are good when the last one says so.
  lemma NoAudio(a: F.Frame, b: F.Frame)
    requires IsMeta(a) && IsMeta(b) && |a.payload| == |b.payload| == 4
    ensures Carries([a, b], map[]) && forall any :: Carries([a, b], any) ==> any == map[]
    ensures Good([a, b], map[], None) <==> FromLE(b.payload) == 0
  {
    forall any | Carries([a, b], any)
      ensures any == map[]
    {
      OneReading([a, b], [a, b], any, map[]);
    }
    assert Joined(map[], 0) == [];
  }

  // With METAs that agree Reassemble cannot tell the orders apart, for good transfers and
  // for bad ones.
  lemma SameResult(fs: seq<F.Frame>, gs: seq<F.Frame>, crc: Option<nat>, r: Result<bytes>, q: Result<bytes>)
    requires multiset(fs) == multiset(gs) && MetasAgree(fs)
    requires IsResult(fs, crc, r) && IsResult(gs, crc, q)
    ensures r.Ok? == q.Ok? && (r.Ok? ==> r.value == q.value)
  {
    SameFrames(fs, gs);
    forall chunks
      ensures Good(fs, chunks, crc) <==> Good(gs, chunks, crc)
    {
      if Good(fs, chunks, crc) {
        GoodInAnyOrder(fs, gs, chunks, crc);
      }
      if Good(gs, chunks, crc) {
        GoodInAnyOrder(gs, fs, chunks, crc);
      }
    }
    forall a, b | Good(fs, a, crc) && Good(gs, b, crc)
      ensures a == b
    {
      OneReading(fs, gs, a, b);
    }
  }

  // N keys that include 1 to N are 1 to N.
  lemma Pigeonhole(keys: set<nat>, n: nat)
    requires |keys| == n && Upto(n) <= keys
    ensures keys == Upto(n)
  {
    var rest := keys - Upto(n);
    assert keys == Upto(n) + rest;
    assert |rest| == 0;
  }
}
