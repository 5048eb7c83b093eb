// Which frames a live stream takes, exactly, and what becomes of a faithful sender's
// stream: every sample arrives, behind them a valid END.

module LiveSender {
  import opened Bytes
  import opened Checksum32
  import opened LiveStream
  import Codec = LiveCodec

  // ---- each frame, in terms of what was accepted before it ------------------------------------

  // The frame names the stream's exchange and controller and has the next wire number.
  predicate Follows(s: Stream, exchange: nat, controller: nat, seqNo: nat) {
    exchange == s.begin.exchange && controller == s.begin.controller && seqNo == (s.beginSeq + |s.accepted| + 1) % 0x10000
  }

  // The totals are those of the accepted samples.
  predicate Agrees(s: Stream, f: Codec.Terminal) {
    f.total == Samples(s.accepted) && WordOf(f.crc) == Crc32(PcmOf(s.accepted), ZERO)
  }

  // An END is valid exactly when it is the stream's own, in sequence, for reason 0, with
  // the totals of what was accepted, and reports nothing dropped.
  lemma EndExactly(s: Stream, f: Codec.Terminal, seqNo: nat, now: nat)
    requires Inv(s) && s.terminal.None?
    ensures var t := OfferTerminal(s, f, false, seqNo, now);
      && t.terminal.Some? && t.accepted == s.accepted && t.delivered == s.delivered
      && (t.terminal.value.valid <==>
            Follows(s, f.exchange, f.controller, seqNo) && f.reason == 0 && Agrees(s, f) && f.dropped == 0)
      && (t.terminal.value.valid ==>
            t.chunks == s.chunks
            && t.terminal.value == Terminal(End, true, Code(0), Samples(s.accepted), Crc32(PcmOf(s.accepted), ZERO), 0))
      && (!t.terminal.value.valid ==> t.chunks == [] && t.terminal.value.kind == Invalid)
  {
    Successor(s.beginSeq + |s.accepted|);
  }

  // An ABORT is taken for what it says exactly when it is the stream's own, in sequence,
  // for a known reason and with the totals of what was accepted.
  lemma AbortExactly(s: Stream, f: Codec.Terminal, seqNo: nat, now: nat)
    requires Inv(s) && s.terminal.None?
    ensures var t := OfferTerminal(s, f, true, seqNo, now);
      && t.terminal.Some? && t.chunks == [] && t.accepted == s.accepted && t.delivered == s.delivered
      && !t.terminal.value.valid
      && (t.terminal.value.kind.Abort? <==>
            Follows(s, f.exchange, f.controller, seqNo) && 1 <= f.reason <= 7 && Agrees(s, f))
      && (t.terminal.value.kind.Abort? ==>
            t.terminal.value.reason == Code(f.reason)
            && t.terminal.value.dropped == f.dropped + (Samples(s.accepted) - Samples(s.delivered)))
      && (!t.terminal.value.kind.Abort? ==> t.terminal.value.kind.Invalid?)
  {
    Successor(s.beginSeq + |s.accepted|);
    DiscardFlow(s, 0);
  }

  // PCM is taken exactly when it is the stream's own, in sequence, at the right offset and
  // there is room for it; anything else ends the stream.
  lemma PcmExactly(s: Stream, f: Codec.Pcm, seqNo: nat, now: nat)
    requires Inv(s) && s.terminal.None?
    ensures var t := OfferPcm(s, f, seqNo, now);
      && (t.terminal.None? <==>
            Follows(s, f.exchange, f.controller, seqNo) && f.flags == s.begin.flags && f.offset == Samples(s.accepted)
            && |PcmOf(s.chunks)| + |f.pcm| <= s.limits.maxBytes && |s.chunks| < s.limits.maxFrames)
      && (t.terminal.None? ==>
            t.accepted == s.accepted + [Chunk(seqNo, f.offset, f.count, f.pcm)] && t.delivered == s.delivered
            && t.chunks == s.chunks + [Chunk(seqNo, f.offset, f.count, f.pcm)])
      && (t.terminal.Some? ==>
            t.terminal.value.kind.Invalid? && t.chunks == [] && t.accepted == s.accepted && t.delivered == s.delivered)
  {
    Successor(s.beginSeq + |s.accepted|);
  }

  // Time ends an open stream exactly at the whole-stream limit, or the limit for the first
  // frame, or the one between frames.
  lemma ExpiresExactly(s: Stream, now: nat)
    requires s.terminal.None?
    ensures Expire(s, now).terminal.None? <==>
      now < s.beganNs + s.limits.totalNs
      && (s.firstNs.None? ==> now < s.beganNs + s.limits.firstNs)
      && (s.firstNs.Some? ==> now < s.lastNs + s.limits.gapNs)
    ensures Expire(s, now).terminal.None? ==> Expire(s, now) == s
  {
  }

  // ---- a faithful sender and its consumer ---------------------------------------------------------

  // The sender sends its next samples, or its END; the consumer asks for an item.
  datatype Act = Send(pcm: bytes, now: nat) | Finish(now: nat) | Read(now: nat)

  function Sum(sizes: seq<nat>): nat {
    if sizes == [] then 0 else Sum(sizes[..|sizes| - 1]) + sizes[|sizes| - 1]
  }

  function AllSent(acts: seq<Act>): seq<bytes> {
    if acts == [] then []
    else AllSent(acts[..|acts| - 1]) + if acts[|acts| - 1].Send? then [acts[|acts| - 1].pcm] else []
  }

  // What the sender puts on the wire after it has sent this much.
  function OpOf(begin: Codec.Begin, beginSeq: nat, sent: seq<bytes>, a: Act): Op {
    var n := (beginSeq + |sent| + 1) % 0x10000;
    match a
    case Send(pcm, now) =>
      PcmFrame(Codec.Pcm(begin.flags, begin.exchange, begin.controller, |Concat(sent)| / 2, |pcm| / 2, pcm), n, now)
    case Finish(now) =>
      var crc := FromBits(Crc32(Concat(sent), ZERO));
      TerminalFrame(Codec.Terminal(0, begin.exchange, begin.controller, |Concat(sent)| / 2, crc, 0), false, n, now)
    case Read(now) => Consume(now)
  }

  function Run(s: Stream, begin: Codec.Begin, beginSeq: nat, acts: seq<Act>): Stream {
    if acts == [] then s
    else
      var before := acts[..|acts| - 1];
      Apply(Run(s, begin, beginSeq, before), OpOf(begin, beginSeq, AllSent(before), acts[|acts| - 1]))
  }

  // The sizes still queued, when the last frame came, and whether the END has been sent.
  datatype Plan = Plan(sizes: seq<nat>, last: Option<nat>, done: bool)

  // Told from the acts alone: whole samples with room for them, nothing after the END, and
  // no read of an unfinished stream at or past a deadline.
  function Follow(limits: Limits, began: nat, p: Plan, a: Act): Option<Plan> {
    match a
    case Send(pcm, now) =>
      if |pcm| % 2 == 0 && !p.done && Sum(p.sizes) + |pcm| <= limits.maxBytes && |p.sizes| < limits.maxFrames
      then Some(Plan(p.sizes + [|pcm|], Some(now), false)) else None
    case Finish(now) => if p.done then None else Some(p.(done := true))
    case Read(now) =>
      var due := if p.last.None? then began + limits.firstNs else p.last.value + limits.gapNs;
      if p.done || (now < began + limits.totalNs && now < due)
      then Some(p.(sizes := if p.sizes == [] then [] else p.sizes[1..])) else None
  }

  function Smooth(limits: Limits, began: nat, acts: seq<Act>): Option<Plan> {
    if acts == [] then Some(Plan([], None, false))
    else
      var p := Smooth(limits, began, acts[..|acts| - 1]);
      if p.None? then None else Follow(limits, began, p.value, acts[|acts| - 1])
  }

  function Sizes(chunks: seq<Chunk>): seq<nat> {
    seq(|chunks|, i requires 0 <= i < |chunks| => |chunks[i].pcm|)
  }

  // The stream is where the plan says, and holds all that was sent.
  ghost predicate OnPlan(s: Stream, begin: Codec.Begin, beginSeq: nat, began: nat, limits: Limits, p: Plan, sent: seq<bytes>) {
    && Inv(s) && s.begin == begin && s.beginSeq == beginSeq && s.beganNs == began && s.limits == limits
    && Sizes(s.chunks) == p.sizes && PcmOf(s.accepted) == Concat(sent) && |s.accepted| == |sent|
    && Samples(s.accepted) == |Concat(sent)| / 2 && |Concat(sent)| % 2 == 0
    && s.delivered + s.chunks == s.accepted
    && if p.done
       then s.terminal == Some(Terminal(End, true, Code(0), Samples(s.accepted), Crc32(PcmOf(s.accepted), ZERO), 0))
       else s.terminal.None? && (p.last.None? <==> s.firstNs.None?) && (p.last.Some? ==> s.lastNs == p.last.value)
  }

  lemma {:induction false} SumIsBytes(chunks: seq<Chunk>)
    ensures Sum(Sizes(chunks)) == |PcmOf(chunks)|
    decreases |chunks|
  {
    if chunks != [] {
      SumIsBytes(chunks[..|chunks| - 1]);
      assert Sizes(chunks)[..|chunks| - 1] == Sizes(chunks[..|chunks| - 1]);
    }
  }

  lemma SendOnPlan(s: Stream, begin: Codec.Begin, beginSeq: nat, began: nat, limits: Limits, p: Plan, sent: seq<bytes>, a: Act)
    requires OnPlan(s, begin, beginSeq, began, limits, p, sent) && a.Send? && Follow(limits, began, p, a).Some?
    ensures OnPlan(Apply(s, OpOf(begin, beginSeq, sent, a)), begin, beginSeq, began, limits,
                   Follow(limits, began, p, a).value, sent + [a.pcm])
  {
    hide Inv, OfferPcm, PcmOf, Samples, Concat, Sum;
    var n := (beginSeq + |sent| + 1) % 0x10000;
    var f := OpOf(begin, beginSeq, sent, a).f;
    SumIsBytes(s.chunks);
    PcmExactly(s, f, n, a.now);
    PcmKeeps(s, f, n, a.now);
    Taken(s, f, n, a.now);
    var chunk := Chunk(n, f.offset, f.count, f.pcm);
    SumsSnoc(s.accepted, chunk);
    ConcatOne(sent, a.pcm);
    assert Sizes(s.chunks + [chunk]) == Sizes(s.chunks) + [|chunk.pcm|];
    Regroup(s.delivered, s.chunks, [chunk]);
  }

  // Times and identity of a stream that takes PCM.
  lemma Taken(s: Stream, f: Codec.Pcm, seqNo: nat, now: nat)
    requires s.terminal.None?
    ensures var t := OfferPcm(s, f, seqNo, now);
      && t.begin == s.begin && t.beginSeq == s.beginSeq && t.beganNs == s.beganNs && t.limits == s.limits
      && (t.terminal.None? ==> t.firstNs.Some? && t.lastNs == now)
  {
  }

  lemma FinishOnPlan(s: Stream, begin: Codec.Begin, beginSeq: nat, began: nat, limits: Limits, p: Plan, sent: seq<bytes>, a: Act)
    requires OnPlan(s, begin, beginSeq, began, limits, p, sent) && a.Finish? && Follow(limits, began, p, a).Some?
    ensures OnPlan(Apply(s, OpOf(begin, beginSeq, sent, a)), begin, beginSeq, began, limits,
                   Follow(limits, began, p, a).value, sent)
  {
    hide Inv, OfferTerminal, Crc32, PcmOf, Samples, Concat;
    var n := (beginSeq + |sent| + 1) % 0x10000;
    var f := OpOf(begin, beginSeq, sent, a).t;
    BitsOfValue(Crc32(Concat(sent), ZERO));
    EndExactly(s, f, n, a.now);
    TerminalKeeps(s, f, false, n, a.now);
    SameStream(s, f, n, a.now);
  }

  lemma SameStream(s: Stream, f: Codec.Terminal, seqNo: nat, now: nat)
    ensures var t := OfferTerminal(s, f, false, seqNo, now);
      t.begin == s.begin && t.beginSeq == s.beginSeq && t.beganNs == s.beganNs && t.limits == s.limits
  {
  }

  lemma ReadOnPlan(s: Stream, begin: Codec.Begin, beginSeq: nat, began: nat, limits: Limits, p: Plan, sent: seq<bytes>, a: Act)
    requires OnPlan(s, begin, beginSeq, began, limits, p, sent) && a.Read? && Follow(limits, began, p, a).Some?
    ensures OnPlan(Apply(s, Consume(a.now)), begin, beginSeq, began, limits, Follow(limits, began, p, a).value, sent)
  {
    hide Inv, PcmOf, Samples, Concat, Crc32;
    if s.terminal.None? {
      ExpiresExactly(s, a.now);
    }
    NextItemKeeps(s, a.now);
    if s.chunks != [] {
      Rejoin(s.delivered, s.chunks);
      assert Sizes(s.chunks[1..]) == Sizes(s.chunks)[1..];
    }
  }

  lemma ActOnPlan(s: Stream, begin: Codec.Begin, beginSeq: nat, began: nat, limits: Limits, p: Plan, sent: seq<bytes>, a: Act)
    requires OnPlan(s, begin, beginSeq, began, limits, p, sent) && Follow(limits, began, p, a).Some?
    ensures OnPlan(Apply(s, OpOf(begin, beginSeq, sent, a)), begin, beginSeq, began, limits,
                   Follow(limits, began, p, a).value, sent + if a.Send? then [a.pcm] else [])
  {
    hide OnPlan, Follow, Apply;
    assert sent + [] == sent;
    match a
    case Send(_, _) => SendOnPlan(s, begin, beginSeq, began, limits, p, sent, a);
    case Finish(_) => FinishOnPlan(s, begin, beginSeq, began, limits, p, sent, a);
    case Read(_) => ReadOnPlan(s, begin, beginSeq, began, limits, p, sent, a);
  }

  lemma {:induction false} RunOnPlan(begin: Codec.Begin, beginSeq: nat, began: nat, limits: Limits, acts: seq<Act>)
    requires beginSeq < 0x10000 && Smooth(limits, began, acts).Some?
    ensures OnPlan(Run(Open(begin, beginSeq, began, limits), begin, beginSeq, acts), begin, beginSeq, began, limits,
                   Smooth(limits, began, acts).value, AllSent(acts))
    decreases |acts|
  {
    hide OnPlan, Apply, Follow;
    if acts == [] {
      OpenOnPlan(begin, beginSeq, began, limits);
    } else {
      var before := acts[..|acts| - 1];
      RunOnPlan(begin, beginSeq, began, limits, before);
      ActOnPlan(Run(Open(begin, beginSeq, began, limits), begin, beginSeq, before), begin, beginSeq, began, limits,
                Smooth(limits, began, before).value, AllSent(before), acts[|acts| - 1]);
    }
  }

  lemma OpenOnPlan(begin: Codec.Begin, beginSeq: nat, began: nat, limits: Limits)
    requires beginSeq < 0x10000
    ensures OnPlan(Open(begin, beginSeq, began, limits), begin, beginSeq, began, limits, Plan([], None, false), [])
  {
    OpenOk(begin, beginSeq, began, limits);
  }

  // A faithful sender whose consumer keeps up loses nothing: what was delivered and what
  // waits is everything sent, in order; once the END is in, what has not been read yet
  // waits behind no failure, and when it has been read the consumer is told a valid END.
  lemma FaithfulStreamArrives(begin: Codec.Begin, beginSeq: nat, began: nat, limits: Limits, acts: seq<Act>, now: nat)
    requires beginSeq < 0x10000 && Smooth(limits, began, acts).Some?
    ensures var s, p := Run(Open(begin, beginSeq, began, limits), begin, beginSeq, acts), Smooth(limits, began, acts).value;
      && PcmOf(s.delivered) + PcmOf(s.chunks) == Concat(AllSent(acts)) && |s.chunks| == |p.sizes|
      && (s.terminal.Some? <==> p.done)
      && (p.done && p.sizes != [] ==> NextItem(s, now).1 == Take(s.chunks[0]))
      && (p.done && p.sizes == [] ==>
            PcmOf(s.delivered) == Concat(AllSent(acts))
            && NextItem(s, now) == (s, Ended(Terminal(End, true, Code(0), |Concat(AllSent(acts))| / 2,
                                                      Crc32(Concat(AllSent(acts)), ZERO), 0))))
  {
    RunOnPlan(begin, beginSeq, began, limits, acts);
    var s := Run(Open(begin, beginSeq, began, limits), begin, beginSeq, acts);
    hide Inv, Run, Smooth, AllSent, Crc32;
    SumsAppend(s.delivered, s.chunks);
    if s.chunks == [] {
      assert s.delivered + [] == s.delivered;
    }
  }

  // Done exactly when the END was sent.
  lemma {:induction false} DoneWhenFinished(limits: Limits, began: nat, acts: seq<Act>)
    requires Smooth(limits, began, acts).Some?
    ensures Smooth(limits, began, acts).value.done <==> exists i :: 0 <= i < |acts| && acts[i].Finish?
    decreases |acts|
  {
    if acts != [] {
      var before := acts[..|acts| - 1];
      DoneWhenFinished(limits, began, before);
      if exists i :: 0 <= i < |acts| && acts[i].Finish? {
        var i :| 0 <= i < |acts| && acts[i].Finish?;
        assert i < |before| ==> before[i].Finish?;
      }
    }
  }
}
