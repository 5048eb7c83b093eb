// One live PCM stream: a bounded FIFO between the reader thread and one consumer,
// fenced by identity, wire sequence, sample offset and CRC, with a terminal that
// is set once.  Every function is one critical section of the stream's lock.

module LiveStream {
  import opened Bytes
  import opened Checksum32
  import Codec = LiveCodec

  datatype Chunk = Chunk(wireSeq: nat, offset: nat, count: nat, pcm: bytes)

  datatype Kind = End | Abort | Invalid

  datatype Reason = Code(code: nat) | Why(text: string)

  datatype Terminal = Terminal(kind: Kind, valid: bool, reason: Reason, total: nat, crc: Word, dropped: nat)

  datatype Limits = Limits(maxBytes: nat, maxFrames: nat, firstNs: nat, gapNs: nat, totalNs: nat)

  datatype Stream = Stream(
    begin: Codec.Begin, beganNs: nat, limits: Limits,
    chunks: seq<Chunk>, queuedBytes: nat, queuedSamples: nat,
    expected: nat, crc: Word, firstNs: Option<nat>, lastNs: nat, beginSeq: nat, lastSeq: nat,
    terminal: Option<Terminal>,
    // History: what the host took in, what the consumer took out, and the samples
    // reported lost with the frame that ended the stream.
    accepted: seq<Chunk>, delivered: seq<Chunk>, reported: nat)

  function Open(begin: Codec.Begin, seqNo: nat, now: nat, limits: Limits): Stream {
    Stream(begin, now, limits, [], 0, 0, 0, ZERO, None, now, seqNo, seqNo, None, [], [], 0)
  }

  // ---- critical sections ----------------------------------------------------------------

  function Invalidate(s: Stream, why: string, dropped: nat): Stream {
    if s.terminal.Some? then s
    else s.(chunks := [], queuedBytes := 0, queuedSamples := 0, reported := dropped,
            terminal := Some(Terminal(Invalid, false, Why(why), s.expected, s.crc, dropped + s.queuedSamples)))
  }

  predicate SameIdentity(s: Stream, exchange: nat, controller: nat, flags: nat) {
    exchange == s.begin.exchange && controller == s.begin.controller && flags == s.begin.flags
  }

  predicate NextSeq(s: Stream, seqNo: nat) {
    seqNo == (s.lastSeq + 1) % 0x10000
  }

  function OfferPcm(s: Stream, f: Codec.Pcm, seqNo: nat, now: nat): Stream {
    if s.terminal.Some? then s
    else if !SameIdentity(s, f.exchange, f.controller, f.flags) then Invalidate(s, "identity", 0)
    else if !NextSeq(s, seqNo) then Invalidate(s, "wire_seq", 0)
    else if f.offset != s.expected then Invalidate(s, "sample_offset", 0)
    else if s.queuedBytes + |f.pcm| > s.limits.maxBytes || |s.chunks| + 1 > s.limits.maxFrames then
      Invalidate(s, "pcm_queue_overflow", f.count)
    else Accept(s, Chunk(seqNo, f.offset, f.count, f.pcm), now)
  }

  function Accept(s: Stream, chunk: Chunk, now: nat): Stream {
    s.(chunks := s.chunks + [chunk], queuedBytes := s.queuedBytes + |chunk.pcm|,
       queuedSamples := s.queuedSamples + chunk.count, expected := s.expected + chunk.count,
       crc := Crc32(chunk.pcm, s.crc), firstNs := if s.firstNs.None? then Some(now) else s.firstNs,
       lastNs := now, lastSeq := chunk.wireSeq, accepted := s.accepted + [chunk])
  }

  function OfferTerminal(s: Stream, f: Codec.Terminal, isAbort: bool, seqNo: nat, now: nat): Stream {
    if s.terminal.Some? then s
    else if !SameIdentity(s, f.exchange, f.controller, s.begin.flags) then Invalidate(s, "identity", 0)
    else if !NextSeq(s, seqNo) then Invalidate(s, "wire_seq", 0)
    else
      var s1 := s.(lastNs := now, lastSeq := seqNo);
      if isAbort then
        if !(1 <= f.reason <= 7) then Invalidate(s1, "abort_reason", f.dropped)
        else if f.total != s.expected then Invalidate(s1, "abort_total", f.dropped)
        else if WordOf(f.crc) != s.crc then Invalidate(s1, "abort_crc32", f.dropped)
        else
          s1.(chunks := [], queuedBytes := 0, queuedSamples := 0, reported := f.dropped,
              terminal := Some(Terminal(Abort, false, Code(f.reason), f.total, s.crc, f.dropped + s.queuedSamples)))
      else if f.reason != 0 then Invalidate(s1, "end_reason", f.dropped)
      else if f.total != s.expected then Invalidate(s1, "end_total", f.dropped)
      else if WordOf(f.crc) != s.crc then Invalidate(s1, "end_crc32", f.dropped)
      else if f.dropped != 0 then Invalidate(s1, "end_dropped_samples", f.dropped)
      else s1.(terminal := Some(Terminal(End, true, Code(f.reason), f.total, s.crc, 0)))
  }

  function AbsoluteDeadline(s: Stream): nat {
    s.beganNs + s.limits.totalNs
  }

  function FrameDeadline(s: Stream): nat {
    if s.firstNs.None? then s.beganNs + s.limits.firstNs else s.lastNs + s.limits.gapNs
  }

  function Expire(s: Stream, now: nat): Stream {
    if s.terminal.Some? then s
    else if now >= AbsoluteDeadline(s) then Invalidate(s, "absolute_timeout", 0)
    else if now >= FrameDeadline(s) then
      Invalidate(s, if s.firstNs.None? then "first_pcm_timeout" else "interframe_timeout", 0)
    else s
  }

  // One turn of next_item's loop; Wait means it goes on waiting.
  datatype Item = Take(chunk: Chunk) | Ended(terminal: Terminal) | Wait

  function NextItem(s: Stream, now: nat): (Stream, Item) {
    var s1 := Expire(s, now);
    if s1.chunks != [] then
      var c := s1.chunks[0];
      (s1.(chunks := s1.chunks[1..],
           queuedBytes := if s1.queuedBytes < |c.pcm| then 0 else s1.queuedBytes - |c.pcm|,
           queuedSamples := if s1.queuedSamples < c.count then 0 else s1.queuedSamples - c.count,
           delivered := s1.delivered + [c]), Take(c))
    else if s1.terminal.Some? then (s1, Ended(s1.terminal.value))
    else (s1, Wait)
  }

  datatype Op =
    | PcmFrame(f: Codec.Pcm, seqNo: nat, now: nat)
    | TerminalFrame(t: Codec.Terminal, isAbort: bool, seqNo: nat, now: nat)
    | InvalidateOp(why: string, dropped: nat)
    | Consume(now: nat)
    | WaitTerminal(now: nat)

  // A PCM frame reaches the stream only through the strict parser.
  predicate Parsed(op: Op) {
    op.PcmFrame? ==> Codec.ValidPcm(op.f)
  }

  function Apply(s: Stream, op: Op): Stream {
    match op
    case PcmFrame(f, n, now) => OfferPcm(s, f, n, now)
    case TerminalFrame(t, isAbort, n, now) => OfferTerminal(s, t, isAbort, n, now)
    case InvalidateOp(why, dropped) => Invalidate(s, why, dropped)
    case Consume(now) => NextItem(s, now).0
    case WaitTerminal(now) => Expire(s, now)
  }

  // ---- what the stream keeps ---------------------------------------------------------------

  function Samples(cs: seq<Chunk>): nat {
    if cs == [] then 0 else Samples(cs[..|cs| - 1]) + cs[|cs| - 1].count
  }

  function PcmOf(cs: seq<Chunk>): bytes {
    if cs == [] then [] else PcmOf(cs[..|cs| - 1]) + cs[|cs| - 1].pcm
  }

  lemma {:induction false} SumsAppend(a: seq<Chunk>, b: seq<Chunk>)
    ensures Samples(a + b) == Samples(a) + Samples(b) && PcmOf(a + b) == PcmOf(a) + PcmOf(b)
    decreases |b|
  {
    if b == [] {
      assert a + b == a;
    } else {
      SumsAppend(a, b[..|b| - 1]);
      var last := b[|b| - 1];
      assert (a + b)[..|a + b| - 1] == a + b[..|b| - 1] && (a + b)[|a + b| - 1] == last;
      assert PcmOf(a) + PcmOf(b[..|b| - 1]) + last.pcm == PcmOf(a) + (PcmOf(b[..|b| - 1]) + last.pcm);
    }
  }

  // Accepted chunks are gapless in offset and in wire sequence.
  ghost predicate Placed(beginSeq: nat, accepted: seq<Chunk>, i: nat)
    requires i < |accepted|
  {
    && accepted[i].offset == Samples(accepted[..i])
    && accepted[i].wireSeq == (beginSeq + i + 1) % 0x10000
    && |accepted[i].pcm| == 2 * accepted[i].count
  }

  ghost predicate Gapless(beginSeq: nat, accepted: seq<Chunk>) {
    forall i :: 0 <= i < |accepted| ==> Placed(beginSeq, accepted, i)
  }

  ghost predicate Queue(limits: Limits, chunks: seq<Chunk>, queuedBytes: nat, queuedSamples: nat) {
    && queuedBytes == |PcmOf(chunks)| <= limits.maxBytes
    && queuedSamples == Samples(chunks)
    && |chunks| <= limits.maxFrames
  }

  ghost predicate Totals(accepted: seq<Chunk>, expected: nat, crc: Word) {
    expected == Samples(accepted) && crc == Crc32(PcmOf(accepted), ZERO)
  }

  ghost predicate Flow(terminal: Option<Terminal>, accepted: seq<Chunk>, delivered: seq<Chunk>, chunks: seq<Chunk>,
                       reported: nat, expected: nat, crc: Word) {
    match terminal
    case None => delivered + chunks == accepted
    case Some(t) =>
      && t.total == expected && t.crc == crc
      && t.valid == t.kind.End?
      && if t.kind.End? then t.dropped == 0 && delivered + chunks == accepted
         else chunks == [] && delivered <= accepted
              && t.dropped == reported + (Samples(accepted) - Samples(delivered))
  }

  ghost predicate Inv(s: Stream) {
    && Gapless(s.beginSeq, s.accepted)
    && Queue(s.limits, s.chunks, s.queuedBytes, s.queuedSamples)
    && Totals(s.accepted, s.expected, s.crc)
    && Flow(s.terminal, s.accepted, s.delivered, s.chunks, s.reported, s.expected, s.crc)
    && (s.terminal.None? ==> s.lastSeq == (s.beginSeq + |s.accepted|) % 0x10000)
  }

  // The invariant of an open stream, its last wire sequence aside.
  ghost predicate Running(s: Stream) {
    && s.terminal.None?
    && Gapless(s.beginSeq, s.accepted)
    && Queue(s.limits, s.chunks, s.queuedBytes, s.queuedSamples)
    && Totals(s.accepted, s.expected, s.crc)
    && s.delivered + s.chunks == s.accepted
  }

  lemma DiscardFlow(s: Stream, extra: nat)
    requires Running(s)
    ensures s.delivered <= s.accepted
    ensures s.queuedSamples == Samples(s.accepted) - Samples(s.delivered)
    ensures Queue(s.limits, [], 0, 0)
  {
    SumsAppend(s.delivered, s.chunks);
  }

  lemma InvalidateKeeps(s: Stream, why: string, dropped: nat)
    requires Running(s) || (s.terminal.Some? && Inv(s))
    ensures Inv(Invalidate(s, why, dropped))
  {
    if s.terminal.None? { DiscardFlow(s, dropped); }
  }

  lemma GaplessSnoc(beginSeq: nat, accepted: seq<Chunk>, chunk: Chunk)
    requires Gapless(beginSeq, accepted)
    requires chunk.offset == Samples(accepted) && chunk.wireSeq == (beginSeq + |accepted| + 1) % 0x10000
    requires |chunk.pcm| == 2 * chunk.count
    ensures Gapless(beginSeq, accepted + [chunk])
  {
    var all := accepted + [chunk];
    forall i | 0 <= i < |all|
      ensures Placed(beginSeq, all, i)
    {
      if i < |accepted| {
        assert Placed(beginSeq, accepted, i);
        assert all[..i] == accepted[..i];
      } else {
        assert all[..i] == accepted;
      }
    }
  }

  lemma SumsSnoc(cs: seq<Chunk>, c: Chunk)
    ensures Samples(cs + [c]) == Samples(cs) + c.count && PcmOf(cs + [c]) == PcmOf(cs) + c.pcm
  {
    assert (cs + [c])[..|cs|] == cs;
  }

  lemma TotalsSnoc(accepted: seq<Chunk>, expected: nat, crc: Word, chunk: Chunk)
    requires Totals(accepted, expected, crc)
    ensures Totals(accepted + [chunk], expected + chunk.count, Crc32(chunk.pcm, crc))
  {
    SumsSnoc(accepted, chunk);
    Streaming(PcmOf(accepted), chunk.pcm, ZERO);
  }

  lemma QueueSnoc(limits: Limits, chunks: seq<Chunk>, queuedBytes: nat, queuedSamples: nat, chunk: Chunk)
    requires Queue(limits, chunks, queuedBytes, queuedSamples)
    requires queuedBytes + |chunk.pcm| <= limits.maxBytes && |chunks| + 1 <= limits.maxFrames
    ensures Queue(limits, chunks + [chunk], queuedBytes + |chunk.pcm|, queuedSamples + chunk.count)
  {
    SumsSnoc(chunks, chunk);
  }

  lemma Successor(n: nat)
    ensures (n % 0x10000 + 1) % 0x10000 == (n + 1) % 0x10000
  {
  }

  lemma AcceptKeeps(s: Stream, chunk: Chunk, now: nat)
    requires Running(s) && |chunk.pcm| == 2 * chunk.count && chunk.offset == s.expected
    requires chunk.wireSeq == (s.beginSeq + |s.accepted| + 1) % 0x10000
    requires s.queuedBytes + |chunk.pcm| <= s.limits.maxBytes && |s.chunks| + 1 <= s.limits.maxFrames
    ensures Running(Accept(s, chunk, now))
  {
    GaplessSnoc(s.beginSeq, s.accepted, chunk);
    QueueSnoc(s.limits, s.chunks, s.queuedBytes, s.queuedSamples, chunk);
    TotalsSnoc(s.accepted, s.expected, s.crc, chunk);
    Regroup(s.delivered, s.chunks, [chunk]);
  }

  lemma PcmKeeps(s: Stream, f: Codec.Pcm, seqNo: nat, now: nat)
    requires Inv(s) && |f.pcm| == 2 * f.count
    ensures Inv(OfferPcm(s, f, seqNo, now))
  {
    if s.terminal.Some? {
    } else if !SameIdentity(s, f.exchange, f.controller, f.flags) { InvalidateKeeps(s, "identity", 0); }
    else if !NextSeq(s, seqNo) { InvalidateKeeps(s, "wire_seq", 0); }
    else if f.offset != s.expected { InvalidateKeeps(s, "sample_offset", 0); }
    else if s.queuedBytes + |f.pcm| > s.limits.maxBytes || |s.chunks| + 1 > s.limits.maxFrames {
      InvalidateKeeps(s, "pcm_queue_overflow", f.count);
    } else {
      Successor(s.beginSeq + |s.accepted|);
      AcceptKeeps(s, Chunk(seqNo, f.offset, f.count, f.pcm), now);
    }
  }

  lemma TerminalKeeps(s: Stream, f: Codec.Terminal, isAbort: bool, seqNo: nat, now: nat)
    requires Inv(s)
    ensures Inv(OfferTerminal(s, f, isAbort, seqNo, now))
  {
    if s.terminal.Some? {
    } else if !SameIdentity(s, f.exchange, f.controller, s.begin.flags) { InvalidateKeeps(s, "identity", 0); }
    else if !NextSeq(s, seqNo) { InvalidateKeeps(s, "wire_seq", 0); }
    else {
      var s1 := s.(lastNs := now, lastSeq := seqNo);
      var why := if isAbort then (if !(1 <= f.reason <= 7) then "abort_reason" else if f.total != s.expected then "abort_total"
                                  else "abort_crc32")
                 else if f.reason != 0 then "end_reason" else if f.total != s.expected then "end_total"
                 else if WordOf(f.crc) != s.crc then "end_crc32" else "end_dropped_samples";
      InvalidateKeeps(s1, why, f.dropped);
      DiscardFlow(s1, f.dropped);
    }
  }

  lemma ExpireKeeps(s: Stream, now: nat)
    requires Inv(s)
    ensures Inv(Expire(s, now))
  {
    InvalidateKeeps(s, "absolute_timeout", 0);
    InvalidateKeeps(s, if s.firstNs.None? then "first_pcm_timeout" else "interframe_timeout", 0);
  }

  lemma HeadSums(cs: seq<Chunk>)
    requires cs != []
    ensures Samples(cs) == cs[0].count + Samples(cs[1..]) && PcmOf(cs) == cs[0].pcm + PcmOf(cs[1..])
  {
    assert cs == [cs[0]] + cs[1..];
    SumsAppend([cs[0]], cs[1..]);
    SumsSnoc([], cs[0]);
    assert [] + [cs[0]] == [cs[0]];
  }

  lemma QueueTail(limits: Limits, chunks: seq<Chunk>, queuedBytes: nat, queuedSamples: nat)
    requires chunks != [] && Queue(limits, chunks, queuedBytes, queuedSamples)
    ensures queuedBytes >= |chunks[0].pcm| && queuedSamples >= chunks[0].count
    ensures Queue(limits, chunks[1..], queuedBytes - |chunks[0].pcm|, queuedSamples - chunks[0].count)
  {
    HeadSums(chunks);
  }

  lemma FlowTail(s: Stream)
    requires Inv(s) && s.chunks != []
    ensures Flow(s.terminal, s.accepted, s.delivered + [s.chunks[0]], s.chunks[1..], s.reported, s.expected, s.crc)
  {
    Rejoin(s.delivered, s.chunks);
  }

  lemma NextItemKeeps(s: Stream, now: nat)
    requires Inv(s)
    ensures Inv(NextItem(s, now).0)
  {
    ExpireKeeps(s, now);
    var s1 := Expire(s, now);
    if s1.chunks != [] {
      QueueTail(s1.limits, s1.chunks, s1.queuedBytes, s1.queuedSamples);
      FlowTail(s1);
    }
  }

  lemma ApplyKeeps(s: Stream, op: Op)
    requires Inv(s) && Parsed(op)
    ensures Inv(Apply(s, op))
  {
    match op
    case PcmFrame(f, n, now) => PcmKeeps(s, f, n, now);
    case TerminalFrame(t, isAbort, n, now) => TerminalKeeps(s, t, isAbort, n, now);
    case InvalidateOp(why, dropped) => InvalidateKeeps(s, why, dropped);
    case Consume(now) => NextItemKeeps(s, now);
    case WaitTerminal(now) => ExpireKeeps(s, now);
  }

  // Every interleaving of producer and consumer.
  lemma {:induction false} EveryRun(s: Stream, ops: seq<Op>)
    requires Inv(s) && forall i :: 0 <= i < |ops| ==> Parsed(ops[i])
    ensures Inv(Fold(Apply, s, ops))
    decreases ops
  {
    if ops != [] {
      ApplyKeeps(s, ops[0]);
      EveryRun(Apply(s, ops[0]), ops[1..]);
    }
  }

  lemma OpenOk(begin: Codec.Begin, seqNo: nat, now: nat, limits: Limits)
    requires seqNo < 0x10000
    ensures Inv(Open(begin, seqNo, now, limits))
  {
    var s := Open(begin, seqNo, now, limits);
  }

  // What the consumer has is a contiguous prefix of what the host accepted, and
  // the running CRC is that of everything accepted.
  lemma DeliveredIsPrefix(begin: Codec.Begin, seqNo: nat, now: nat, limits: Limits, ops: seq<Op>)
    requires seqNo < 0x10000 && forall i :: 0 <= i < |ops| ==> Parsed(ops[i])
    ensures var s := Fold(Apply, Open(begin, seqNo, now, limits), ops);
      && s.delivered <= s.accepted && PcmOf(s.delivered) <= PcmOf(s.accepted)
      && s.crc == Crc32(PcmOf(s.accepted), ZERO) && s.expected == Samples(s.accepted)
      && Gapless(s.beginSeq, s.accepted) && |PcmOf(s.chunks)| <= limits.maxBytes && |s.chunks| <= limits.maxFrames
  {
    OpenOk(begin, seqNo, now, limits);
    EveryRun(Open(begin, seqNo, now, limits), ops);
    LimitsFixed(Open(begin, seqNo, now, limits), ops);
    PrefixOf(Fold(Apply, Open(begin, seqNo, now, limits), ops));
  }

  lemma PrefixOf(s: Stream)
    requires Inv(s)
    ensures s.delivered <= s.accepted && PcmOf(s.delivered) <= PcmOf(s.accepted)
  {
    SumsAppend(s.delivered, s.accepted[|s.delivered|..]);
    assert s.accepted == s.delivered + s.accepted[|s.delivered|..];
  }

  lemma {:induction false} LimitsFixed(s: Stream, ops: seq<Op>)
    ensures Fold(Apply, s, ops).limits == s.limits
    decreases ops
  {
    if ops != [] { LimitsFixed(Apply(s, ops[0]), ops[1..]); }
  }

  // A consumer that reaches a valid END holds exactly the declared samples, with
  // the declared CRC and nothing dropped.
  lemma ValidEndIsComplete(s: Stream, now: nat)
    requires Inv(s) && NextItem(s, now).1.Ended? && NextItem(s, now).1.terminal.valid
    ensures var (s1, item) := NextItem(s, now);
      && s1.delivered == s1.accepted
      && |PcmOf(s1.delivered)| == 2 * item.terminal.total
      && Crc32(PcmOf(s1.delivered), ZERO) == item.terminal.crc && item.terminal.dropped == 0
  {
    NextItemKeeps(s, now);
    var s1 := NextItem(s, now).0;
    assert s1.delivered + [] == s1.delivered;
    BytesAreSamples(s1, |s1.accepted|);
    assert s1.accepted[..|s1.accepted|] == s1.accepted;
  }

  lemma {:induction false} BytesAreSamples(s: Stream, n: nat)
    requires Gapless(s.beginSeq, s.accepted) && n <= |s.accepted|
    ensures |PcmOf(s.accepted[..n])| == 2 * Samples(s.accepted[..n])
    decreases n
  {
    if n > 0 {
      BytesAreSamples(s, n - 1);
      assert s.accepted[..n][..n - 1] == s.accepted[..n - 1];
      assert Placed(s.beginSeq, s.accepted, n - 1);
    }
  }

  // After an abort or an invalidation nothing more is delivered, and the samples
  // the terminal reports dropped are exactly those accepted but not delivered plus
  // those reported lost with the last frame.
  lemma FailureAccounts(s: Stream, now: nat)
    requires Inv(s) && s.terminal.Some? && !s.terminal.value.valid
    ensures NextItem(s, now) == (s, Ended(s.terminal.value))
    ensures Samples(s.delivered) + s.terminal.value.dropped == Samples(s.accepted) + s.reported
  {
  }

  // The terminal, once set, is what every later operation sees.
  lemma {:induction false} TerminalIsDurable(s: Stream, ops: seq<Op>)
    requires s.terminal.Some?
    ensures var t := Fold(Apply, s, ops);
      t.terminal == s.terminal && t.accepted == s.accepted && t.crc == s.crc && t.expected == s.expected
    decreases ops
  {
    if ops != [] { TerminalIsDurable(Apply(s, ops[0]), ops[1..]); }
  }

  // The consumer never waits past a deadline, and never sees a terminal while
  // chunks of the stream are still queued.
  lemma NoWaitPastDeadline(s: Stream, now: nat)
    requires Inv(s)
    ensures NextItem(s, now).1.Wait? <==>
      s.terminal.None? && s.chunks == [] && now < AbsoluteDeadline(s) && now < FrameDeadline(s)
    ensures NextItem(s, now).1.Ended? ==> NextItem(s, now).0.chunks == []
  {
  }

  // ---- the object ----------------------------------------------------------------------------

  class LivePcmStream {
    const begin: Codec.Begin
    const beginSeq: nat
    const beganNs: nat
    const limits: Limits
    var chunks: seq<Chunk>
    var queuedBytes: nat
    var queuedSamples: nat
    var expectedOffset: nat
    var pcmCrc32: Word
    var firstPcmNs: Option<nat>
    var lastFrameNs: nat
    var lastWireSeq: nat
    var terminal: Option<Terminal>
    ghost var accepted: seq<Chunk>
    ghost var delivered: seq<Chunk>
    ghost var reported: nat

    ghost function View(): Stream
      reads this
    {
      Stream(begin, beganNs, limits, chunks, queuedBytes, queuedSamples, expectedOffset, pcmCrc32, firstPcmNs,
             lastFrameNs, beginSeq, lastWireSeq, terminal, accepted, delivered, reported)
    }

    constructor (begin: Codec.Begin, seqNo: nat, now: nat, limits: Limits)
      ensures View() == Open(begin, seqNo, now, limits) && fresh(this)
      ensures this.begin == begin
    {
      this.begin, beginSeq, beganNs, this.limits := begin, seqNo, now, limits;
      chunks, queuedBytes, queuedSamples, expectedOffset, pcmCrc32 := [], 0, 0, 0, ZERO;
      firstPcmNs, lastFrameNs, lastWireSeq, terminal := None, now, seqNo, None;
      accepted, delivered, reported := [], [], 0;
    }

    method ClearChunks()
      modifies this`chunks, this`queuedBytes, this`queuedSamples
      ensures chunks == [] && queuedBytes == 0 && queuedSamples == 0
    {
      chunks, queuedBytes, queuedSamples := [], 0, 0;
    }

    method InvalidateStream(why: string, dropped: nat)
      modifies this
      ensures View() == Invalidate(old(View()), why, dropped)
    {
      if terminal.Some? {
        return;
      }
      var lost := dropped + queuedSamples;
      ClearChunks();
      reported := dropped;
      terminal := Some(Terminal(Invalid, false, Why(why), expectedOffset, pcmCrc32, lost));
    }

    method OfferPcmFrame(f: Codec.Pcm, seqNo: nat, now: nat)
      modifies this
      ensures View() == OfferPcm(old(View()), f, seqNo, now)
    {
      if terminal.Some? {
        return;
      }
      if f.exchange != begin.exchange || f.controller != begin.controller || f.flags != begin.flags {
        InvalidateStream("identity", 0);
        return;
      }
      if seqNo != (lastWireSeq + 1) % 0x10000 {
        InvalidateStream("wire_seq", 0);
        return;
      }
      if f.offset != expectedOffset {
        InvalidateStream("sample_offset", 0);
        return;
      }
      if queuedBytes + |f.pcm| > limits.maxBytes || |chunks| + 1 > limits.maxFrames {
        InvalidateStream("pcm_queue_overflow", f.count);
        return;
      }
      AcceptChunk(Chunk(seqNo, f.offset, f.count, f.pcm), now);
    }

    method AcceptChunk(chunk: Chunk, now: nat)
      modifies this
      ensures View() == Accept(old(View()), chunk, now)
    {
      chunks := chunks + [chunk];
      queuedBytes := queuedBytes + |chunk.pcm|;
      queuedSamples := queuedSamples + chunk.count;
      expectedOffset := expectedOffset + chunk.count;
      pcmCrc32 := Crc32(chunk.pcm, pcmCrc32);
      if firstPcmNs.None? {
        firstPcmNs := Some(now);
      }
      lastFrameNs := now;
      lastWireSeq := chunk.wireSeq;
      accepted := accepted + [chunk];
    }

    method OfferTerminalFrame(f: Codec.Terminal, isAbort: bool, seqNo: nat, now: nat)
      modifies this
      ensures View() == OfferTerminal(old(View()), f, isAbort, seqNo, now)
    {
      if terminal.Some? {
        return;
      }
      if f.exchange != begin.exchange || f.controller != begin.controller {
        InvalidateStream("identity", 0);
        return;
      }
      if seqNo != (lastWireSeq + 1) % 0x10000 {
        InvalidateStream("wire_seq", 0);
        return;
      }
      lastFrameNs, lastWireSeq := now, seqNo;
      if isAbort {
        if !(1 <= f.reason <= 7) {
          InvalidateStream("abort_reason", f.dropped);
        } else if f.total != expectedOffset {
          InvalidateStream("abort_total", f.dropped);
        } else if WordOf(f.crc) != pcmCrc32 {
          InvalidateStream("abort_crc32", f.dropped);
        } else {
          var hostQueued := queuedSamples;
          ClearChunks();
          reported := f.dropped;
          terminal := Some(Terminal(Abort, false, Code(f.reason), f.total, pcmCrc32, f.dropped + hostQueued));
        }
        return;
      }
      if f.reason != 0 {
        InvalidateStream("end_reason", f.dropped);
      } else if f.total != expectedOffset {
        InvalidateStream("end_total", f.dropped);
      } else if WordOf(f.crc) != pcmCrc32 {
        InvalidateStream("end_crc32", f.dropped);
      } else if f.dropped != 0 {
        InvalidateStream("end_dropped_samples", f.dropped);
      } else {
        terminal := Some(Terminal(End, true, Code(f.reason), f.total, pcmCrc32, 0));
      }
    }

    method ExpireStream(now: nat)
      modifies this
      ensures View() == Expire(old(View()), now)
    {
      if terminal.Some? {
        return;
      }
      if now >= beganNs + limits.totalNs {
        InvalidateStream("absolute_timeout", 0);
      } else if firstPcmNs.None? && now >= beganNs + limits.firstNs {
        InvalidateStream("first_pcm_timeout", 0);
      } else if firstPcmNs.Some? && now >= lastFrameNs + limits.gapNs {
        InvalidateStream("interframe_timeout", 0);
      }
    }

    // One turn of next_item's loop.
    method TryNextItem(now: nat) returns (item: Item)
      requires Inv(View())
      modifies this
      ensures (View(), item) == NextItem(old(View()), now)
    {
      ExpireKeeps(View(), now);
      ExpireStream(now);
      if chunks != [] {
        var chunk := PopChunk();
        item := Take(chunk);
      } else if terminal.Some? {
        item := Ended(terminal.value);
      } else {
        item := Wait;
      }
    }

    method PopChunk() returns (chunk: Chunk)
      requires chunks != [] && Queue(limits, chunks, queuedBytes, queuedSamples)
      modifies this`chunks, this`queuedBytes, this`queuedSamples, this`delivered
      ensures chunk == old(chunks)[0] && chunks == old(chunks)[1..] && delivered == old(delivered) + [chunk]
      ensures queuedBytes == old(queuedBytes) - |chunk.pcm| && queuedSamples == old(queuedSamples) - chunk.count
    {
      QueueTail(limits, chunks, queuedBytes, queuedSamples);
      chunk := chunks[0];
      chunks := chunks[1..];
      queuedBytes := queuedBytes - |chunk.pcm|;
      queuedSamples := queuedSamples - chunk.count;
      delivered := delivered + [chunk];
    }
  }
}
