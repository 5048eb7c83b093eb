// The reader thread's byte machine: newline-terminated text and 0x00-delimited
// COBS frames share one stream.

module Transport {
  import opened Bytes
  import Cobs
  import Frame

  const NUL: byte := 0x00
  const LF: byte := 0x0A
  const CR: byte := 0x0D
  const MAX_RX_LINE: nat := 8192

  // Garbage is one counted incident; how many of them are also announced to the
  // session is rate-limited by a clock and not modelled here.
  datatype Event = Line(raw: bytes) | FrameBody(body: bytes) | Garbage

  datatype Rx = Rx(line: bytes, frame: bytes, inFrame: bool)

  const CLEAN := Rx([], [], false)

  // isText stands for "decodes as UTF-8 and is at least 80% printable".
  type TextTest = bytes -> bool

  function StripCR(raw: bytes): bytes {
    if raw != [] && raw[|raw| - 1] == CR then StripCR(raw[..|raw| - 1]) else raw
  }

  function Dispatch(isText: TextTest, raw: bytes): seq<Event> {
    if raw == [] then [] else if isText(raw) then [Line(raw)] else [Garbage]
  }

  function FinishFrame(encoded: bytes): seq<Event> {
    if encoded == [] then []
    else
      var body := Cobs.Decode(encoded);
      if body.Err? || Frame.Parse(body.value).Err? then [Garbage] else [FrameBody(body.value)]
  }

  // One received byte: the next state and the events it produces.
  function OnByte(isText: TextTest, s: Rx, b: byte): (Rx, seq<Event>) {
    if b == NUL then
      if s.inFrame then (s.(frame := [], inFrame := false), FinishFrame(s.frame))
      else (Rx([], s.frame, true), if s.line == [] then [] else Dispatch(isText, StripCR(s.line)))
    else if s.inFrame then
      if |s.frame| + 1 > Frame.MAX_FRAME_WIRE then (s.(frame := [], inFrame := false), [Garbage])
      else (s.(frame := s.frame + [b]), [])
    else if b == LF then (s.(line := []), Dispatch(isText, StripCR(s.line)))
    else if |s.line| + 1 > MAX_RX_LINE then (s.(line := []), [Garbage])
    else (s.(line := s.line + [b]), [])
  }

  // An empty read: 50 ms of silence.
  function OnIdle(s: Rx): (Rx, seq<Event>) {
    if s.inFrame then (s.(frame := [], inFrame := false), [Garbage]) else (s, [])
  }

  function OnBytes(isText: TextTest, s: Rx, data: bytes): (Rx, seq<Event>)
    decreases data
  {
    if data == [] then (s, [])
    else
      var (s1, e1) := OnByte(isText, s, data[0]);
      var (s2, e2) := OnBytes(isText, s1, data[1..]);
      (s2, e1 + e2)
  }

  function OnRead(isText: TextTest, s: Rx, chunk: bytes): (Rx, seq<Event>) {
    if chunk == [] then OnIdle(s) else OnBytes(isText, s, chunk)
  }

  function OnReads(isText: TextTest, s: Rx, chunks: seq<bytes>): (Rx, seq<Event>)
    decreases chunks
  {
    if chunks == [] then (s, [])
    else
      var (s1, e1) := OnRead(isText, s, chunks[0]);
      var (s2, e2) := OnReads(isText, s1, chunks[1..]);
      (s2, e1 + e2)
  }

  lemma {:induction false} BytesAppend(isText: TextTest, s: Rx, a: bytes, b: bytes)
    ensures OnBytes(isText, s, a + b) ==
      var (s1, e1) := OnBytes(isText, s, a);
      var (s2, e2) := OnBytes(isText, s1, b);
      (s2, e1 + e2)
    decreases a
  {
    if a == [] {
      assert a + b == b;
      assert OnBytes(isText, s, b).1 == [] + OnBytes(isText, s, b).1;
    } else {
      var (s1, e1) := OnByte(isText, s, a[0]);
      BytesAppend(isText, s1, a[1..], b);
      assert (a + b)[1..] == a[1..] + b;
      var (s2, e2) := OnBytes(isText, s1, a[1..]);
      var (s3, e3) := OnBytes(isText, s2, b);
      assert e1 + (e2 + e3) == (e1 + e2) + e3;
    }
  }

  lemma {:induction false} ReadsAppend(isText: TextTest, s: Rx, a: seq<bytes>, b: seq<bytes>)
    ensures OnReads(isText, s, a + b) ==
      var (s1, e1) := OnReads(isText, s, a);
      var (s2, e2) := OnReads(isText, s1, b);
      (s2, e1 + e2)
    decreases a
  {
    if a == [] {
      assert a + b == b;
      assert OnReads(isText, s, b).1 == [] + OnReads(isText, s, b).1;
    } else {
      var (s1, e1) := OnRead(isText, s, a[0]);
      ReadsAppend(isText, s1, a[1..], b);
      assert (a + b)[1..] == a[1..] + b;
      var (s2, e2) := OnReads(isText, s1, a[1..]);
      var (s3, e3) := OnReads(isText, s2, b);
      assert e1 + (e2 + e3) == (e1 + e2) + e3;
    }
  }

  // The line being assembled and the frame being assembled stay bounded.
  predicate Bounded(s: Rx) {
    |s.line| <= MAX_RX_LINE && |s.frame| <= Frame.MAX_FRAME_WIRE && (!s.inFrame ==> s.frame == [])
  }

  lemma {:induction false} StaysBounded(isText: TextTest, s: Rx, data: bytes)
    requires Bounded(s)
    ensures Bounded(OnBytes(isText, s, data).0) && Bounded(OnIdle(s).0)
    decreases data
  {
    if data != [] {
      StaysBounded(isText, OnByte(isText, s, data[0]).0, data[1..]);
    }
  }

  // ---- the loop -----------------------------------------------------------------

  class Reader {
    var line: bytes
    var frame: bytes
    var inFrame: bool
    var emitted: seq<Event>
    const isText: TextTest

    ghost function View(): Rx
      reads this
    {
      Rx(line, frame, inFrame)
    }

    constructor (isText: TextTest)
      ensures View() == CLEAN && emitted == [] && this.isText == isText
    {
      line, frame, inFrame, emitted := [], [], false, [];
      this.isText := isText;
    }

    method DispatchLine(raw: bytes)
      modifies this`emitted
      ensures emitted == old(emitted) + Dispatch(isText, raw)
    {
      if raw == [] {
        assert emitted + [] == emitted;
        return;
      }
      if !isText(raw) {
        emitted := emitted + [Garbage];
        return;
      }
      emitted := emitted + [Line(raw)];
    }

    method Finish(encoded: bytes)
      modifies this`emitted
      ensures emitted == old(emitted) + FinishFrame(encoded)
    {
      if encoded == [] {
        assert emitted + [] == emitted;
        return;
      }
      var body := Cobs.CobsDecode(encoded);
      if body.Err? || Frame.Parse(body.value).Err? {
        emitted := emitted + [Garbage];
        return;
      }
      emitted := emitted + [FrameBody(body.value)];
    }

    // _reader_main over the chunks the port returned, an empty one being a timeout.
    method ReaderMain(chunks: seq<bytes>)
      modifies this
      ensures (View(), emitted) ==
        var (s, e) := OnReads(isText, old(View()), chunks); (s, old(emitted) + e)
    {
      ghost var s0, e0 := View(), emitted;
      assert e0 + [] == e0;
      for i := 0 to |chunks|
        invariant View() == OnReads(isText, s0, chunks[..i]).0
        invariant emitted == e0 + OnReads(isText, s0, chunks[..i]).1
      {
        var chunk := chunks[i];
        ghost var s1, e1 := View(), emitted;
        assert e1 + [] == e1;
        if chunk == [] {
          if inFrame {
            inFrame := false;
            frame := [];
            emitted := emitted + [Garbage];
          }
        } else {
          ReadChunk(chunk);
        }
        assert emitted == e1 + OnRead(isText, s1, chunk).1;
        ReadsSnoc(isText, s0, e0, chunks, i);
      }
      assert chunks[..|chunks|] == chunks;
    }

    method ReadChunk(chunk: bytes)
      modifies this
      ensures (View(), emitted) ==
        var (s, e) := OnBytes(isText, old(View()), chunk); (s, old(emitted) + e)
    {
      ghost var s0, e0 := View(), emitted;
      assert e0 + [] == e0;
      for i := 0 to |chunk|
        invariant View() == OnBytes(isText, s0, chunk[..i]).0
        invariant emitted == e0 + OnBytes(isText, s0, chunk[..i]).1
      {
        ReadByte(chunk[i]);
        BytesSnoc(isText, s0, e0, chunk, i);
      }
      assert chunk[..|chunk|] == chunk;
    }

    // The body of the inner loop.
    method ReadByte(byte_: byte)
      modifies this
      ensures (View(), emitted) == var (s, e) := OnByte(isText, old(View()), byte_); (s, old(emitted) + e)
    {
      assert emitted + [] == emitted;
      if byte_ == NUL {
        if inFrame {
          Finish(frame);
          frame := [];
          inFrame := false;
        } else {
          if line != [] {
            DispatchLine(StripCR(line));
            line := [];
          }
          inFrame := true;
        }
      } else if inFrame {
        frame := frame + [byte_];
        if |frame| > Frame.MAX_FRAME_WIRE {
          inFrame := false;
          frame := [];
          emitted := emitted + [Garbage];
        }
      } else if byte_ == LF {
        DispatchLine(StripCR(line));
        line := [];
      } else {
        line := line + [byte_];
        if |line| > MAX_RX_LINE {
          line := [];
          emitted := emitted + [Garbage];
        }
      }
    }
  }

  lemma OneByte(isText: TextTest, s: Rx, b: byte)
    ensures OnBytes(isText, s, [b]) == OnByte(isText, s, b)
  {
    var (s1, e1) := OnByte(isText, s, b);
    assert OnBytes(isText, s1, [b][1..]) == (s1, []);
    assert e1 + [] == e1;
  }

  lemma OneRead(isText: TextTest, s: Rx, chunk: bytes)
    ensures OnReads(isText, s, [chunk]) == OnRead(isText, s, chunk)
  {
    var (s1, e1) := OnRead(isText, s, chunk);
    assert OnReads(isText, s1, [chunk][1..]) == (s1, []);
    assert e1 + [] == e1;
  }

  lemma BytesSnoc(isText: TextTest, s: Rx, e: seq<Event>, data: bytes, i: nat)
    requires i < |data|
    ensures var (s1, e1) := OnBytes(isText, s, data[..i]);
      var (s2, e2) := OnByte(isText, s1, data[i]);
      OnBytes(isText, s, data[..i + 1]).0 == s2 && e + OnBytes(isText, s, data[..i + 1]).1 == e + e1 + e2
  {
    assert data[..i + 1] == data[..i] + [data[i]];
    BytesAppend(isText, s, data[..i], [data[i]]);
    OneByte(isText, OnBytes(isText, s, data[..i]).0, data[i]);
  }

  lemma ReadsSnoc(isText: TextTest, s: Rx, e: seq<Event>, chunks: seq<bytes>, i: nat)
    requires i < |chunks|
    ensures var (s1, e1) := OnReads(isText, s, chunks[..i]);
      var (s2, e2) := OnRead(isText, s1, chunks[i]);
      OnReads(isText, s, chunks[..i + 1]).0 == s2 && e + OnReads(isText, s, chunks[..i + 1]).1 == e + e1 + e2
  {
    assert chunks[..i + 1] == chunks[..i] + [chunks[i]];
    ReadsAppend(isText, s, chunks[..i], [chunks[i]]);
    OneRead(isText, OnReads(isText, s, chunks[..i]).0, chunks[i]);
  }

  // ---- what a well-behaved sender puts on the wire --------------------------------

  datatype Msg = Text(raw: bytes) | Binary(f: Frame.Frame, pad: bool)

  predicate Good(isText: TextTest, m: Msg) {
    match m
    case Text(raw) =>
      raw != [] && |raw| <= MAX_RX_LINE && NUL !in raw && LF !in raw && raw[|raw| - 1] != CR && isText(raw)
    case Binary(f, _) =>
      Frame.Sendable(f) && |f.payload| <= Frame.MAX_PAYLOAD
  }

  function Wire(m: Msg): bytes {
    match m
    case Text(raw) => raw + [LF]
    case Binary(f, pad) => [NUL] + Cobs.Encode(Frame.Body(f), pad) + [NUL]
  }

  function EventOf(m: Msg): Event {
    match m
    case Text(raw) => Line(raw)
    case Binary(f, _) => FrameBody(Frame.Body(f))
  }

  function WireAll(ms: seq<Msg>): bytes {
    if ms == [] then [] else Wire(ms[0]) + WireAll(ms[1..])
  }

  function EventsOf(ms: seq<Msg>): seq<Event> {
    if ms == [] then [] else [EventOf(ms[0])] + EventsOf(ms[1..])
  }

  // A step that produces no event just moves the machine on.
  lemma QuietStep(isText: TextTest, s: Rx, data: bytes, s1: Rx)
    requires data != [] && OnByte(isText, s, data[0]) == (s1, [])
    ensures OnBytes(isText, s, data) == OnBytes(isText, s1, data[1..])
  {
    assert [] + OnBytes(isText, s1, data[1..]).1 == OnBytes(isText, s1, data[1..]).1;
  }

  lemma {:induction false} TextBytes(isText: TextTest, s: Rx, raw: bytes)
    requires !s.inFrame && NUL !in raw && LF !in raw && |s.line| + |raw| <= MAX_RX_LINE
    ensures OnBytes(isText, s, raw) == (Rx(s.line + raw, s.frame, false), [])
    decreases raw
  {
    if raw == [] {
      assert s.line + raw == s.line;
    } else {
      assert raw[0] in raw;
      var s1 := s.(line := s.line + [raw[0]]);
      QuietStep(isText, s, raw, s1);
      TextBytes(isText, s1, raw[1..]);
      Rejoin(s.line, raw);
    }
  }

  lemma {:induction false} FrameBytes(isText: TextTest, s: Rx, enc: bytes)
    requires s.inFrame && NUL !in enc && |s.frame| + |enc| <= Frame.MAX_FRAME_WIRE
    ensures OnBytes(isText, s, enc) == (Rx(s.line, s.frame + enc, true), [])
    decreases enc
  {
    if enc == [] {
      assert s.frame + enc == s.frame;
    } else {
      assert enc[0] in enc;
      var s1 := s.(frame := s.frame + [enc[0]]);
      QuietStep(isText, s, enc, s1);
      FrameBytes(isText, s1, enc[1..]);
      Rejoin(s.frame, enc);
    }
  }

  lemma OneMessage(isText: TextTest, m: Msg)
    requires Good(isText, m)
    ensures OnBytes(isText, CLEAN, Wire(m)) == (CLEAN, [EventOf(m)])
  {
    match m
    case Text(raw) =>
      TextBytes(isText, CLEAN, raw);
      BytesAppend(isText, CLEAN, raw, [LF]);
      OneByte(isText, Rx([] + raw, [], false), LF);
      assert [] + raw == raw && [] + [Line(raw)] == [Line(raw)];
    case Binary(f, pad) =>
      var body := Frame.Body(f);
      var enc := Cobs.Encode(body, pad);
      Cobs.EncodeHasNoZero(body, pad);
      Cobs.DecodeEncode(body, pad);
      Cobs.EncodeNonempty(body, pad);
      Frame.ParseBody(f);
      Frame.WireBound(f, pad);
      OneByte(isText, CLEAN, NUL);
      FrameBytes(isText, Rx([], [], true), enc);
      OneByte(isText, Rx([], [] + enc, true), NUL);
      assert [] + enc == enc;
      BytesAppend(isText, CLEAN, [NUL], enc);
      BytesAppend(isText, CLEAN, [NUL] + enc, [NUL]);
      assert [] + [] + [FrameBody(body)] == [FrameBody(body)];
  }

  lemma {:induction false} Messages(isText: TextTest, ms: seq<Msg>)
    requires forall m :: m in ms ==> Good(isText, m)
    ensures OnBytes(isText, CLEAN, WireAll(ms)) == (CLEAN, EventsOf(ms))
    decreases ms
  {
    if ms == [] {
    } else {
      OneMessage(isText, ms[0]);
      Messages(isText, ms[1..]);
      BytesAppend(isText, CLEAN, Wire(ms[0]), WireAll(ms[1..]));
    }
  }

  // ---- chunking ---------------------------------------------------------------------

  // Position p of the stream lies strictly inside a binary frame.
  predicate InsideFrame(ms: seq<Msg>, p: nat) {
    if ms == [] then false
    else if p < |Wire(ms[0])| then ms[0].Binary? && p > 0
    else InsideFrame(ms[1..], p - |Wire(ms[0])|)
  }

  // No read timed out between the two delimiters of a frame.
  predicate NoIdleInFrames(ms: seq<Msg>, chunks: seq<bytes>) {
    forall k :: 0 <= k < |chunks| && chunks[k] == [] ==> !InsideFrame(ms, |Concat(chunks[..k])|)
  }

  lemma InsideOne(isText: TextTest, m: Msg, p: nat)
    requires Good(isText, m) && p < |Wire(m)|
    ensures OnBytes(isText, CLEAN, Wire(m)[..p]).0.inFrame == (m.Binary? && p > 0)
  {
    match m
    case Text(raw) =>
      assert Wire(m)[..p] == raw[..p];
      TextBytes(isText, CLEAN, raw[..p]);
    case Binary(f, pad) =>
      var enc := Cobs.Encode(Frame.Body(f), pad);
      Cobs.EncodeHasNoZero(Frame.Body(f), pad);
      Frame.WireBound(f, pad);
      if p > 0 {
        assert Wire(m)[..p] == [NUL] + enc[..p - 1];
        OneByte(isText, CLEAN, NUL);
        BytesAppend(isText, CLEAN, [NUL], enc[..p - 1]);
        FrameBytes(isText, Rx([], [], true), enc[..p - 1]);
      } else {
        assert Wire(m)[..p] == [];
      }
  }

  // The machine is in frame mode exactly between a frame's delimiters.
  lemma StartOf(a: bytes, b: bytes, p: nat)
    requires p <= |a + b|
    ensures p <= |a| ==> (a + b)[..p] == a[..p]
    ensures p >= |a| ==> (a + b)[..p] == a + b[..p - |a|]
  {
  }

  lemma {:induction false} ModeFollowsWire(isText: TextTest, ms: seq<Msg>, p: nat)
    requires forall m :: m in ms ==> Good(isText, m)
    requires p <= |WireAll(ms)|
    ensures OnBytes(isText, CLEAN, WireAll(ms)[..p]).0.inFrame == InsideFrame(ms, p)
    decreases ms
  {
    if ms == [] {
    } else {
      var w, rest := Wire(ms[0]), WireAll(ms[1..]);
      StartOf(w, rest, p);
      if p < |w| {
        InsideOne(isText, ms[0], p);
      } else {
        ModeFollowsWire(isText, ms[1..], p - |w|);
        OneMessage(isText, ms[0]);
        BytesAppend(isText, CLEAN, w, rest[..p - |w|]);
      }
    }
  }

  lemma {:induction false} ChunkingIrrelevant(isText: TextTest, ms: seq<Msg>, chunks: seq<bytes>, n: nat)
    requires forall m :: m in ms ==> Good(isText, m)
    requires Concat(chunks) == WireAll(ms) && NoIdleInFrames(ms, chunks) && n <= |chunks|
    ensures OnReads(isText, CLEAN, chunks[..n]) == OnBytes(isText, CLEAN, Concat(chunks[..n]))
    decreases n
  {
    if n == 0 {
    } else {
      var k := n - 1;
      ChunkingIrrelevant(isText, ms, chunks, k);
      IdleOutsideFrames(isText, ms, chunks, k);
      ReadsSnoc(isText, CLEAN, [], chunks, k);
      ConcatSnoc(chunks, k);
      BytesAppend(isText, CLEAN, Concat(chunks[..k]), chunks[k]);
      NoPrefix(OnReads(isText, CLEAN, chunks[..n]).1);
      NoPrefix(OnReads(isText, CLEAN, chunks[..k]).1);
    }
  }

  lemma NoPrefix(e: seq<Event>)
    ensures [] + e == e
  {
  }

  lemma ConcatSnoc(chunks: seq<bytes>, k: nat)
    requires k < |chunks|
    ensures Concat(chunks[..k + 1]) == Concat(chunks[..k]) + chunks[k]
  {
    var a, b := chunks[..k], chunks[..k + 1];
    assert b == a + [chunks[k]];
    ConcatOne(a, chunks[k]);
  }

  lemma ConcatStart(chunks: seq<bytes>, k: nat)
    requires k <= |chunks|
    ensures Concat(chunks[..k]) <= Concat(chunks)
  {
    ConcatAppend(chunks[..k], chunks[k..]);
    assert chunks[..k] + chunks[k..] == chunks;
  }

  // An idle read that falls outside every frame leaves the machine as it is.
  lemma IdleOutsideFrames(isText: TextTest, ms: seq<Msg>, chunks: seq<bytes>, k: nat)
    requires forall m :: m in ms ==> Good(isText, m)
    requires Concat(chunks) == WireAll(ms) && NoIdleInFrames(ms, chunks) && k < |chunks|
    ensures var s := OnBytes(isText, CLEAN, Concat(chunks[..k])).0;
      OnRead(isText, s, chunks[k]) == OnBytes(isText, s, chunks[k])
  {
    var done := Concat(chunks[..k]);
    ConcatStart(chunks, k);
    assert WireAll(ms)[..|done|] == done;
    ModeFollowsWire(isText, ms, |done|);
  }

  // Any good messages, cut into chunks in any way, come out in order and complete.
  lemma RoundTrip(isText: TextTest, ms: seq<Msg>, chunks: seq<bytes>)
    requires forall m :: m in ms ==> Good(isText, m)
    requires Concat(chunks) == WireAll(ms) && NoIdleInFrames(ms, chunks)
    ensures OnReads(isText, CLEAN, chunks) == (CLEAN, EventsOf(ms))
  {
    ChunkingIrrelevant(isText, ms, chunks, |chunks|);
    assert chunks[..|chunks|] == chunks;
    Messages(isText, ms);
  }

  // Whatever came before (a boot banner, half a frame, a lost delimiter), one
  // silent read followed by a newline puts the reader back in step.
  lemma Resynchronizes(isText: TextTest, junk: seq<bytes>, ms: seq<Msg>, chunks: seq<bytes>)
    requires forall m :: m in ms ==> Good(isText, m)
    requires Concat(chunks) == WireAll(ms) && NoIdleInFrames(ms, chunks)
    ensures var (s, before) := OnReads(isText, CLEAN, junk + [[], [LF]]);
      OnReads(isText, CLEAN, junk + [[], [LF]] + chunks) == (CLEAN, before + EventsOf(ms))
  {
    var (s, e) := OnReads(isText, CLEAN, junk);
    JunkBounded(isText, CLEAN, junk);
    var tail: seq<bytes> := [[], [LF]];
    ReadsAppend(isText, CLEAN, junk, tail);
    OneByte(isText, OnIdle(s).0, LF);
    assert tail == [[]] + [[LF]];
    ReadsAppend(isText, s, [[]], [[LF]]);
    OneRead(isText, s, []);
    OneRead(isText, OnIdle(s).0, [LF]);
    assert OnReads(isText, CLEAN, junk + tail).0 == CLEAN;
    ReadsAppend(isText, CLEAN, junk + tail, chunks);
    RoundTrip(isText, ms, chunks);
  }

  lemma {:induction false} JunkBounded(isText: TextTest, s: Rx, junk: seq<bytes>)
    requires Bounded(s)
    ensures Bounded(OnReads(isText, s, junk).0)
    decreases junk
  {
    if junk != [] {
      StaysBounded(isText, s, junk[0]);
      JunkBounded(isText, OnRead(isText, s, junk[0]).0, junk[1..]);
    }
  }

  // ---- the bounded hand-over queue -----------------------------------------------------

  function Last<T>(s: seq<T>, n: nat): seq<T> {
    if |s| <= n then s else s[|s| - n..]
  }

  // The events taken so far, as positions in what was offered: in order, each at most
  // once, all before head, and one is missing only when so many newer ones came.
  ghost predicate TakenInOrder(taken: seq<nat>, head: nat, offered: nat, capacity: nat) {
    && (forall i :: 0 <= i < |taken| ==> taken[i] < head)
    && (forall i, j :: 0 <= i < j < |taken| ==> taken[i] < taken[j])
    && forall p: nat :: p < head && p !in taken ==> p + capacity < offered
  }

  lemma OneTaken(taken: seq<nat>, head: nat, offered: nat, capacity: nat)
    requires TakenInOrder(taken, head, offered, capacity)
    ensures TakenInOrder(taken + [head], head + 1, offered, capacity)
  {
    assert (taken + [head])[|taken|] == head;
    forall p: nat | p < head + 1 && p !in taken + [head]
      ensures p + capacity < offered
    {
      assert p !in taken;
    }
  }

  // The bounded queue from the reader to its consumer: a full one makes room by losing its
  // oldest event.  epoch counts the openings of the port; an event of an earlier opening
  // changes nothing.
  class RxQueue<T> {
    const capacity: nat
    var epoch: nat
    var items: seq<T>
    // History of this opening: everything put in, how much of it has left the queue, and
    // the positions of what the consumer was given.
    ghost var offered: seq<T>
    ghost var head: nat
    ghost var taken: seq<nat>

    ghost predicate Valid()
      reads this
    {
      && capacity > 0 && head <= |offered| && items == offered[head..] && |items| <= capacity
      && TakenInOrder(taken, head, |offered|, capacity)
    }

    constructor (capacity: nat)
      requires capacity > 0
      ensures Valid() && items == offered == [] && taken == [] && this.capacity == capacity && epoch == 0
    {
      this.capacity := capacity;
      epoch, items, offered, head, taken := 0, [], [], 0, [];
    }

    method Reopen()
      requires Valid()
      modifies this
      ensures Valid() && items == offered == [] && taken == [] && epoch == old(epoch) + 1
    {
      epoch, items, offered, head, taken := epoch + 1, [], [], 0, [];
    }

    method EnqueueInto(target: nat, ev: T)
      requires Valid()
      modifies this
      ensures Valid() && epoch == old(epoch) && taken == old(taken)
      ensures target != epoch ==> items == old(items) && offered == old(offered)
      ensures target == epoch ==> offered == old(offered) + [ev] && items == Last(old(items) + [ev], capacity)
    {
      if target != epoch {
        return;
      }
      if |items| >= capacity {
        items, head := items[1..], head + 1;
      }
      items := items + [ev];
      offered := offered + [ev];
    }

    // The event loop takes the oldest event, if there is one.
    method Get() returns (ev: Option<T>)
      requires Valid()
      modifies this
      ensures Valid() && epoch == old(epoch) && offered == old(offered)
      ensures if old(items) == [] then ev == None && items == [] && taken == old(taken)
        else ev == Some(old(items)[0]) && items == old(items)[1..] && taken == old(taken) + [old(head)]
      ensures ev.Some? ==> old(head) < |offered| && ev.value == offered[old(head)]
    {
      if items == [] {
        return None;
      }
      OneTaken(taken, head, |offered|, capacity);
      taken := taken + [head];
      ev := Some(items[0]);
      items, head := items[1..], head + 1;
    }
  }

  datatype QueueOp<T> = Put(target: nat, ev: T) | Pull | Reopened

  // The present opening and what its own reader has put in.
  function Offers<T>(ops: seq<QueueOp<T>>): (nat, seq<T>) {
    if ops == [] then (0, [])
    else
      var (epoch, offered) := Offers(ops[..|ops| - 1]);
      match ops[|ops| - 1]
      case Put(target, ev) => (epoch, if target == epoch then offered + [ev] else offered)
      case Pull => (epoch, offered)
      case Reopened => (epoch + 1, [])
  }

  // What the consumer got, and what is still held, of what was offered.
  ghost predicate Received<T>(got: seq<T>, items: seq<T>, offered: seq<T>, capacity: nat) {
    exists taken: seq<nat>, head: nat :: TakenInOrder(taken, head, |offered|, capacity)
      && |got| == |taken| && head <= |offered| && items == offered[head..]
      && forall i :: 0 <= i < |got| ==> got[i] == offered[taken[i]]
  }

  // Any mix of reader and consumer: what the consumer got of the present opening is what
  // was put in, in order and at most once; an event is lost only to so many newer ones;
  // and everything after the last one gone is still held.
  method UseQueue<T>(capacity: nat, ops: seq<QueueOp<T>>)
    returns (got: seq<T>, items: seq<T>)
    requires capacity > 0
    ensures |items| <= capacity && Received(got, items, Offers(ops).1, capacity)
  {
    var q := new RxQueue<T>(capacity);
    got := [];
    for i := 0 to |ops|
      invariant q.Valid() && fresh(q) && q.capacity == capacity && |got| == |q.taken|
      invariant forall k :: 0 <= k < |got| ==> got[k] == q.offered[q.taken[k]]
      invariant (q.epoch, q.offered) == Offers(ops[..i])
    {
      assert ops[..i + 1][..i] == ops[..i];
      match ops[i]
      case Put(target, ev) => q.EnqueueInto(target, ev);
      case Reopened =>
        q.Reopen();
        got := [];
      case Pull =>
        var ev := q.Get();
        if ev.Some? {
          got := got + [ev.value];
        }
    }
    assert ops[..|ops|] == ops;
    items := q.items;
    assert TakenInOrder(q.taken, q.head, |q.offered|, capacity);
  }
}
