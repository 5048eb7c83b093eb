// The inbox behind the serial reader: at most one open stream, tombstones of
// finished exchanges, and delivery of each new stream to a consumer.

module LiveInbox {
  import opened Bytes
  import Codec = LiveCodec
  import LS = LiveStream

  const FRAME_BEGIN: nat := 0x10
  const FRAME_PCM: nat := 0x11
  const FRAME_END: nat := 0x12
  const FRAME_ABORT: nat := 0x13

  datatype Inbox = Inbox(
    controller: nat, limits: LS.Limits, active: Option<LS.Stream>,
    generation: nat, delivered: nat,
    tombLimit: nat, tombOrder: seq<nat>, tombSet: set<nat>,
    faults: nat, late: nat,
    retired: seq<LS.Stream>)   // streams that have been replaced (history)

  function Empty(controller: nat, limits: LS.Limits, tombstones: nat): Inbox {
    Inbox(controller, limits, None, 0, 0, if tombstones < 1 then 1 else tombstones, [], {}, 0, 0, [])
  }

  // ---- tombstones -----------------------------------------------------------------------

  function DropOldest(order: seq<nat>, ids: set<nat>, limit: nat): (seq<nat>, set<nat>)
    decreases |order|
  {
    if |order| <= limit then (order, ids) else DropOldest(order[1..], ids - {order[0]}, limit)
  }

  function Remember(x: Inbox, exchange: nat): Inbox {
    if exchange in x.tombSet then x
    else
      var (order, ids) := DropOldest(x.tombOrder + [exchange], x.tombSet + {exchange}, x.tombLimit);
      x.(tombOrder := order, tombSet := ids)
  }

  function Fault(x: Inbox): Inbox {
    x.(faults := x.faults + 1)
  }

  // ---- frames ------------------------------------------------------------------------------

  function InvalidateActive(x: Inbox, why: string): Inbox
    requires x.active.Some?
  {
    x.(active := Some(LS.Invalidate(x.active.value, why, 0)))
  }

  function Malformed(x: Inbox, ftype: nat): Inbox {
    Fault(if x.active.Some? && x.active.value.terminal.None? && ftype != FRAME_BEGIN
          then Remember(InvalidateActive(x, "malformed"), x.active.value.begin.exchange)
          else x)
  }

  function Install(x: Inbox, b: Codec.Begin, seqNo: nat, now: nat): Inbox {
    x.(active := Some(LS.Open(b, seqNo, now, x.limits)), generation := x.generation + 1,
       retired := if x.active.Some? then x.retired + [x.active.value] else x.retired)
  }

  function OfferBegin(x: Inbox, b: Codec.Begin, seqNo: nat, now: nat): Inbox {
    if b.controller != x.controller then Fault(x)
    else if b.exchange in x.tombSet then x.(late := x.late + 1)
    else if x.active.None? then Install(x, b, seqNo, now)
    else
      var prior := x.active.value.begin.exchange;
      if prior == b.exchange then Remember(Fault(InvalidateActive(x, "duplicate_begin")), b.exchange)
      else
        var x1 := if x.active.value.terminal.None? then InvalidateActive(x, "superseded_begin") else x;
        Install(Remember(x1, prior), b, seqNo, now)
  }

  // _matching_stream: whether the active stream is to get the frame.
  function Matching(x: Inbox, exchange: nat, controller: nat): (Inbox, bool) {
    if exchange in x.tombSet then (x.(late := x.late + 1), false)
    else if x.active.None? then (Fault(x), false)
    else if controller != x.controller || exchange != x.active.value.begin.exchange then
      (Remember(Fault(InvalidateActive(x, "foreign_frame")), x.active.value.begin.exchange), false)
    else (x, true)
  }

  function AfterOffer(x: Inbox, s: LS.Stream): Inbox {
    var x1 := x.(active := Some(s));
    if s.terminal.Some? then Remember(x1, s.begin.exchange) else x1
  }

  function BeginFrame(x: Inbox, seqNo: nat, payload: bytes, now: nat): Inbox {
    var b := Codec.ParseBegin(payload);
    if b.Err? then Malformed(x, FRAME_BEGIN) else OfferBegin(x, b.value, seqNo, now)
  }

  function OfferPcm(x: Inbox, f: Codec.Pcm, seqNo: nat, now: nat): Inbox {
    var (x1, matched) := Matching(x, f.exchange, f.controller);
    if matched && x1.active.Some? then AfterOffer(x1, LS.OfferPcm(x1.active.value, f, seqNo, now)) else x1
  }

  function PcmFrame(x: Inbox, seqNo: nat, payload: bytes, now: nat): Inbox {
    var f := Codec.ParsePcm(payload);
    if f.Err? then Malformed(x, FRAME_PCM) else OfferPcm(x, f.value, seqNo, now)
  }

  function OfferTerminal(x: Inbox, t: Codec.Terminal, isAbort: bool, seqNo: nat, now: nat): Inbox {
    var (x1, matched) := Matching(x, t.exchange, t.controller);
    if matched && x1.active.Some? then AfterOffer(x1, LS.OfferTerminal(x1.active.value, t, isAbort, seqNo, now)) else x1
  }

  function TerminalFrame(x: Inbox, isAbort: bool, seqNo: nat, payload: bytes, now: nat): Inbox {
    var t := Codec.ParseTerminal(payload);
    if t.Err? then Malformed(x, if isAbort then FRAME_ABORT else FRAME_END)
    else OfferTerminal(x, t.value, isAbort, seqNo, now)
  }

  // offer_frame; the flag says whether the frame was claimed.
  function OfferFrame(x: Inbox, ftype: nat, seqNo: nat, payload: bytes, now: nat): (Inbox, bool) {
    if ftype == FRAME_BEGIN then (BeginFrame(x, seqNo, payload, now), true)
    else if ftype == FRAME_PCM then (PcmFrame(x, seqNo, payload, now), true)
    else if ftype == FRAME_END || ftype == FRAME_ABORT then
      (TerminalFrame(x, ftype == FRAME_ABORT, seqNo, payload, now), true)
    else (x, false)
  }

  function LinkClosed(x: Inbox): Inbox {
    if x.active.Some? && x.active.value.terminal.None?
    then Remember(InvalidateActive(x, "link_closed"), x.active.value.begin.exchange) else x
  }

  // The consumer takes the next item of the active stream.
  function Consume(x: Inbox, now: nat): Inbox {
    if x.active.Some? then x.(active := Some(LS.NextItem(x.active.value, now).0)) else x
  }

  // One turn of next_stream's loop for a call whose local mark is `seen`: the
  // inbox, the mark, and whether the active stream is returned.
  function NextStream(x: Inbox, seen: nat, wanted: Option<nat>): (Inbox, nat, bool) {
    if x.active.Some? && x.generation != seen then
      if wanted.None? || x.active.value.begin.exchange == wanted.value
      then (x.(delivered := x.generation), seen, true)
      else (x, x.generation, false)
    else (x, seen, false)
  }

  datatype Op =
    | Frame(ftype: nat, seqNo: nat, payload: bytes, now: nat)
    | Closed
    | Take(now: nat)
    | Poll(seen: nat, wanted: Option<nat>)

  function Apply(x: Inbox, op: Op): Inbox {
    match op
    case Frame(t, n, p, now) => OfferFrame(x, t, n, p, now).0
    case Closed => LinkClosed(x)
    case Take(now) => Consume(x, now)
    case Poll(seen, wanted) => NextStream(x, seen, wanted).0
  }

  // ---- invariant ------------------------------------------------------------------------------

  ghost predicate Tombs(order: seq<nat>, ids: set<nat>) {
    && (forall i, j :: 0 <= i < j < |order| ==> order[i] != order[j])
    && (forall e :: e in ids <==> e in order)
  }

  ghost predicate Inv(x: Inbox) {
    && x.tombLimit >= 1 && |x.tombOrder| <= x.tombLimit && Tombs(x.tombOrder, x.tombSet)
    && (forall i :: 0 <= i < |x.retired| ==> x.retired[i].terminal.Some? && LS.Inv(x.retired[i]))
    && (x.active.Some? ==> LS.Inv(x.active.value) && x.active.value.begin.controller == x.controller)
    && x.generation == |x.retired| + (if x.active.Some? then 1 else 0)
    && x.delivered <= x.generation
  }

  lemma {:induction false} DropKeeps(order: seq<nat>, ids: set<nat>, limit: nat)
    requires Tombs(order, ids)
    ensures var (o, i) := DropOldest(order, ids, limit); Tombs(o, i) && |o| <= limit
    decreases |order|
  {
    if |order| > limit {
      var rest := order[1..];
      forall e
        ensures e in ids - {order[0]} <==> e in rest
      {
        if e in order {
          var k :| 0 <= k < |order| && order[k] == e;
          assert k > 0 ==> rest[k - 1] == e;
        }
      }
      DropKeeps(rest, ids - {order[0]}, limit);
    }
  }

  lemma RememberKeeps(x: Inbox, exchange: nat)
    requires Inv(x)
    ensures Inv(Remember(x, exchange))
    ensures var y := Remember(x, exchange);
      y == x.(tombOrder := y.tombOrder, tombSet := y.tombSet)
  {
    if exchange !in x.tombSet {
      DropKeeps(x.tombOrder + [exchange], x.tombSet + {exchange}, x.tombLimit);
    }
  }

  lemma InvalidateKeeps(x: Inbox, why: string)
    requires Inv(x) && x.active.Some?
    ensures Inv(InvalidateActive(x, why))
  {
    LS.InvalidateKeeps(x.active.value, why, 0);
  }

  lemma InstallKeeps(x: Inbox, b: Codec.Begin, seqNo: nat, now: nat)
    requires Inv(x) && b.controller == x.controller && seqNo < 0x10000
    requires x.active.Some? ==> x.active.value.terminal.Some?
    ensures Inv(Install(x, b, seqNo, now))
  {
    LS.OpenOk(b, seqNo, now, x.limits);
  }

  lemma BeginKeeps(x: Inbox, b: Codec.Begin, seqNo: nat, now: nat)
    requires Inv(x) && seqNo < 0x10000
    ensures Inv(OfferBegin(x, b, seqNo, now))
  {
    if b.controller == x.controller && b.exchange !in x.tombSet {
      if x.active.None? {
        InstallKeeps(x, b, seqNo, now);
      } else {
        var prior := x.active.value.begin.exchange;
        InvalidateKeeps(x, "duplicate_begin");
        InvalidateKeeps(x, "superseded_begin");
        if prior == b.exchange {
          RememberKeeps(Fault(InvalidateActive(x, "duplicate_begin")), b.exchange);
        } else {
          var x1 := if x.active.value.terminal.None? then InvalidateActive(x, "superseded_begin") else x;
          RememberKeeps(x1, prior);
          InstallKeeps(Remember(x1, prior), b, seqNo, now);
        }
      }
    }
  }

  lemma MatchingKeeps(x: Inbox, exchange: nat, controller: nat)
    requires Inv(x)
    ensures Inv(Matching(x, exchange, controller).0)
    ensures Matching(x, exchange, controller).1 ==> Matching(x, exchange, controller).0 == x && x.active.Some?
  {
    if x.active.Some? {
      InvalidateKeeps(x, "foreign_frame");
      RememberKeeps(Fault(InvalidateActive(x, "foreign_frame")), x.active.value.begin.exchange);
    }
  }

  lemma AfterOfferKeeps(x: Inbox, s: LS.Stream)
    requires Inv(x) && x.active.Some? && LS.Inv(s) && s.begin == x.active.value.begin
    ensures Inv(AfterOffer(x, s))
  {
    RememberKeeps(x.(active := Some(s)), s.begin.exchange);
  }

  lemma MalformedKeeps(x: Inbox, ftype: nat)
    requires Inv(x)
    ensures Inv(Malformed(x, ftype)) && Inv(LinkClosed(x))
  {
    if x.active.Some? {
      InvalidateKeeps(x, "malformed");
      RememberKeeps(InvalidateActive(x, "malformed"), x.active.value.begin.exchange);
      InvalidateKeeps(x, "link_closed");
      RememberKeeps(InvalidateActive(x, "link_closed"), x.active.value.begin.exchange);
    }
  }

  lemma PcmKeeps(x: Inbox, f: Codec.Pcm, seqNo: nat, now: nat)
    requires Inv(x) && Codec.ValidPcm(f)
    ensures Inv(OfferPcm(x, f, seqNo, now))
  {
    MatchingKeeps(x, f.exchange, f.controller);
    if Matching(x, f.exchange, f.controller).1 {
      LS.PcmKeeps(x.active.value, f, seqNo, now);
      AfterOfferKeeps(x, LS.OfferPcm(x.active.value, f, seqNo, now));
    }
  }

  lemma TerminalKeeps(x: Inbox, t: Codec.Terminal, isAbort: bool, seqNo: nat, now: nat)
    requires Inv(x)
    ensures Inv(OfferTerminal(x, t, isAbort, seqNo, now))
  {
    MatchingKeeps(x, t.exchange, t.controller);
    if Matching(x, t.exchange, t.controller).1 {
      LS.TerminalKeeps(x.active.value, t, isAbort, seqNo, now);
      AfterOfferKeeps(x, LS.OfferTerminal(x.active.value, t, isAbort, seqNo, now));
    }
  }

  lemma PcmPayloadKeeps(x: Inbox, seqNo: nat, payload: bytes, now: nat)
    requires Inv(x)
    ensures Inv(PcmFrame(x, seqNo, payload, now))
  {
    MalformedKeeps(x, FRAME_PCM);
    var f := Codec.ParsePcm(payload);
    if f.Ok? {
      Codec.PcmCanonical(payload);
      PcmKeeps(x, f.value, seqNo, now);
    }
  }

  lemma TerminalPayloadKeeps(x: Inbox, isAbort: bool, seqNo: nat, payload: bytes, now: nat)
    requires Inv(x)
    ensures Inv(TerminalFrame(x, isAbort, seqNo, payload, now))
  {
    MalformedKeeps(x, if isAbort then FRAME_ABORT else FRAME_END);
    var t := Codec.ParseTerminal(payload);
    if t.Ok? { TerminalKeeps(x, t.value, isAbort, seqNo, now); }
  }

  lemma BeginPayloadKeeps(x: Inbox, seqNo: nat, payload: bytes, now: nat)
    requires Inv(x) && seqNo < 0x10000
    ensures Inv(BeginFrame(x, seqNo, payload, now))
  {
    MalformedKeeps(x, FRAME_BEGIN);
    var b := Codec.ParseBegin(payload);
    if b.Ok? { BeginKeeps(x, b.value, seqNo, now); }
  }

  lemma FrameKeeps(x: Inbox, ftype: nat, seqNo: nat, payload: bytes, now: nat)
    requires Inv(x) && seqNo < 0x10000
    ensures Inv(OfferFrame(x, ftype, seqNo, payload, now).0)
  {
    if ftype == FRAME_BEGIN { BeginPayloadKeeps(x, seqNo, payload, now); }
    else if ftype == FRAME_PCM { PcmPayloadKeeps(x, seqNo, payload, now); }
    else if ftype == FRAME_END || ftype == FRAME_ABORT {
      TerminalPayloadKeeps(x, ftype == FRAME_ABORT, seqNo, payload, now);
    }
  }

  lemma ConsumeKeeps(x: Inbox, now: nat)
    requires Inv(x)
    ensures Inv(Consume(x, now))
  {
    if x.active.Some? { LS.NextItemKeeps(x.active.value, now); }
  }

  lemma PollKeeps(x: Inbox, seen: nat, wanted: Option<nat>)
    requires Inv(x)
    ensures Inv(NextStream(x, seen, wanted).0)
  {
  }

  lemma ApplyKeeps(x: Inbox, op: Op)
    requires Inv(x) && (op.Frame? ==> op.seqNo < 0x10000)
    ensures Inv(Apply(x, op))
  {
    match op
    case Frame(t, n, p, now) => FrameKeeps(x, t, n, p, now);
    case Closed => MalformedKeeps(x, 0);
    case Take(now) => ConsumeKeeps(x, now);
    case Poll(seen, wanted) => PollKeeps(x, seen, wanted);
  }

  // Over every sequence of frames, consumer turns and link losses: all streams but
  // the active one are terminal, tombstone order and set agree, free of duplicates
  // and within the limit, and every stream keeps its own invariant.
  lemma {:induction false} EveryRun(x: Inbox, ops: seq<Op>)
    requires Inv(x) && forall i :: 0 <= i < |ops| && ops[i].Frame? ==> ops[i].seqNo < 0x10000
    ensures Inv(Fold(Apply, x, ops))
    decreases ops
  {
    if ops != [] {
      ApplyKeeps(x, ops[0]);
      EveryRun(Apply(x, ops[0]), ops[1..]);
    }
  }

  lemma EmptyOk(controller: nat, limits: LS.Limits, tombstones: nat)
    ensures Inv(Empty(controller, limits, tombstones))
  {
  }

  // ---- what frames cannot do ---------------------------------------------------------------------

  // The exchange a frame names, if it parses.
  function ExchangeOf(ftype: nat, payload: bytes): Option<nat> {
    if ftype == FRAME_BEGIN then
      var b := Codec.ParseBegin(payload); if b.Ok? then Some(b.value.exchange) else None
    else if ftype == FRAME_PCM then
      var f := Codec.ParsePcm(payload); if f.Ok? then Some(f.value.exchange) else None
    else if ftype == FRAME_END || ftype == FRAME_ABORT then
      var t := Codec.ParseTerminal(payload); if t.Ok? then Some(t.value.exchange) else None
    else None
  }

  ghost predicate Unreached(x: Inbox, y: Inbox) {
    y.active == x.active && y.retired == x.retired && y.generation == x.generation && y.tombSet == x.tombSet
  }

  // A BEGIN opens a stream exactly when it is for this controller, its exchange is not
  // tombstoned and is not the active one's; what was active is then retired, invalid if it
  // had not ended, and tombstoned.
  lemma BeginOpensExactly(x: Inbox, b: Codec.Begin, seqNo: nat, now: nat)
    requires Inv(x)
    ensures var y := OfferBegin(x, b, seqNo, now);
      var opens := b.controller == x.controller && b.exchange !in x.tombSet
        && (x.active.Some? ==> x.active.value.begin.exchange != b.exchange);
      && (opens ==> y.active == Some(LS.Open(b, seqNo, now, x.limits)) && y.generation == x.generation + 1)
      && (!opens ==> y.generation == x.generation && y.active.Some? == x.active.Some?)
      && (opens && x.active.Some? ==>
            |y.retired| == |x.retired| + 1 && Superseded(x.active.value, y.retired[|x.retired|])
            && x.active.value.begin.exchange in y.tombSet)
      && (!opens && x.active.Some? ==>
            if b.controller == x.controller && b.exchange !in x.tombSet
            then y.active.value.terminal.Some? && b.exchange in y.tombSet
            else y.active == x.active)
  {
    if x.active.Some? {
      var prior := x.active.value.begin.exchange;
      var x1 := if x.active.value.terminal.None? then InvalidateActive(x, "superseded_begin") else x;
      RememberedIsThere(x1, prior);
      RemembersOnly(x1, prior);
      RememberedIsThere(Fault(InvalidateActive(x, "duplicate_begin")), b.exchange);
      RemembersOnly(Fault(InvalidateActive(x, "duplicate_begin")), b.exchange);
    }
  }

  // The stream as it is retired: unchanged if it had ended, else invalid.
  predicate Superseded(s: LS.Stream, t: LS.Stream) {
    && t.begin == s.begin && t.accepted == s.accepted && t.delivered == s.delivered
    && if s.terminal.Some? then t == s else t.terminal.Some? && t.terminal.value.kind.Invalid? && t.chunks == []
  }

  // Frames of the active exchange reach its stream and change nothing else that matters;
  // others end it as foreign, unless they are late.
  lemma FramesAreRouted(x: Inbox, f: Codec.Pcm, t: Codec.Terminal, isAbort: bool, seqNo: nat, now: nat)
    requires Inv(x) && x.active.Some?
    ensures var s := x.active.value;
      f.exchange !in x.tombSet ==>
        && OfferPcm(x, f, seqNo, now).generation == x.generation
        && (if f.controller == x.controller && f.exchange == s.begin.exchange
            then OfferPcm(x, f, seqNo, now).active == Some(LS.OfferPcm(s, f, seqNo, now))
            else Ended(s, OfferPcm(x, f, seqNo, now).active))
    ensures var s := x.active.value;
      t.exchange !in x.tombSet ==>
        && OfferTerminal(x, t, isAbort, seqNo, now).generation == x.generation
        && (if t.controller == x.controller && t.exchange == s.begin.exchange
            then OfferTerminal(x, t, isAbort, seqNo, now).active == Some(LS.OfferTerminal(s, t, isAbort, seqNo, now))
            else Ended(s, OfferTerminal(x, t, isAbort, seqNo, now).active))
  {
    hide LS.OfferPcm, LS.OfferTerminal;
    var e := x.active.value.begin.exchange;
    RemembersOnly(Fault(InvalidateActive(x, "foreign_frame")), e);
    RemembersOnly(x.(active := Some(LS.OfferPcm(x.active.value, f, seqNo, now))), f.exchange);
    RemembersOnly(x.(active := Some(LS.OfferTerminal(x.active.value, t, isAbort, seqNo, now))), t.exchange);
    BeginStays(x.active.value, f, t, isAbort, seqNo, now);
  }

  // A lost link ends the active stream, and so does a payload that cannot be read, but for
  // a BEGIN's; the exchange is tombstoned.
  lemma LossEnds(x: Inbox, ftype: nat)
    requires Inv(x) && x.active.Some? && x.active.value.terminal.None?
    ensures Ended(x.active.value, LinkClosed(x).active) && x.active.value.begin.exchange in LinkClosed(x).tombSet
    ensures ftype != FRAME_BEGIN ==>
      Ended(x.active.value, Malformed(x, ftype).active) && x.active.value.begin.exchange in Malformed(x, ftype).tombSet
    ensures Malformed(x, FRAME_BEGIN).active == x.active
  {
    var e := x.active.value.begin.exchange;
    RememberedIsThere(InvalidateActive(x, "malformed"), e);
    RemembersOnly(InvalidateActive(x, "malformed"), e);
    RememberedIsThere(InvalidateActive(x, "link_closed"), e);
    RemembersOnly(InvalidateActive(x, "link_closed"), e);
  }

  predicate Ended(s: LS.Stream, active: Option<LS.Stream>) {
    active.Some? && Superseded(s, active.value)
  }

  lemma BeginStays(s: LS.Stream, f: Codec.Pcm, t: Codec.Terminal, isAbort: bool, seqNo: nat, now: nat)
    ensures LS.OfferPcm(s, f, seqNo, now).begin == s.begin && LS.OfferTerminal(s, t, isAbort, seqNo, now).begin == s.begin
  {
  }

  // No frame of a tombstoned exchange reaches, opens or ends any stream.
  lemma TombstoneFences(x: Inbox, ftype: nat, seqNo: nat, payload: bytes, now: nat)
    requires ExchangeOf(ftype, payload).Some? && ExchangeOf(ftype, payload).value in x.tombSet
    ensures OfferFrame(x, ftype, seqNo, payload, now).1
    ensures Unreached(x, OfferFrame(x, ftype, seqNo, payload, now).0)
  {
    if ftype == FRAME_BEGIN {
      var b := Codec.ParseBegin(payload).value;
      if b.controller == x.controller { assert OfferBegin(x, b, seqNo, now) == x.(late := x.late + 1); }
    } else if ftype == FRAME_PCM {
      var f := Codec.ParsePcm(payload).value;
      assert OfferPcm(x, f, seqNo, now) == x.(late := x.late + 1);
    } else {
      var t := Codec.ParseTerminal(payload).value;
      assert OfferTerminal(x, t, ftype == FRAME_ABORT, seqNo, now) == x.(late := x.late + 1);
    }
  }

  // Only live frame types are claimed, and an unclaimed frame changes nothing.
  lemma ClaimsLiveFramesOnly(x: Inbox, ftype: nat, seqNo: nat, payload: bytes, now: nat)
    ensures OfferFrame(x, ftype, seqNo, payload, now).1 <==> FRAME_BEGIN <= ftype <= FRAME_ABORT
    ensures !OfferFrame(x, ftype, seqNo, payload, now).1 ==> OfferFrame(x, ftype, seqNo, payload, now).0 == x
  {
  }

  lemma RememberedIsThere(x: Inbox, e: nat)
    requires x.tombLimit >= 1 && Tombs(x.tombOrder, x.tombSet)
    ensures e in Remember(x, e).tombSet
  {
    if e !in x.tombSet { NewestSurvives(x.tombOrder, x.tombSet + {e}, x.tombLimit, e); }
  }

  // A stream that ends through a PCM or terminal frame, its own or a foreign one,
  // is tombstoned in the same step.
  lemma EndedByPcm(x: Inbox, f: Codec.Pcm, seqNo: nat, now: nat)
    requires Inv(x) && x.active.Some? && x.active.value.terminal.None?
    ensures var y := OfferPcm(x, f, seqNo, now);
      y.active.Some? && (y.active.value.terminal.Some? ==> x.active.value.begin.exchange in y.tombSet)
  {
    var e := x.active.value.begin.exchange;
    RememberedIsThere(Fault(InvalidateActive(x, "foreign_frame")), e);
    RememberedIsThere(x.(active := Some(LS.OfferPcm(x.active.value, f, seqNo, now))), e);
  }

  lemma EndedByTerminal(x: Inbox, t: Codec.Terminal, isAbort: bool, seqNo: nat, now: nat)
    requires Inv(x) && x.active.Some? && x.active.value.terminal.None?
    ensures var y := OfferTerminal(x, t, isAbort, seqNo, now);
      y.active.Some? && (y.active.value.terminal.Some? ==> x.active.value.begin.exchange in y.tombSet)
  {
    var e := x.active.value.begin.exchange;
    RememberedIsThere(Fault(InvalidateActive(x, "foreign_frame")), e);
    RememberedIsThere(x.(active := Some(LS.OfferTerminal(x.active.value, t, isAbort, seqNo, now))), e);
  }

  lemma {:induction false} NewestSurvives(order: seq<nat>, ids: set<nat>, limit: nat, e: nat)
    requires limit >= 1 && e in ids && e !in order
    ensures e in DropOldest(order + [e], ids, limit).1
    decreases |order|
  {
    if |order + [e]| > limit {
      assert (order + [e])[1..] == order[1..] + [e];
      NewestSurvives(order[1..], ids - {order[0]}, limit, e);
    }
  }

  // ---- whole calls of next_stream ----------------------------------------------------------------

  // A call wakes up after each batch of operations and takes one turn of its loop.  The
  // result is the inbox, the call's mark, and whether the active stream was returned.
  function Wait(x: Inbox, seen: nat, wanted: Option<nat>, batches: seq<seq<Op>>): (Inbox, nat, bool)
    decreases |batches|
  {
    if batches == [] then (x, seen, false)
    else
      var (y, mark, found) := NextStream(Fold(Apply, x, batches[0]), seen, wanted);
      if found then (y, mark, true) else Wait(y, mark, wanted, batches[1..])
  }

  // No other call is under way meanwhile.
  predicate NoPoll(ops: seq<Op>) {
    forall i :: 0 <= i < |ops| ==> !ops[i].Poll?
  }

  predicate Alone(batches: seq<seq<Op>>) {
    forall i :: 0 <= i < |batches| ==> NoPoll(batches[i])
  }

  predicate Wants(x: Inbox, wanted: Option<nat>) {
    x.active.Some? && (wanted.None? || x.active.value.begin.exchange == wanted.value)
  }

  // At some wake-up the active stream is one that is wanted and was not delivered before
  // the call.
  predicate Comes(x: Inbox, before: nat, wanted: Option<nat>, batches: seq<seq<Op>>)
    decreases |batches|
  {
    batches != [] &&
      var y := Fold(Apply, x, batches[0]);
      (Wants(y, wanted) && y.generation != before) || Comes(y, before, wanted, batches[1..])
  }

  // A generation is one stream for good.
  predicate Onward(x: Inbox, y: Inbox) {
    && y.delivered == x.delivered && x.generation <= y.generation
    && (x.generation == y.generation ==> y.active.Some? == x.active.Some?)
    && (x.generation == y.generation && x.active.Some? ==> y.active.value.begin == x.active.value.begin)
  }

  lemma RemembersOnly(x: Inbox, e: nat)
    ensures Remember(x, e) == x.(tombOrder := Remember(x, e).tombOrder, tombSet := Remember(x, e).tombSet)
  {
  }

  lemma EndedOnward(x: Inbox, why: string)
    requires x.active.Some?
    ensures var y := InvalidateActive(x, why);
      Onward(x, y) && y.active.Some? && forall e :: Onward(x, Remember(y, e)) && Onward(x, Remember(Fault(y), e))
  {
    var y := InvalidateActive(x, why);
    forall e
      ensures Onward(x, Remember(y, e)) && Onward(x, Remember(Fault(y), e))
    {
      RemembersOnly(y, e);
      RemembersOnly(Fault(y), e);
    }
  }

  lemma AfterOnward(x: Inbox, s: LS.Stream)
    requires x.active.Some? && s.begin == x.active.value.begin
    ensures Onward(x, AfterOffer(x, s))
  {
    RemembersOnly(x.(active := Some(s)), s.begin.exchange);
  }

  lemma BeginOnward(x: Inbox, b: Codec.Begin, seqNo: nat, now: nat)
    ensures Onward(x, OfferBegin(x, b, seqNo, now))
  {
    if x.active.Some? {
      EndedOnward(x, "duplicate_begin");
      EndedOnward(x, "superseded_begin");
      RemembersOnly(x, x.active.value.begin.exchange);
      RemembersOnly(InvalidateActive(x, "superseded_begin"), x.active.value.begin.exchange);
    }
  }

  lemma OthersOnward(x: Inbox, ftype: nat, exchange: nat, controller: nat)
    ensures Onward(x, Malformed(x, ftype)) && Onward(x, LinkClosed(x)) && Onward(x, Matching(x, exchange, controller).0)
  {
    if x.active.Some? {
      EndedOnward(x, "malformed");
      EndedOnward(x, "link_closed");
      EndedOnward(x, "foreign_frame");
    }
  }

  lemma PcmOnward(x: Inbox, f: Codec.Pcm, seqNo: nat, now: nat)
    ensures Onward(x, OfferPcm(x, f, seqNo, now))
  {
    OthersOnward(x, 0, f.exchange, f.controller);
    if Matching(x, f.exchange, f.controller).1 {
      AfterOnward(x, LS.OfferPcm(x.active.value, f, seqNo, now));
    }
  }

  lemma TerminalOnward(x: Inbox, t: Codec.Terminal, isAbort: bool, seqNo: nat, now: nat)
    ensures Onward(x, OfferTerminal(x, t, isAbort, seqNo, now))
  {
    OthersOnward(x, 0, t.exchange, t.controller);
    if Matching(x, t.exchange, t.controller).1 {
      AfterOnward(x, LS.OfferTerminal(x.active.value, t, isAbort, seqNo, now));
    }
  }

  lemma BeginPayloadOnward(x: Inbox, seqNo: nat, payload: bytes, now: nat)
    ensures Onward(x, BeginFrame(x, seqNo, payload, now))
  {
    OthersOnward(x, FRAME_BEGIN, 0, 0);
    var b := Codec.ParseBegin(payload);
    if b.Ok? { BeginOnward(x, b.value, seqNo, now); }
  }

  lemma PcmPayloadOnward(x: Inbox, seqNo: nat, payload: bytes, now: nat)
    ensures Onward(x, PcmFrame(x, seqNo, payload, now))
  {
    OthersOnward(x, FRAME_PCM, 0, 0);
    var f := Codec.ParsePcm(payload);
    if f.Ok? { PcmOnward(x, f.value, seqNo, now); }
  }

  lemma TerminalPayloadOnward(x: Inbox, isAbort: bool, seqNo: nat, payload: bytes, now: nat)
    ensures Onward(x, TerminalFrame(x, isAbort, seqNo, payload, now))
  {
    OthersOnward(x, if isAbort then FRAME_ABORT else FRAME_END, 0, 0);
    var t := Codec.ParseTerminal(payload);
    if t.Ok? { TerminalOnward(x, t.value, isAbort, seqNo, now); }
  }

  lemma ApplyOnward(x: Inbox, op: Op)
    requires !op.Poll?
    ensures Onward(x, Apply(x, op))
  {
    hide Onward, BeginFrame, PcmFrame, TerminalFrame, LinkClosed, Consume;
    SelfOnward(x);
    match op
    case Frame(ftype, n, p, now) =>
      BeginPayloadOnward(x, n, p, now);
      PcmPayloadOnward(x, n, p, now);
      TerminalPayloadOnward(x, ftype == FRAME_ABORT, n, p, now);
    case Closed => OthersOnward(x, 0, 0, 0);
    case Take(now) => TakeOnward(x, now);
  }

  lemma SelfOnward(x: Inbox)
    ensures Onward(x, x)
  {
  }

  lemma TakeOnward(x: Inbox, now: nat)
    ensures Onward(x, Consume(x, now))
  {
  }

  lemma {:induction false} BatchOnward(x: Inbox, ops: seq<Op>)
    requires NoPoll(ops)
    ensures Onward(x, Fold(Apply, x, ops))
    decreases ops
  {
    if ops != [] {
      ApplyOnward(x, ops[0]);
      BatchOnward(Apply(x, ops[0]), ops[1..]);
    }
  }

  // What was skipped is not wanted.
  predicate Skipped(x: Inbox, before: nat, seen: nat, wanted: Option<nat>) {
    before <= seen <= x.generation && (seen > before && seen == x.generation ==> !Wants(x, wanted))
  }

  lemma {:induction false} WaitFinds(x: Inbox, seen: nat, wanted: Option<nat>, batches: seq<seq<Op>>)
    requires Alone(batches) && Skipped(x, x.delivered, seen, wanted)
    ensures var (y, mark, found) := Wait(x, seen, wanted, batches);
      && x.generation <= y.generation
      && (found <==> Comes(x, x.delivered, wanted, batches))
      && (found ==> Wants(y, wanted) && y.generation > x.delivered && y.delivered == y.generation)
      && (!found ==> y.delivered == x.delivered)
    decreases |batches|
  {
    if batches != [] {
      BatchOnward(x, batches[0]);
      var y := Fold(Apply, x, batches[0]);
      var (z, mark, found) := NextStream(y, seen, wanted);
      if !found {
        WaitFinds(y, mark, wanted, batches[1..]);
      }
    }
  }

  // A whole call that starts at the delivered mark returns a stream exactly when one that
  // it waits for, and that nobody was given before, is there at a wake-up; it takes that
  // stream's one delivery, and never a foreign one.
  lemma FilteredDelivery(x: Inbox, wanted: Option<nat>, batches: seq<seq<Op>>)
    requires Inv(x) && Alone(batches)
    ensures var (y, mark, found) := Wait(x, x.delivered, wanted, batches);
      && (found <==> Comes(x, x.delivered, wanted, batches))
      && (found ==> Wants(y, wanted) && y.generation > x.delivered && y.delivered == y.generation)
      && (!found ==> y.delivered == x.delivered)
  {
    WaitFinds(x, x.delivered, wanted, batches);
  }

  // ---- calls that overlap ---------------------------------------------------------------------

  // A call of next_stream: what it waits for, its local mark, how many streams had been
  // given out when it started, and whether it is still waiting.
  datatype Call = Call(wanted: Option<nat>, mark: nat, start: nat, waiting: bool)

  // A stream given out: to which call, its generation, its exchange.
  datatype Gift = Gift(call: nat, gen: nat, exchange: nat)

  // The inbox, every call ever made and every stream ever given out.
  datatype World = World(x: Inbox, calls: seq<Call>, gifts: seq<Gift>)

  // A call starts, takes a turn of its loop or gives up; or something else happens.
  datatype Move = Start(wanted: Option<nat>) | Turn(c: nat) | GiveUp(c: nat) | Other(op: Op)

  predicate Waiting(w: World, c: nat) {
    c < |w.calls| && w.calls[c].waiting
  }

  // The next turn of call c returns the active stream.
  predicate Gets(w: World, c: nat) {
    Waiting(w, c) && NextStream(w.x, w.calls[c].mark, w.calls[c].wanted).2
  }

  function TakeTurn(w: World, c: nat): World
    requires Waiting(w, c)
  {
    var k := w.calls[c];
    var (y, mark, found) := NextStream(w.x, k.mark, k.wanted);
    World(y, w.calls[c := k.(mark := mark, waiting := !found)],
          if found then w.gifts + [Gift(c, w.x.generation, w.x.active.value.begin.exchange)] else w.gifts)
  }

  function Step(w: World, m: Move): World {
    match m
    case Start(wanted) => w.(calls := w.calls + [Call(wanted, w.x.delivered, |w.gifts|, true)])
    case Turn(c) => if Waiting(w, c) then TakeTurn(w, c) else w
    case GiveUp(c) => if Waiting(w, c) then w.(calls := w.calls[c := w.calls[c].(waiting := false)]) else w
    case Other(op) => if op.Poll? then w else w.(x := Apply(w.x, op))
  }

  function Run(x: Inbox, moves: seq<Move>): World {
    if moves == [] then World(x, [], []) else Step(Run(x, moves[..|moves| - 1]), moves[|moves| - 1])
  }

  // Streams are given out in order, and one generation is one exchange.
  ghost predicate GiftsOk(x: Inbox, gifts: seq<Gift>) {
    && x.delivered <= x.generation
    && (forall i :: 0 <= i < |gifts| ==> gifts[i].gen <= x.delivered)
    && (forall i :: 0 <= i < |gifts| && gifts[i].gen == x.generation ==>
          x.active.Some? && x.active.value.begin.exchange == gifts[i].exchange)
    && (forall i, j :: 0 <= i < j < |gifts| ==> gifts[i].gen <= gifts[j].gen)
    && (forall i, j :: 0 <= i < j < |gifts| && gifts[i].gen == gifts[j].gen ==> gifts[i].exchange == gifts[j].exchange)
  }

  // A call's mark is past everything that was given out before the call.
  ghost predicate CallsOk(x: Inbox, calls: seq<Call>, gifts: seq<Gift>) {
    && (forall c :: 0 <= c < |calls| ==> calls[c].mark <= x.generation && calls[c].start <= |gifts|)
    && (forall c, i :: 0 <= c < |calls| && 0 <= i < calls[c].start ==> gifts[i].gen <= calls[c].mark)
    && (forall i :: 0 <= i < |gifts| ==> gifts[i].call < |calls| && !calls[gifts[i].call].waiting)
    && (forall i :: 0 <= i < |gifts| && calls[gifts[i].call].wanted.Some? ==>
          gifts[i].exchange == calls[gifts[i].call].wanted.value)
  }

  // Whoever gets a stream that was given out before had been waiting since before that.
  ghost predicate OverlapsOnly(calls: seq<Call>, gifts: seq<Gift>) {
    forall i, j :: 0 <= i < j < |gifts| && gifts[i].gen == gifts[j].gen ==>
      gifts[j].call < |calls| && gifts[i].call != gifts[j].call && calls[gifts[j].call].start <= i
  }

  ghost predicate WorldOk(w: World) {
    GiftsOk(w.x, w.gifts) && CallsOk(w.x, w.calls, w.gifts) && OverlapsOnly(w.calls, w.gifts)
  }

  lemma OtherKeeps(w: World, op: Op)
    requires WorldOk(w) && !op.Poll?
    ensures WorldOk(w.(x := Apply(w.x, op)))
  {
    hide Apply;
    ApplyOnward(w.x, op);
  }

  lemma TurnKeeps(w: World, c: nat)
    requires WorldOk(w) && Waiting(w, c)
    ensures WorldOk(TakeTurn(w, c))
  {
    var k := w.calls[c];
    if Gets(w, c) {
      var g := Gift(c, w.x.generation, w.x.active.value.begin.exchange);
      GiftKeeps(w.x, w.gifts, g);
      GiftOverlaps(w.x, w.calls, w.gifts, g);
      CallGets(w.x, w.calls, w.gifts, g);
    } else {
      var mark := NextStream(w.x, k.mark, k.wanted).1;
      assert k.mark <= mark <= w.x.generation;
      assert w.calls[c := k.(mark := mark)][c].start == k.start;
    }
  }

  lemma GiftKeeps(x: Inbox, gifts: seq<Gift>, g: Gift)
    requires GiftsOk(x, gifts) && g.gen == x.generation && x.active.Some? && x.active.value.begin.exchange == g.exchange
    ensures GiftsOk(x.(delivered := x.generation), gifts + [g])
  {
  }

  lemma GiftOverlaps(x: Inbox, calls: seq<Call>, gifts: seq<Gift>, g: Gift)
    requires GiftsOk(x, gifts) && CallsOk(x, calls, gifts) && OverlapsOnly(calls, gifts)
    requires g.call < |calls| && calls[g.call].waiting && calls[g.call].mark < g.gen == x.generation
    ensures OverlapsOnly(calls[g.call := calls[g.call].(waiting := false)], gifts + [g])
  {
    var after := calls[g.call := calls[g.call].(waiting := false)];
    assert forall c :: 0 <= c < |calls| ==> after[c].start == calls[c].start;
  }

  lemma CallGets(x: Inbox, calls: seq<Call>, gifts: seq<Gift>, g: Gift)
    requires CallsOk(x, calls, gifts) && g.call < |calls|
    requires calls[g.call].wanted.Some? ==> calls[g.call].wanted.value == g.exchange
    ensures CallsOk(x.(delivered := x.generation), calls[g.call := calls[g.call].(waiting := false)], gifts + [g])
  {
    var after := calls[g.call := calls[g.call].(waiting := false)];
    assert forall c :: 0 <= c < |calls| ==>
      after[c] == if c == g.call then calls[c].(waiting := false) else calls[c];
  }

  lemma StepKeeps(w: World, m: Move)
    requires WorldOk(w)
    ensures WorldOk(Step(w, m))
  {
    hide WorldOk, TakeTurn, Apply;
    match m
    case Start(wanted) => StartKeeps(w, wanted);
    case Turn(c) => if Waiting(w, c) { TurnKeeps(w, c); }
    case GiveUp(c) => if Waiting(w, c) { GiveUpKeeps(w, c); }
    case Other(op) => if !op.Poll? { OtherKeeps(w, op); }
  }

  lemma StartKeeps(w: World, wanted: Option<nat>)
    requires WorldOk(w)
    ensures WorldOk(w.(calls := w.calls + [Call(wanted, w.x.delivered, |w.gifts|, true)]))
  {
  }

  lemma GiveUpKeeps(w: World, c: nat)
    requires WorldOk(w) && Waiting(w, c)
    ensures WorldOk(w.(calls := w.calls[c := w.calls[c].(waiting := false)]))
  {
    var after := w.calls[c := w.calls[c].(waiting := false)];
    assert forall k :: 0 <= k < |after| ==>
      after[k] == if k == c then w.calls[k].(waiting := false) else w.calls[k];
  }

  lemma {:induction false} RunOk(x: Inbox, moves: seq<Move>)
    requires Inv(x)
    ensures WorldOk(Run(x, moves))
    decreases |moves|
  {
    if moves != [] {
      RunOk(x, moves[..|moves| - 1]);
      StepKeeps(Run(x, moves[..|moves| - 1]), moves[|moves| - 1]);
    }
  }

  ghost predicate GivenSince(w: World, gen: nat, start: nat) {
    exists i :: start <= i < |w.gifts| && w.gifts[i].gen == gen
  }

  // The delivered mark is that of the last stream given out.
  ghost predicate MarksFrom(base: nat, w: World) {
    && (forall c :: 0 <= c < |w.calls| ==> base <= w.calls[c].mark) && base <= w.x.delivered
    && (w.x.delivered == base || (w.gifts != [] && w.gifts[|w.gifts| - 1].gen == w.x.delivered))
  }

  lemma {:induction false} RunMarks(x: Inbox, moves: seq<Move>)
    requires Inv(x)
    ensures MarksFrom(x.delivered, Run(x, moves))
    decreases |moves|
  {
    if moves != [] {
      var w, m := Run(x, moves[..|moves| - 1]), moves[|moves| - 1];
      RunMarks(x, moves[..|moves| - 1]);
      RunOk(x, moves[..|moves| - 1]);
      MarksStep(x.delivered, w, m);
    }
  }

  lemma MarksStep(base: nat, w: World, m: Move)
    requires WorldOk(w) && MarksFrom(base, w)
    ensures MarksFrom(base, Step(w, m))
  {
    if m.Other? && !m.op.Poll? {
      hide Apply;
      ApplyOnward(w.x, m.op);
    }
  }

  // In every run of any number of calls, a call gets a stream that was given out already
  // if and only if that was since the call started; and that is so exactly when the
  // shared delivered mark already stands at the active stream.
  lemma SharedExactly(x: Inbox, moves: seq<Move>, c: nat)
    requires Inv(x) && Gets(Run(x, moves), c)
    ensures var w := Run(x, moves);
      && (GivenSince(w, w.x.generation, 0) <==> GivenSince(w, w.x.generation, w.calls[c].start))
      && (GivenSince(w, w.x.generation, 0) <==> w.x.delivered == w.x.generation)
  {
    RunOk(x, moves);
    RunMarks(x, moves);
  }

  // Then the two calls overlapped and the exchange is one that both were waiting for.
  lemma SharedByOverlap(x: Inbox, moves: seq<Move>, i: nat, j: nat)
    requires Inv(x) && i < j < |Run(x, moves).gifts|
    requires Run(x, moves).gifts[i].gen == Run(x, moves).gifts[j].gen
    ensures var w := Run(x, moves); var g, h := w.gifts[i], w.gifts[j];
      && g.call != h.call && g.exchange == h.exchange && g.call < |w.calls| && h.call < |w.calls|
      && w.calls[h.call].start <= i
      && (w.calls[g.call].wanted.Some? ==> w.calls[g.call].wanted.value == h.exchange)
      && (w.calls[h.call].wanted.Some? ==> w.calls[h.call].wanted.value == h.exchange)
  {
    RunOk(x, moves);
  }

  // Each call starts when no other is waiting.
  predicate OneAtATime(x: Inbox, moves: seq<Move>) {
    moves == [] ||
    var before := moves[..|moves| - 1];
    OneAtATime(x, before)
    && (moves[|moves| - 1].Start? ==> forall c :: 0 <= c < |Run(x, before).calls| ==> !Waiting(Run(x, before), c))
  }

  ghost predicate OneWaits(w: World) {
    && (forall c :: 0 <= c < |w.calls| && w.calls[c].waiting ==> w.calls[c].start == |w.gifts|)
    && (forall c, d :: 0 <= c < d < |w.calls| ==> !w.calls[c].waiting || !w.calls[d].waiting)
    && (forall i :: 0 <= i < |w.gifts| ==> w.gifts[i].call < |w.calls| && w.calls[w.gifts[i].call].start == i)
  }

  lemma {:induction false} OneWaitsAlways(x: Inbox, moves: seq<Move>)
    requires OneAtATime(x, moves)
    ensures OneWaits(Run(x, moves))
    decreases |moves|
  {
    if moves != [] {
      OneWaitsAlways(x, moves[..|moves| - 1]);
      var w, m := Run(x, moves[..|moves| - 1]), moves[|moves| - 1];
      if m.Start? {
        forall c | 0 <= c < |w.calls|
          ensures !w.calls[c].waiting
        {
          assert !Waiting(w, c);
        }
      }
    }
  }

  // So calls made one after the other never get the same stream, and later ones get later
  // streams.
  lemma DeliveredAtMostOnce(x: Inbox, moves: seq<Move>)
    requires Inv(x) && OneAtATime(x, moves)
    ensures var gifts := Run(x, moves).gifts;
      forall i, j :: 0 <= i < j < |gifts| ==> gifts[i].gen < gifts[j].gen
  {
    RunOk(x, moves);
    OneWaitsAlways(x, moves);
  }

  // Two calls for one exchange, then its BEGIN: both calls get the stream.
  lemma OverlappingCallsShare(limits: LS.Limits, tombstones: nat, b: Codec.Begin, seqNo: nat, now: nat)
    requires Codec.ValidBegin(b)
    ensures var moves := [Start(Some(b.exchange)), Start(Some(b.exchange)),
                          Other(Frame(FRAME_BEGIN, seqNo, Codec.PackBegin(b), now)), Turn(0), Turn(1)];
      Run(Empty(b.controller, limits, tombstones), moves).gifts == [Gift(0, 1, b.exchange), Gift(1, 1, b.exchange)]
  {
    var e := Some(b.exchange);
    var x := Empty(b.controller, limits, tombstones);
    var frame := Other(Frame(FRAME_BEGIN, seqNo, Codec.PackBegin(b), now));
    var called := [Start(e), Start(e)];
    BothWait(x, e);
    assert called + [frame, Turn(0), Turn(1)] == [Start(e), Start(e), frame, Turn(0), Turn(1)];
    BothGet(x, b, seqNo, now, called);
  }

  lemma BothWait(x: Inbox, e: Option<nat>)
    ensures var k := Call(e, x.delivered, 0, true);
      Run(x, [Start(e), Start(e)]) == World(x, [k, k], [])
  {
    RunsOn(x, [], Start(e));
    RunsOn(x, [Start(e)], Start(e));
    assert [] + [Start(e)] == [Start(e)] && [Start(e)] + [Start(e)] == [Start(e), Start(e)];
  }

  lemma BothGet(x: Inbox, b: Codec.Begin, seqNo: nat, now: nat, called: seq<Move>)
    requires Codec.ValidBegin(b) && x.active.None? && x.generation == x.delivered
    requires x.controller == b.controller && b.exchange !in x.tombSet
    requires var k := Call(Some(b.exchange), x.delivered, 0, true); Run(x, called) == World(x, [k, k], [])
    ensures var g := x.generation + 1;
      Run(x, called + [Other(Frame(FRAME_BEGIN, seqNo, Codec.PackBegin(b), now)), Turn(0), Turn(1)]).gifts
        == [Gift(0, g, b.exchange), Gift(1, g, b.exchange)]
  {
    hide Apply, Install;
    var frame := Other(Frame(FRAME_BEGIN, seqNo, Codec.PackBegin(b), now));
    var y := Install(x, b, seqNo, now);
    RunsOn(x, called, frame);
    RunsOn(x, called + [frame], Turn(0));
    RunsOn(x, called + [frame] + [Turn(0)], Turn(1));
    assert called + [frame] + [Turn(0)] + [Turn(1)] == called + [frame, Turn(0), Turn(1)];
    Installed(x, b, seqNo, now);
    var w := Run(x, called + [frame]);
    assert w == World(y, Run(x, called).calls, []);
  }

  lemma Installed(x: Inbox, b: Codec.Begin, seqNo: nat, now: nat)
    requires Codec.ValidBegin(b) && x.active.None? && x.controller == b.controller && b.exchange !in x.tombSet
    ensures Apply(x, Frame(FRAME_BEGIN, seqNo, Codec.PackBegin(b), now)) == Install(x, b, seqNo, now)
    ensures var y := Install(x, b, seqNo, now);
      y.active.Some? && y.active.value.begin == b && y.generation == x.generation + 1 && y.delivered == x.delivered
  {
    Codec.BeginRoundTrip(b);
  }

  lemma RunsOn(x: Inbox, moves: seq<Move>, m: Move)
    ensures Run(x, moves + [m]) == Step(Run(x, moves), m)
  {
    assert (moves + [m])[..|moves|] == moves;
  }

  // ---- the object ------------------------------------------------------------------------------------

  class LivePcmInbox {
    const controller: nat
    const limits: LS.Limits
    const tombstoneLimit: nat
    var active: LS.LivePcmStream?
    var generation: nat
    var deliveredGeneration: nat
    var tombstoneOrder: seq<nat>
    var tombstoneSet: set<nat>
    var faultCount: nat
    var lateFrameCount: nat
    ghost var retired: seq<LS.Stream>

    ghost function View(): Inbox
      reads this, active
    {
      Inbox(controller, limits, if active == null then None else Some(active.View()), generation,
            deliveredGeneration, tombstoneLimit, tombstoneOrder, tombstoneSet, faultCount, lateFrameCount, retired)
    }

    constructor (controller: nat, limits: LS.Limits, tombstones: nat)
      ensures View() == Empty(controller, limits, tombstones) && active == null
    {
      this.controller, this.limits := controller, limits;
      tombstoneLimit := if tombstones < 1 then 1 else tombstones;
      active, generation, deliveredGeneration, tombstoneOrder, tombstoneSet := null, 0, 0, [], {};
      faultCount, lateFrameCount, retired := 0, 0, [];
    }

    method RememberTombstone(exchange: nat)
      modifies this`tombstoneOrder, this`tombstoneSet
      ensures View() == Remember(old(View()), exchange)
    {
      if exchange in tombstoneSet {
        return;
      }
      tombstoneOrder := tombstoneOrder + [exchange];
      tombstoneSet := tombstoneSet + {exchange};
      ghost var order, ids := tombstoneOrder, tombstoneSet;
      while |tombstoneOrder| > tombstoneLimit
        invariant DropOldest(tombstoneOrder, tombstoneSet, tombstoneLimit) == DropOldest(order, ids, tombstoneLimit)
        decreases |tombstoneOrder|
      {
        var oldest := tombstoneOrder[0];
        tombstoneOrder := tombstoneOrder[1..];
        tombstoneSet := tombstoneSet - {oldest};
      }
    }

    method MalformedFrame(ftype: nat)
      modifies this, active
      ensures View() == Malformed(old(View()), ftype) && active == old(active)
    {
      if active != null && active.terminal.None? && ftype != FRAME_BEGIN {
        active.InvalidateStream("malformed", 0);
        RememberTombstone(active.begin.exchange);
      }
      faultCount := faultCount + 1;
    }

    method OfferBeginFrame(b: Codec.Begin, seqNo: nat, now: nat)
      modifies this, active
      ensures View() == OfferBegin(old(View()), b, seqNo, now)
      ensures active == old(active) || fresh(active)
    {
      if b.controller != controller {
        faultCount := faultCount + 1;
        return;
      }
      if b.exchange in tombstoneSet {
        lateFrameCount := lateFrameCount + 1;
        return;
      }
      if active != null {
        if active.begin.exchange == b.exchange {
          active.InvalidateStream("duplicate_begin", 0);
          faultCount := faultCount + 1;
          RememberTombstone(b.exchange);
          return;
        }
        if active.terminal.None? {
          active.InvalidateStream("superseded_begin", 0);
        }
        RememberTombstone(active.begin.exchange);
        retired := retired + [active.View()];
      }
      active := new LS.LivePcmStream(b, seqNo, now, limits);
      generation := generation + 1;
    }

    method MatchingStream(exchange: nat, frameController: nat) returns (stream: LS.LivePcmStream?)
      modifies this, active
      ensures View() == Matching(old(View()), exchange, frameController).0 && active == old(active)
      ensures Matching(old(View()), exchange, frameController).1 <==> stream != null
      ensures stream != null ==> stream == active
    {
      if exchange in tombstoneSet {
        lateFrameCount := lateFrameCount + 1;
        return null;
      }
      if active == null {
        faultCount := faultCount + 1;
        return null;
      }
      if frameController != controller || exchange != active.begin.exchange {
        active.InvalidateStream("foreign_frame", 0);
        faultCount := faultCount + 1;
        RememberTombstone(active.begin.exchange);
        return null;
      }
      return active;
    }

    method OfferPcmPayload(f: Codec.Pcm, seqNo: nat, now: nat)
      modifies this, active
      ensures View() == OfferPcm(old(View()), f, seqNo, now) && active == old(active)
    {
      var stream := MatchingStream(f.exchange, f.controller);
      if stream != null {
        stream.OfferPcmFrame(f, seqNo, now);
        if stream.terminal.Some? {
          RememberTombstone(stream.begin.exchange);
        }
      }
    }

    method OfferTerminalPayload(t: Codec.Terminal, isAbort: bool, seqNo: nat, now: nat)
      modifies this, active
      ensures View() == OfferTerminal(old(View()), t, isAbort, seqNo, now) && active == old(active)
    {
      var stream := MatchingStream(t.exchange, t.controller);
      if stream != null {
        stream.OfferTerminalFrame(t, isAbort, seqNo, now);
        if stream.terminal.Some? {
          RememberTombstone(stream.begin.exchange);
        }
      }
    }

    method OfferRawFrame(ftype: nat, seqNo: nat, payload: bytes, now: nat) returns (claimed: bool)
      modifies this, active
      ensures (View(), claimed) == OfferFrame(old(View()), ftype, seqNo, payload, now)
      ensures active == old(active) || fresh(active)
    {
      if ftype == FRAME_BEGIN {
        var b := Codec.ParseBegin(payload);
        if b.Err? { MalformedFrame(ftype); } else { OfferBeginFrame(b.value, seqNo, now); }
      } else if ftype == FRAME_PCM {
        var f := Codec.ParsePcm(payload);
        if f.Err? { MalformedFrame(ftype); } else { OfferPcmPayload(f.value, seqNo, now); }
      } else if ftype == FRAME_END || ftype == FRAME_ABORT {
        var t := Codec.ParseTerminal(payload);
        if t.Err? { MalformedFrame(ftype); } else { OfferTerminalPayload(t.value, ftype == FRAME_ABORT, seqNo, now); }
      } else {
        return false;
      }
      return true;
    }

    method OnLinkClosed()
      modifies this, active
      ensures View() == LinkClosed(old(View())) && active == old(active)
    {
      if active != null && active.terminal.None? {
        active.InvalidateStream("link_closed", 0);
        RememberTombstone(active.begin.exchange);
      }
    }

    // One turn of next_stream's loop.
    method TryNextStream(seen: nat, wanted: Option<nat>) returns (stream: LS.LivePcmStream?, mark: nat)
      modifies this
      ensures active == old(active)
      ensures (View(), mark, stream != null) == NextStream(old(View()), seen, wanted)
      ensures stream != null ==> stream == active
    {
      mark := seen;
      if active != null && generation != seen {
        if wanted.None? || active.begin.exchange == wanted.value {
          deliveredGeneration := generation;
          return active, mark;
        }
        mark := generation;
      }
      return null, mark;
    }
  }
  // Whatever comes next, the object takes the step and keeps the invariant.
  method Act(p: LivePcmInbox, op: Op)
    requires Inv(p.View()) && (op.Frame? ==> op.seqNo < 0x10000)
    modifies p, p.active
    ensures p.View() == Apply(old(p.View()), op) && Inv(p.View())
    ensures p.active == old(p.active) || fresh(p.active)
  {
    ApplyKeeps(p.View(), op);
    ActiveKeeps(p.View());
    hide Inv;
    match op
    case Frame(ftype, n, payload, now) => var _ := p.OfferRawFrame(ftype, n, payload, now);
    case Closed => p.OnLinkClosed();
    case Take(now) =>
      if p.active != null {
        var _ := p.active.TryNextItem(now);
      }
    case Poll(seen, wanted) => var _, _ := p.TryNextStream(seen, wanted);
  }

  lemma ActiveKeeps(x: Inbox)
    requires Inv(x)
    ensures x.active.Some? ==> LS.Inv(x.active.value)
  {
  }

  // An inbox driven through any operations keeps its invariant.
  method Operate(controller: nat, limits: LS.Limits, tombstones: nat, ops: seq<Op>) returns (p: LivePcmInbox)
    requires forall i :: 0 <= i < |ops| && ops[i].Frame? ==> ops[i].seqNo < 0x10000
    ensures fresh(p) && p.View() == Fold(Apply, Empty(controller, limits, tombstones), ops) && Inv(p.View())
  {
    p := new LivePcmInbox(controller, limits, tombstones);
    assert ops[0..] == ops;
    for i := 0 to |ops|
      invariant fresh(p) && (p.active != null ==> fresh(p.active)) && Inv(p.View())
      invariant Fold(Apply, p.View(), ops[i..]) == Fold(Apply, Empty(controller, limits, tombstones), ops)
    {
      hide Apply;
      assert ops[i..][0] == ops[i] && ops[i..][1..] == ops[i + 1..];
      Act(p, ops[i]);
    }
  }
}
