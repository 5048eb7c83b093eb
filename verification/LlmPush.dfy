// One answer streamed to the device: text cut into chunks, each pushed under its own
// sequence number with at most one replay, over a link that may lose the line or only
// the reply.  The device ignores a sequence number it has already applied.

module LlmPush {
  import opened Bytes
  import opened Greedy
  import opened TextSplit
  import opened PushWire

  datatype Status = Done | Broken | Stopped

  datatype Line = Push(seqNo: nat, payload: string) | Finish(status: Status)

  // ---- the device ------------------------------------------------------------------------

  // One generation as the device sees it: the next sequence number it will apply, the
  // text it has appended, and how the generation was closed.
  datatype Device = Device(expected: nat, text: string, ended: Option<Status>)

  const DECODE_MAX := 255
  const PUSH_MAX_BYTES := 200

  // The decode buffer silently truncates.
  function Clip(s: string): string {
    if Utf8Len(s) <= DECODE_MAX then s else Clip(s[..|s| - 1])
  }

  predicate Accepts(d: Device, line: Line) {
    d.ended.None? && (line.Push? ==> line.seqNo <= d.expected)
  }

  function Take(d: Device, line: Line): Device {
    if !Accepts(d, line) then d
    else match line
      case Finish(status) => d.(ended := Some(status))
      case Push(n, payload) =>
        if n < d.expected then d else Device(d.expected + 1, d.text + Clip(Unescape(Trim(payload))), None)
  }

  // Why a replay is harmless.
  lemma TakeTwice(d: Device, line: Line)
    ensures Take(Take(d, line), line) == Take(d, line)
  {
  }

  // A chunk of at most PUSH_MAX_BYTES arrives as it was cut: not trimmed, not truncated.
  lemma ChunkArrives(d: Device, part: string)
    requires d.ended.None? && IsWireSafe(part) && Utf8Len(part) <= PUSH_MAX_BYTES
    ensures Take(d, Push(d.expected, Escape(part))) == Device(d.expected + 1, d.text + part, None)
  {
    TrimSpares(part);
  }

  // ---- the link --------------------------------------------------------------------------

  // What becomes of one write.  handled says whether the device got to act on the line
  // although its own answer did not come back.
  datatype Outcome =
    | Answered
    | Lost(handled: bool)
    | Damaged
    | Unknown(handled: bool)
    | Rejected(handled: bool)
    | Failed(handled: bool)
    | Down(handled: bool)
    | Cancelled(handled: bool)

  predicate Reaches(o: Outcome) {
    o.Answered? || (!o.Damaged? && o.handled)
  }

  datatype Reply = Okay | Refusal | Corrupt | Missing | TimedOut | Raised | LinkClosed | TaskCancelled

  class Link {
    const world: nat -> Outcome
    var at: nat
    var device: Device
    var written: seq<Line>

    constructor (world: nat -> Outcome)
      ensures this.world == world && at == 0 && device == Device(0, "", None) && written == []
    {
      this.world, at, device, written := world, 0, Device(0, "", None), [];
    }

    // Session.command with replay and auth_replay off: one write.
    method Command(line: Line) returns (reply: Reply)
      modifies this
      ensures at == old(at) + 1 && written == old(written) + [line]
      ensures device == if Reaches(world(old(at))) then Take(old(device), line) else old(device)
      ensures reply.Okay? <==> world(old(at)).Answered? && Accepts(old(device), line)
      ensures reply.Refusal? <==>
        world(old(at)).Rejected? || (world(old(at)).Answered? && !Accepts(old(device), line))
      ensures reply.Corrupt? <==> world(old(at)).Damaged?
      ensures reply.Missing? <==> world(old(at)).Unknown?
      ensures reply.TimedOut? <==> world(old(at)).Lost?
      ensures reply.Raised? <==> world(old(at)).Failed?
      ensures reply.LinkClosed? <==> world(old(at)).Down?
    {
      var o := world(at);
      var ok := Accepts(device, line);
      if Reaches(o) {
        device := Take(device, line);
      }
      at, written := at + 1, written + [line];
      reply := match o
        case Answered => if ok then Okay else Refusal
        case Lost(_) => TimedOut
        case Damaged => Corrupt
        case Unknown(_) => Missing
        case Rejected(_) => Refusal
        case Failed(_) => Raised
        case Down(_) => LinkClosed
        case Cancelled(_) => TaskCancelled;
    }
  }

  // A link on which a lost reply or a damaged line is always followed by a good write.
  ghost predicate Calm(world: nat -> Outcome) {
    forall i: nat ::
      (world(i).Answered? || world(i).Lost? || world(i).Damaged?) && (world(i).Answered? || world(i + 1).Answered?)
  }

  // ---- the order of writes ------------------------------------------------------------------

  predicate Follows(a: Line, b: Line) {
    if a.Finish? then b == a else b.Finish? || b == a || b.seqNo == a.seqNo + 1
  }

  // Sequence numbers 0, 1, 2, ... without a gap, every line at most twice and the second
  // time unchanged, and nothing but its own replay after the closing line.
  ghost predicate Orderly(w: seq<Line>) {
    && (w != [] && w[0].Push? ==> w[0].seqNo == 0)
    && (forall i :: 0 <= i < |w| - 1 ==> Follows(w[i], w[i + 1]))
    && (forall i :: 0 <= i < |w| - 2 ==> w[i] != w[i + 2])
  }

  // Nothing is written but pushes below n, and the last one is n - 1.
  predicate UpTo(w: seq<Line>, n: nat) {
    if w == [] then n == 0 else w[|w| - 1].Push? && w[|w| - 1].seqNo + 1 == n
  }

  predicate Unfinished(w: seq<Line>) {
    w == [] || w[|w| - 1].Push?
  }

  function Copies(line: Line, k: nat): (c: seq<Line>)
    ensures |c| == k && forall i :: 0 <= i < k ==> c[i] == line
  {
    if k == 0 then [] else [line] + Copies(line, k - 1)
  }

  ghost predicate Wrote(before: seq<Line>, after: seq<Line>, line: Line, most: nat) {
    exists k: nat :: k <= most && after == before + Copies(line, k)
  }

  lemma WriteKeepsOrder(w: seq<Line>, line: Line, k: nat)
    requires Orderly(w) && k <= 2
    requires if line.Push? then UpTo(w, line.seqNo) else Unfinished(w)
    ensures Orderly(w + Copies(line, k))
    ensures line.Push? && k > 0 ==> UpTo(w + Copies(line, k), line.seqNo + 1)
    ensures line.Push? ==> Unfinished(w + Copies(line, k))
  {
    var v := w + Copies(line, k);
    forall i | 0 <= i < |v| - 2
      ensures v[i] != v[i + 2]
    {
      if i + 2 >= |w| {
        if i < |w| - 1 {
          assert Follows(w[i], w[i + 1]);
        }
      }
    }
  }

  // ---- the bridge ----------------------------------------------------------------------------

  datatype Sent = Accepted | GaveUp | Threw(cancelled: bool)

  class Generation {
    var seqNo: nat
    var isOpen: bool
    var aborted: bool

    constructor ()
      ensures seqNo == 0 && !isOpen && !aborted
    {
      seqNo, isOpen, aborted := 0, false, false;
    }
  }

  // A line the device would accept gets through a calm link.
  ghost predicate Serves(world: nat -> Outcome, live: bool, before: Device, line: Line) {
    Calm(world) && live && Accepts(before, line)
  }

  // One of the writes from, .. to - 1 was cancelled, met a closed link, was not answered.
  ghost predicate Cancels(world: nat -> Outcome, from: nat, to: nat) {
    exists i: nat :: from <= i < to && world(i).Cancelled?
  }

  ghost predicate Closes(world: nat -> Outcome, from: nat, to: nat) {
    exists i: nat :: from <= i < to && world(i).Down?
  }

  ghost predicate Fails(world: nat -> Outcome, from: nat, to: nat) {
    exists i: nat :: from <= i < to && !world(i).Answered?
  }

  // What it takes for a line not to be accepted: cancellation, a link that went down, or
  // at the least a write that was not answered or not made.
  ghost predicate Explained(sent: Sent, world: nat -> Outcome, from: nat, to: nat, live: bool) {
    && from <= to
    && (sent.Threw? && sent.cancelled ==> Cancels(world, from, to))
    && (sent.Threw? && !sent.cancelled ==> Closes(world, from, to))
    && (sent.GaveUp? ==> !live || Fails(world, from, to))
  }

  lemma ExplainedLater(sent: Sent, world: nat -> Outcome, from: nat, mid: nat, to: nat, live: bool, now: bool)
    requires from <= mid && (live ==> now) && Explained(sent, world, mid, to, now)
    ensures Explained(sent, world, from, to, live)
  {
  }

  class Bridge {
    const link: Link
    var supported: Option<bool>
    var closed: bool

    constructor (link: Link, supported: Option<bool>, closed: bool)
      ensures this.link == link && this.supported == supported && this.closed == closed
    {
      this.link, this.supported, this.closed := link, supported, closed;
    }

    predicate Live(force: bool)
      reads this
    {
      !closed && (force || supported != Some(false))
    }

    method Send(line: Line, retryIdempotent: bool, force: bool) returns (sent: Sent)
      modifies this`supported, link
      ensures Wrote(old(link.written), link.written, line, if retryIdempotent then 2 else 1)
      ensures sent.Accepted? ==> |link.written| > |old(link.written)|
      ensures link.device == old(link.device) || link.device == Take(old(link.device), line)
      ensures sent.Accepted? ==> link.device == Take(old(link.device), line) && Accepts(old(link.device), line)
      ensures old(supported) == Some(true) ==> supported == Some(true)
      ensures retryIdempotent && Serves(link.world, old(Live(force)), old(link.device), line) ==>
        && link.device == Take(old(link.device), line) && (line.Push? ==> sent.Accepted?)
        && (old(supported) != Some(false) ==> supported != Some(false))
      ensures Accepts(old(link.device), line) ==> Explained(sent, link.world, old(link.at), link.at, old(Live(force)))
      ensures sent.Accepted? ==> Live(false)
      ensures link.at - old(link.at) == |link.written| - |old(link.written)|
    {
      assert link.written == link.written + Copies(line, 0);
      assert Wrote(link.written, link.written, line, 0);
      if closed {
        return GaveUp;
      }
      if supported == Some(false) && !force {
        return GaveUp;
      }
      ghost var before, log, at := link.device, link.written, link.at;
      for attempt := 1 to 3
        invariant attempt <= (if retryIdempotent then 2 else 1) && link.written == log + Copies(line, attempt - 1)
        invariant link.device == before || link.device == Take(before, line)
        invariant attempt == 1 ==> link.device == before
        invariant attempt == 2 ==> link.at > 0 && !link.world(link.at - 1).Answered?
        invariant link.at == at + attempt - 1
        invariant supported == old(supported)
      {
        TakeTwice(before, line);
        var last := attempt == 2 || !retryIdempotent;
        var reply := link.Command(line);
        MoreCopies(log, line, attempt - 1);
        assert Wrote(log, link.written, line, attempt);
        match reply
        case LinkClosed => return Threw(false);
        case TaskCancelled => return Threw(true);
        case TimedOut =>
          if last {
            return GaveUp;
          }
        case Raised => return GaveUp;
        case Okay =>
          supported := Some(true);
          return Accepted;
        case Corrupt =>
          if last {
            return GaveUp;
          }
        case Missing =>
          if supported.None? {
            supported := Some(false);
            return GaveUp;
          }
          if last {
            return GaveUp;
          }
        case Refusal => return GaveUp;
      }
      assert false;
    }

    // The turn is going well: the device has applied exactly what was acknowledged.
    ghost predicate InStep(gen: Generation, text: string)
      reads this, link, gen
    {
      && !gen.aborted && link.device == Device(gen.seqNo, text, None)
      && Orderly(link.written) && UpTo(link.written, gen.seqNo)
    }

    // The turn is lost: the device holds some start of the text and nothing more is pushed.
    ghost predicate Astray(text: string)
      reads this, link
    {
      link.device.ended.None? && link.device.text <= text && Orderly(link.written) && Unfinished(link.written)
    }

    ghost predicate Fair()
      reads this, link
    {
      Calm(link.world) && Live(false)
    }

    method PushChunk(gen: Generation, part: string, ghost text: string) returns (sent: Sent)
      requires InStep(gen, text) && IsWireSafe(part) && Utf8Len(part) <= PUSH_MAX_BYTES
      modifies this`supported, link, gen
      ensures gen.isOpen == old(gen.isOpen) && gen.aborted == sent.GaveUp?
      ensures if sent.Accepted? then InStep(gen, text + part) else Astray(text + part)
      ensures old(Fair()) ==> sent.Accepted? && Fair()
      ensures Explained(sent, link.world, old(link.at), link.at, old(Live(false)))
      ensures sent.Accepted? && old(Live(false)) ==> Live(false)
      ensures link.at - old(link.at) == |link.written| - |old(link.written)|
      ensures sent.Accepted? ==> |link.written| > |old(link.written)|
    {
      var line := Push(gen.seqNo, Escape(part));
      ChunkArrives(link.device, part);
      ghost var log := link.written;
      sent := Send(line, true, false);
      ghost var k :| 0 <= k <= 2 && link.written == log + Copies(line, k);
      WriteKeepsOrder(log, line, k);
      if sent.Accepted? {
        gen.seqNo := gen.seqNo + 1;
      } else if sent.GaveUp? {
        gen.aborted := true;
      }
    }

    // One delta group: cut to the size the device can decode, pushed in order until one
    // part is not accepted.
    method PushText(gen: Generation, group: string, ghost text: string) returns (sent: Sent)
      requires InStep(gen, text) && IsWireSafe(group)
      modifies this`supported, link, gen
      ensures gen.aborted == sent.GaveUp?
      ensures if sent.Accepted? then InStep(gen, text + group) else Astray(text + group)
      ensures old(Fair()) ==> sent.Accepted? && Fair()
      ensures Explained(sent, link.world, old(link.at), link.at, old(Live(false)))
      ensures sent.Accepted? && old(Live(false)) ==> Live(false)
      ensures link.at - old(link.at) == |link.written| - |old(link.written)|
    {
      FourIsEnough(PUSH_MAX_BYTES, group);
      var split := SplitForPush(group, PUSH_MAX_BYTES);
      var parts := split.value;
      ghost var fair, so, at, live := Fair(), text, link.at, Live(false);
      sent := Accepted;
      assert parts[0..] == parts;
      for i := 0 to |parts|
        invariant sent.Accepted? && InStep(gen, so)
        invariant so + Concat(parts[i..]) == text + group && IsWireSafe(Concat(parts[i..]))
        invariant fair ==> Fair()
        invariant at <= link.at && (live ==> Live(false)) && link.at - at == |link.written| - |old(link.written)|
      {
        NextPart(parts, i, so);
        assert FitsBytes(PUSH_MAX_BYTES)(parts[i]);
        ghost var mid, now := link.at, Live(false);
        sent := PushChunk(gen, parts[i], so);
        ExplainedLater(sent, link.world, at, mid, link.at, live, now);
        if !sent.Accepted? {
          return;
        }
        so := so + parts[i];
        gen.isOpen := true;
      }
      assert so + "" == so;
    }

    method Keepalive(gen: Generation, ghost text: string) returns (sent: Sent)
      requires InStep(gen, text)
      modifies this`supported, link, gen
      ensures gen.aborted == sent.GaveUp?
      ensures if sent.Accepted? then InStep(gen, text) else Astray(text)
      ensures old(Fair()) ==> sent.Accepted? && Fair()
      ensures Explained(sent, link.world, old(link.at), link.at, old(Live(false)))
      ensures sent.Accepted? && old(Live(false)) ==> Live(false)
      ensures link.at - old(link.at) == |link.written| - |old(link.written)|
      ensures sent.Accepted? ==> |link.written| > |old(link.written)|
    {
      assert text + "" == text;
      sent := PushChunk(gen, "", text);
    }

    // Push every chunk of acc that is due.
    method Flush(gen: Generation, acc: string, start: nat) returns (sent: nat, last: Sent)
      requires start <= |acc| && IsWireSafe(acc) && InStep(gen, acc[..start])
      modifies this`supported, link, gen
      ensures sent <= |acc| && gen.aborted == last.GaveUp?
      ensures if last.Accepted? then InStep(gen, acc[..sent]) else Astray(acc)
      ensures old(Fair()) ==> last.Accepted? && Fair()
      ensures Explained(last, link.world, old(link.at), link.at, old(Live(false)))
      ensures last.Accepted? && old(Live(false)) ==> Live(false)
      ensures link.at - old(link.at) == |link.written| - |old(link.written)|
    {
      sent, last := start, Accepted;
      ghost var fair, at, live := Fair(), link.at, Live(false);
      while !gen.aborted
        invariant sent <= |acc| && gen.aborted == last.GaveUp? && !last.Threw?
        invariant if last.Accepted? then InStep(gen, acc[..sent]) else Astray(acc)
        invariant fair ==> last.Accepted? && Fair()
        invariant Explained(last, link.world, at, link.at, live) && (last.Accepted? && live ==> Live(false))
        invariant link.at - at == |link.written| - |old(link.written)|
        decreases !gen.aborted, |acc| - sent
      {
        var cut := FlushPoint(acc, sent, gen.isOpen);
        if cut.None? {
          break;
        }
        assert acc[..sent] + acc[sent..cut.value] == acc[..cut.value];
        assert IsWireSafe(acc[sent..cut.value]);
        ghost var mid, now := link.at, Live(false);
        last := PushText(gen, acc[sent..cut.value], acc[..sent]);
        ExplainedLater(last, link.world, at, mid, link.at, live, now);
        if last.Threw? {
          return;
        }
        sent := cut.value;
      }
    }
  }

  lemma NextPart(parts: seq<string>, i: nat, so: string)
    requires i < |parts| && IsWireSafe(Concat(parts[i..]))
    ensures IsWireSafe(parts[i]) && IsWireSafe(Concat(parts[i + 1..]))
    ensures so + parts[i] + Concat(parts[i + 1..]) == so + Concat(parts[i..])
  {
    var part, rest := parts[i], Concat(parts[i + 1..]);
    assert parts[i..][1..] == parts[i + 1..];
    assert Concat(parts[i..]) == part + rest;
    Regroup(so, part, rest);
    SafeParts(part, rest);
  }

  lemma SafeParts(a: string, b: string)
    requires IsWireSafe(a + b)
    ensures IsWireSafe(a) && IsWireSafe(b)
  {
    assert forall j :: 0 <= j < |a| ==> (a + b)[j] == a[j];
    assert forall j :: 0 <= j < |b| ==> (a + b)[|a| + j] == b[j];
  }

  lemma MoreCopies(w: seq<Line>, line: Line, k: nat)
    ensures w + Copies(line, k) + [line] == w + Copies(line, k + 1)
  {
  }

  // ---- one answer ------------------------------------------------------------------------------

  // What the model's stream yields: a delta, seen with the state of the cancel flag and
  // with whether the device's stall clock is half gone; or the stream or the task fails.
  datatype Event = Delta(text: string, cancelled: bool, due: bool) | StreamFailed | TaskKilled

  // The model's whole output, normalised for the wire.
  function Output(events: seq<Event>): (text: string)
    ensures IsWireSafe(text)
  {
    if events == [] then ""
    else
      var last := events[|events| - 1];
      var before := Output(events[..|events| - 1]);
      if last.Delta? then before + WireSafe(last.text) else before
  }

  predicate Plain(events: seq<Event>) {
    forall i :: 0 <= i < |events| ==> events[i].Delta? && !events[i].cancelled
  }

  // How the events alone end the turn: by the first that is not a plain delta.
  function EndsAs(events: seq<Event>): Status {
    if events == [] then Done
    else match events[0]
      case Delta(_, cancelled, _) => if cancelled then Stopped else EndsAs(events[1..])
      case StreamFailed => Broken
      case TaskKilled => Stopped
  }

  lemma PlainRest(events: seq<Event>)
    requires events != []
    ensures Plain(events) <==> events[0].Delta? && !events[0].cancelled && Plain(events[1..])
  {
    assert forall k :: 0 < k < |events| ==> events[k] == events[1..][k - 1];
  }

  lemma {:induction false} EndsAfter(events: seq<Event>, i: nat)
    requires i <= |events| && Plain(events[..i])
    ensures EndsAs(events) == EndsAs(events[i..])
    ensures i == |events| ==> EndsAs(events) == Done
    decreases i
  {
    if i > 0 {
      PlainRest(events[..i]);
      assert events[1..][..i - 1] == events[..i][1..];
      EndsAfter(events[1..], i - 1);
      assert events[1..][i - 1..] == events[i..];
    } else {
      assert events[0..] == events;
    }
  }

  // The first event that is not a plain delta decides.
  lemma EndsAt(events: seq<Event>, i: nat)
    requires i < |events| && Plain(events[..i])
    ensures events[i].StreamFailed? ==> EndsAs(events) == Broken
    ensures events[i].TaskKilled? || (events[i].Delta? && events[i].cancelled) ==> EndsAs(events) == Stopped
  {
    EndsAfter(events, i);
  }

  lemma NothingYet()
    ensures Output([]) == "" && Plain([])
  {
  }

  lemma {:induction false} PlainEnds(events: seq<Event>)
    ensures EndsAs(events) == Done <==> Plain(events)
    decreases |events|
  {
    if events != [] {
      PlainEnds(events[1..]);
      PlainRest(events);
    }
  }

  // What makes a turn end otherwise than its events say.
  ghost predicate Justified(status: Status, events: seq<Event>, world: nat -> Outcome, from: nat, to: nat, live: bool) {
    && (status == Done ==> EndsAs(events) == Done)
    && (status == Stopped ==> EndsAs(events) == Stopped || Cancels(world, from, to))
    && (status == Broken ==> EndsAs(events) == Broken || !live || Fails(world, from, to))
  }

  lemma JustifiedLater(status: Status, events: seq<Event>, world: nat -> Outcome, n: nat, m: nat, live: bool)
    requires n <= m && Justified(status, events, world, 0, n, live)
    ensures Justified(status, events, world, 0, m, live)
  {
  }

  lemma NextOutput(events: seq<Event>, i: nat)
    requires i < |events|
    ensures events[..i + 1] == events[..i] + [events[i]]
    ensures events[i].Delta? ==> Output(events[..i + 1]) == Output(events[..i]) + WireSafe(events[i].text)
    ensures Plain(events[..i + 1]) <==> Plain(events[..i]) && events[i].Delta? && !events[i].cancelled
  {
    var now, next := events[..i], events[..i + 1];
    assert next == now + [events[i]] && next[..i] == now;
    if Plain(next) {
      assert next[i] == events[i];
      forall k | 0 <= k < i ensures now[k].Delta? && !now[k].cancelled {
        assert next[k] == now[k];
      }
    }
  }

  lemma {:induction false} OutputGrows(events: seq<Event>, i: nat)
    requires i <= |events|
    ensures Output(events[..i]) <= Output(events)
    decreases |events|
  {
    if i == |events| {
      assert events[..i] == events;
    } else {
      OutputGrows(events[..|events| - 1], i);
      assert events[..|events| - 1][..i] == events[..i];
    }
  }

  // How a turn may stand when its stream is over and only the closing line is left.
  ghost predicate Streamed(bridge: Bridge, events: seq<Event>, status: Status)
    reads bridge, bridge.link
  {
    && bridge.Astray(Output(events))
    && (status.Done? ==> bridge.link.device.text == Output(events) && Plain(events))
  }

  ghost predicate OnCourse(bridge: Bridge, gen: Generation, acc: string, sent: nat)
    reads bridge, bridge.link, gen
  {
    sent <= |acc| && if gen.aborted then bridge.Astray(acc) else bridge.InStep(gen, acc[..sent])
  }

  // One delta: append it, push what is due, keep the device's stall clock alive.
  method OnDelta(bridge: Bridge, gen: Generation, was: string, start: nat, delta: string, due: bool)
    returns (acc: string, sent: nat, last: Sent)
    requires !gen.aborted && OnCourse(bridge, gen, was, start)
    requires IsWireSafe(was)
    modifies bridge`supported, bridge.link, gen
    ensures acc == was + WireSafe(delta)
    ensures if last.Threw? then bridge.Astray(acc) else OnCourse(bridge, gen, acc, sent)
    ensures old(bridge.Fair()) ==> last.Accepted? && bridge.Fair() && !gen.aborted
    ensures Explained(last, bridge.link.world, old(bridge.link.at), bridge.link.at, old(bridge.Live(false)))
    ensures gen.aborted == last.GaveUp? && (last.Accepted? && old(bridge.Live(false)) ==> bridge.Live(false))
    ensures bridge.link.at - old(bridge.link.at) == |bridge.link.written| - |old(bridge.link.written)|
    // The stall clock is kept alive.
    ensures due && last.Accepted? ==> |bridge.link.written| > |old(bridge.link.written)|
  {
    acc := was + WireSafe(delta);
    assert acc[..start] == was[..start];
    ghost var at, live := bridge.link.at, bridge.Live(false);
    sent, last := bridge.Flush(gen, acc, start);
    if last.Accepted? && due {
      ghost var mid, now := bridge.link.at, bridge.Live(false);
      last := bridge.Keepalive(gen, acc[..sent]);
      ExplainedLater(last, bridge.link.world, at, mid, bridge.link.at, live, now);
    }
  }

  // The loop over the deltas.  None: all of them were taken and what is left of the text
  // is to be pushed; otherwise how the turn ends.
  method TakeDeltas(bridge: Bridge, gen: Generation, events: seq<Event>)
    returns (acc: string, sent: nat, end: Option<Status>)
    requires bridge.InStep(gen, "")
    modifies bridge`supported, bridge.link, gen
    ensures end.None? ==> Plain(events) && acc == Output(events) && !gen.aborted && OnCourse(bridge, gen, acc, sent)
    ensures end.Some? ==> !end.value.Done? && Streamed(bridge, events, end.value)
    ensures old(bridge.Fair()) ==>
      bridge.Fair() && end == if EndsAs(events) == Done then None else Some(EndsAs(events))
    ensures bridge.link.at - old(bridge.link.at) == |bridge.link.written| - |old(bridge.link.written)|
    ensures old(bridge.link.at) <= bridge.link.at && (end.None? && old(bridge.Live(false)) ==> bridge.Live(false))
    ensures end.Some? ==>
      Justified(end.value, events, bridge.link.world, old(bridge.link.at), bridge.link.at, old(bridge.Live(false)))
  {
    hide EndsAs, Plain, Output, Calm;
    NothingYet();
    ghost var fair, at, live := bridge.Fair(), bridge.link.at, bridge.Live(false);
    acc, sent := "", 0;
    assert events[..0] == [];
    for i := 0 to |events|
      invariant acc == Output(events[..i]) && Plain(events[..i]) && OnCourse(bridge, gen, acc, sent)
      invariant fair ==> bridge.Fair() && !gen.aborted
      invariant at <= bridge.link.at && (live && !gen.aborted ==> bridge.Live(false))
      invariant bridge.link.at - at == |bridge.link.written| - |old(bridge.link.written)|
      invariant gen.aborted ==> !live || Fails(bridge.link.world, at, bridge.link.at)
    {
      NextOutput(events, i);
      OutputGrows(events, i);
      OutputGrows(events, i + 1);
      EndsAt(events, i);
      match events[i]
      case StreamFailed => return acc, sent, Some(Broken);
      case TaskKilled => return acc, sent, Some(Stopped);
      case Delta(text, cancelled, due) =>
        if cancelled {
          return acc, sent, Some(if gen.aborted then Broken else Stopped);
        }
        if gen.aborted {
          return acc, sent, Some(Broken);
        }
        ghost var mid, now := bridge.link.at, bridge.Live(false);
        var last;
        acc, sent, last := OnDelta(bridge, gen, acc, sent, text, due);
        ExplainedLater(last, bridge.link.world, at, mid, bridge.link.at, live, now);
        if last.Threw? {
          CloseFails(bridge.link.world, at, bridge.link.at);
          return acc, sent, Some(Raising(last));
        }
    }
    assert events[..|events|] == events;
    end := if gen.aborted then Some(Broken) else None;
    PlainEnds(events);
  }

  // A closed link is a write that was not answered.
  lemma CloseFails(world: nat -> Outcome, from: nat, to: nat)
    ensures Closes(world, from, to) ==> Fails(world, from, to)
  {
  }

  // The body of the try block.
  method Stream(bridge: Bridge, gen: Generation, events: seq<Event>) returns (status: Status)
    requires bridge.InStep(gen, "")
    modifies bridge`supported, bridge.link, gen
    ensures Streamed(bridge, events, status)
    // On a calm live link the events alone decide; on any link anything else has its cause.
    ensures old(bridge.Fair()) ==> status == EndsAs(events) && bridge.Fair()
    ensures bridge.link.at - old(bridge.link.at) == |bridge.link.written| - |old(bridge.link.written)|
    ensures Justified(status, events, bridge.link.world, old(bridge.link.at), bridge.link.at, old(bridge.Live(false)))
  {
    hide EndsAs, Output;
    ghost var at, live := bridge.link.at, bridge.Live(false);
    PlainEnds(events);
    var acc, sent, end := TakeDeltas(bridge, gen, events);
    if end.Some? {
      return end.value;
    }
    ghost var mid, now := bridge.link.at, bridge.Live(false);
    var last := PushRest(bridge, gen, acc, sent);
    ExplainedLater(last, bridge.link.world, at, mid, bridge.link.at, live, now);
    CloseFails(bridge.link.world, at, bridge.link.at);
    status := if last.Threw? then Raising(last) else if gen.aborted then Broken else Done;
  }

  method PushRest(bridge: Bridge, gen: Generation, acc: string, sent: nat) returns (last: Sent)
    requires !gen.aborted && OnCourse(bridge, gen, acc, sent) && IsWireSafe(acc)
    modifies bridge`supported, bridge.link, gen
    ensures gen.aborted == last.GaveUp?
    ensures if last.Accepted? then bridge.InStep(gen, acc) else bridge.Astray(acc)
    ensures old(bridge.Fair()) ==> last.Accepted? && bridge.Fair()
    ensures Explained(last, bridge.link.world, old(bridge.link.at), bridge.link.at, old(bridge.Live(false)))
    ensures bridge.link.at - old(bridge.link.at) == |bridge.link.written| - |old(bridge.link.written)|
  {
    assert acc[..sent] + acc[sent..] == acc;
    assert IsWireSafe(acc[sent..]);
    last := bridge.PushText(gen, acc[sent..], acc[..sent]);
  }

  // What an exception out of a push makes of the turn.
  function Raising(sent: Sent): Status
    requires sent.Threw?
  {
    if sent.cancelled then Stopped else Broken
  }

  // Whatever the link does, the device ends with a start of the answer, and with all of
  // it if it was told that the answer is complete.  A link that loses no two lines in a
  // row delivers everything.
  method DoAsk(events: seq<Event>, world: nat -> Outcome, supported: Option<bool>, closed: bool)
    returns (device: Device, written: seq<Line>)
    ensures device.text <= Output(events)
    ensures device.ended == Some(Done) ==> device.text == Output(events) && Plain(events)
    ensures Orderly(written)
    // A calm live link: the device learns how the turn ended.
    ensures Calm(world) && !closed && supported != Some(false) ==> device.ended == Some(EndsAs(events))
    // Any link: what it is told has a cause in the events or in what became of the writes.
    ensures device.ended.Some? ==>
      Justified(device.ended.value, events, world, 0, |written|, !closed && supported != Some(false))
  {
    var link := new Link(world);
    var bridge := new Bridge(link, supported, closed);
    var gen := new Generation();
    var status := Stream(bridge, gen, events);
    ghost var log := link.written;
    var last := bridge.Send(Finish(status), true, true);
    ghost var k :| 0 <= k <= 2 && link.written == log + Copies(Finish(status), k);
    WriteKeepsOrder(log, Finish(status), k);
    JustifiedLater(status, events, world, |log|, |link.written|, !closed && supported != Some(false));
    device, written := link.device, link.written;
  }
}
