// Host-fan requests: a record per request ID, acknowledged, executed by the root
// service and reported back, with duplicates, retries and link loss at every await.
// A record object is a handle into the table of all records ever made.

module Fan {
  import opened Bytes

  type Handle = nat

  datatype Request = Request(id: string, mode: Option<string>)

  datatype Ack = Accepted | Applied | Failed

  datatype Stage = Queued | AcceptedStage | Terminal

  datatype Rec = Rec(
    request: Request, stage: Stage, started: bool, acceptedPending: bool,
    report: Option<string>, reportPending: bool, final: Option<Ack>, finalPending: bool,
    enqueued: bool, retries: nat, timer: bool, retryAllowed: bool,
    abandoned: bool)    // history: callbacks given up after the last retry

  datatype Item = Item(h: Handle, replay: bool)

  datatype Config = Config(enabled: bool, queueSize: nat, cacheSize: nat)

  const RETRIES: nat := 5

  // What the device or a timer does while the worker is suspended.
  datatype Event = Malformed(id: string) | Event(request: Request) | Timer(h: Handle) | Close

  // How a suspension ends: for a UART write, OK or not; for the service, its reply.
  // Gone is LinkClosed or cancellation, Crash any exception the worker does not expect.
  datatype Answer = Okay(requested: Option<string>, status: string) | Refused | Unavailable | Gone | Crash

  datatype Moment = Moment(events: seq<Event>, answer: Answer)

  // History, kept for the claims.
  datatype Fact =
    | AckOk(h: Handle, ack: Ack)
    | ReportOk(h: Handle, status: string)
    | Asked(h: Handle)
    | Served(h: Handle, requested: Option<string>, status: string)
    | Concluded(h: Handle)
    | Crashed(h: Handle)

  predicate CallbacksPending(r: Rec) {
    r.acceptedPending || r.reportPending || r.finalPending
  }

  predicate Evictable(r: Rec) {
    r.stage == Terminal && !CallbacksPending(r)
  }

  function NoCallbacks(r: Rec): Rec {
    r.(acceptedPending := false, reportPending := false, finalPending := false, abandoned := true)
  }

  // ---- what history must look like ----------------------------------------------------

  // The service answered h with this status, for the mode that was asked for.
  ghost predicate Granted(facts: seq<Fact>, h: Handle, mode: Option<string>, status: string) {
    exists requested: Option<string> :: Served(h, requested, status) in facts && (mode.Some? ==> requested == mode)
  }

  ghost predicate Reported(facts: seq<Fact>, h: Handle) {
    exists status: string :: ReportOk(h, status) in facts
  }

  // The service is asked only after an OK'd ACCEPTED and never again once the record is
  // finished, whether or not its outcome got through; what is reported is what the
  // service answered; APPLIED is OK'd only after the report was.
  ghost predicate May(f: Fact, before: seq<Fact>) {
    match f
    case Asked(h) => AckOk(h, Accepted) in before && Concluded(h) !in before && !Answered(h, before)
    case Served(h, _, _) => Asked(h) in before
    case ReportOk(h, status) => Granted(before, h, None, status)
    case AckOk(h, Applied) => Reported(before, h) && Concluded(h) in before
    case _ => true
  }

  // The outcome of h was OK'd.
  predicate Answered(h: Handle, facts: seq<Fact>) {
    AckOk(h, Applied) in facts || AckOk(h, Failed) in facts
  }

  ghost predicate Ordered(facts: seq<Fact>) {
    forall i :: 0 <= i < |facts| ==> May(facts[i], facts[..i])
  }

  lemma OrderedNext(facts: seq<Fact>, f: Fact)
    requires Ordered(facts) && May(f, facts)
    ensures Ordered(facts + [f])
  {
    var all := facts + [f];
    forall i | 0 <= i < |all|
      ensures May(all[i], all[..i])
    {
      assert all[..i] == if i < |facts| then facts[..i] else facts;
    }
  }

  // ---- counting service calls -------------------------------------------------------------

  function Calls(facts: seq<Fact>): nat {
    if facts == [] then 0 else Calls(facts[..|facts| - 1]) + if facts[|facts| - 1].Asked? then 1 else 0
  }

  lemma CallsNext(facts: seq<Fact>, f: Fact)
    ensures Calls(facts + [f]) == Calls(facts) + if f.Asked? then 1 else 0
  {
    assert (facts + [f])[..|facts|] == facts;
  }

  predicate NoCalls(before: seq<Fact>, after: seq<Fact>) {
    before <= after && Calls(after) == Calls(before)
  }

  // What was added is a start of more.
  predicate Sends(before: seq<Fact>, after: seq<Fact>, more: seq<Fact>) {
    before <= after <= before + more
  }

  // If anything was added, f came first.
  predicate Opens(before: seq<Fact>, after: seq<Fact>, f: Fact) {
    before <= after && (|after| > |before| ==> after[|before|] == f)
  }

  lemma {:induction false} SendsNoCalls(before: seq<Fact>, after: seq<Fact>, more: seq<Fact>)
    requires Sends(before, after, more) && forall i :: 0 <= i < |more| ==> !more[i].Asked?
    ensures NoCalls(before, after)
    decreases |after|
  {
    if |after| > |before| {
      var n := |after| - 1;
      assert after[n] == (before + more)[n];
      SendsNoCalls(before, after[..n], more);
      assert after == after[..n] + [after[n]];
    } else {
      assert after == before;
    }
  }

  lemma StartKept(old_: seq<Fact>, before: seq<Fact>, after: seq<Fact>, f: Fact)
    requires before <= after
    ensures old_ + [f] <= before ==> old_ + [f] <= after
    ensures before == old_ && before + [f] <= after ==> old_ + [f] <= after
  {
  }

  // The callbacks a record owes or may come to owe, in the order they go out.
  function Owed(r: Rec, h: Handle): seq<Fact> {
    (if r.reportPending && r.report.Some? then [ReportOk(h, r.report.value)] else [])
    + (if r.final.Some? then [AckOk(h, r.final.value)] else [])
  }

  // What a record's fields promise about its history.
  ghost predicate Backed(r: Rec, h: Handle, facts: seq<Fact>) {
    && (r.stage == AcceptedStage ==> AckOk(h, Accepted) in facts)
    && (Answered(h, facts) ==> r.stage == Terminal)
    && (Concluded(h) in facts <==> r.stage == Terminal && r.retryAllowed)
    && (r.reportPending ==> r.report.Some? && r.stage == Terminal)
    && (r.finalPending ==> r.final.Some? && r.stage == Terminal)
    && (r.finalPending && r.final == Some(Applied) ==> r.reportPending || Reported(facts, h))
    && r.final != Some(Accepted) && (r.final == Some(Applied) <==> r.report.Some?)
    && (r.stage == Terminal && !r.abandoned ==> r.final.Some? && (r.finalPending || AckOk(h, r.final.value) in facts))
    && (r.report.Some? && !r.abandoned ==> r.reportPending || Reported(facts, h))
    && (r.report.Some? ==> Granted(facts, h, r.request.mode, r.report.value))
    && (r.report.Some? || r.final.Some? ==> r.stage == Terminal)
    && (Crashed(h) in facts ==> r.stage == AcceptedStage && r.started)
    && (r.started ==> r.stage != Queued) && (!r.retryAllowed ==> !r.timer && r.stage == Terminal && r.report.None?)
  }

  ghost predicate AllBacked(recs: seq<Rec>, facts: seq<Fact>) {
    && (forall h :: 0 <= h < |recs| ==> Backed(recs[h], h, facts))
    && (forall i :: 0 <= i < |facts| ==> facts[i].h < |recs|)
  }

  // The ID cache is bounded, names every ID once and holds no detached record.
  ghost predicate CacheOk(recs: seq<Rec>, cache: seq<Handle>, limit: nat) {
    && |cache| <= limit
    && (forall i :: 0 <= i < |cache| ==> cache[i] < |recs| && recs[cache[i]].retryAllowed && !recs[cache[i]].abandoned)
    && (forall i, j :: 0 <= i < j < |cache| ==> recs[cache[i]].request.id != recs[cache[j]].request.id)
  }

  // A record is queued at most once.
  ghost predicate QueueOk(recs: seq<Rec>, queue: seq<Item>) {
    && (forall i :: 0 <= i < |queue| ==>
          queue[i].h < |recs| && (recs[queue[i].h].enqueued || !recs[queue[i].h].retryAllowed))
    && (forall i, j :: 0 <= i < j < |queue| ==> queue[i].h != queue[j].h)
  }

  // Only the worker changes these.
  predicate SameCore(r: Rec, s: Rec) {
    s.request == r.request && s.stage == r.stage && s.started == r.started && s.report == r.report
    && s.final == r.final && s.retryAllowed == r.retryAllowed
  }

  predicate SameIdentity(r: Rec, s: Rec) {
    s.request == r.request && s.retryAllowed == r.retryAllowed && s.enqueued == r.enqueued
  }

  ghost predicate SameCores(before: seq<Rec>, after: seq<Rec>) {
    |before| <= |after| && forall h :: 0 <= h < |before| ==> SameCore(before[h], after[h])
  }

  // What happens to records and cache while the worker is suspended.
  ghost predicate Aside(recs: seq<Rec>, cache: seq<Handle>, recs': seq<Rec>, cache': seq<Handle>) {
    && SameCores(recs, recs')
    && forall h :: 0 <= h < |recs| && h in cache' ==> h in cache && recs'[h].acceptedPending == recs[h].acceptedPending
  }

  lemma OneAside(recs: seq<Rec>, cache: seq<Handle>, recs': seq<Rec>, cache': seq<Handle>, h: Handle)
    requires h < |recs| == |recs'| && recs' == recs[h := recs'[h]]
    requires SameCore(recs[h], recs'[h]) && (h in cache' ==> recs'[h].acceptedPending == recs[h].acceptedPending)
    requires forall k :: k in cache' ==> k in cache
    ensures Aside(recs, cache, recs', cache')
  {
  }

  lemma AsideThrough(a: seq<Rec>, ca: seq<Handle>, b: seq<Rec>, cb: seq<Handle>, c: seq<Rec>, cc: seq<Handle>)
    requires Aside(a, ca, b, cb) && Aside(b, cb, c, cc)
    ensures Aside(a, ca, c, cc)
  {
    CoresThrough(a, b, c);
  }

  lemma CoresThrough(a: seq<Rec>, b: seq<Rec>, c: seq<Rec>)
    requires SameCores(a, b) && SameCores(b, c)
    ensures SameCores(a, c)
  {
    assert forall h :: 0 <= h < |a| ==> SameCore(a[h], b[h]) && SameCore(b[h], c[h]);
  }

  // ---- the cache ------------------------------------------------------------------------

  function Find(recs: seq<Rec>, cache: seq<Handle>, id: string): (i: nat)
    requires forall k :: 0 <= k < |cache| ==> cache[k] < |recs|
    ensures i <= |cache|
    ensures forall k :: 0 <= k < i ==> recs[cache[k]].request.id != id
    ensures i < |cache| ==> recs[cache[i]].request.id == id
  {
    if cache == [] || recs[cache[0]].request.id == id then 0 else 1 + Find(recs, cache[1..], id)
  }

  function FirstEvictable(recs: seq<Rec>, cache: seq<Handle>): (i: nat)
    requires forall k :: 0 <= k < |cache| ==> cache[k] < |recs|
    ensures i <= |cache|
    ensures forall k :: 0 <= k < i ==> !Evictable(recs[cache[k]])
    ensures i < |cache| ==> Evictable(recs[cache[i]])
  {
    if cache == [] || Evictable(recs[cache[0]]) then 0 else 1 + FirstEvictable(recs, cache[1..])
  }

  function Without(cache: seq<Handle>, i: nat): seq<Handle>
    requires i < |cache|
  {
    cache[..i] + cache[i + 1..]
  }

  // ---- what an answer of the service leads to ----------------------------------------------

  // A good answer to the mode that was asked for.
  predicate Serves(request: Request, a: Answer) {
    a.Okay? && (request.mode.None? || a.requested == request.mode)
  }

  function Reply(h: Handle, a: Answer): seq<Fact> {
    if a.Okay? then [Served(h, a.requested, a.status)] else []
  }

  function Ending(request: Request, h: Handle, a: Answer): seq<Fact> {
    if Serves(request, a) then [Concluded(h), ReportOk(h, a.status), AckOk(h, Applied)]
    else [Concluded(h), AckOk(h, Failed)]
  }

  // ---- what an event enters ----------------------------------------------------------------

  datatype Books = Books(recs: seq<Rec>, queue: seq<Item>, cache: seq<Handle>)

  predicate InBooks(b: Books) {
    forall k :: 0 <= k < |b.cache| ==> b.cache[k] < |b.recs|
  }

  function NewRec(request: Request): Rec {
    Rec(request, Queued, false, false, None, false, None, false, true, 0, false, true, false)
  }

  function Rejected(id: string): Rec {
    Rec(Request(id, None), Terminal, false, false, None, false, Some(Failed), true, false, 0, false, false, false)
  }

  function Duplicated(r: Rec): Rec {
    if r.stage == Terminal then r.(reportPending := r.report.Some?, finalPending := r.final.Some?) else r
  }

  // The cache with a place free, if there is one or a delivered record can go.
  function Roomy(c: Config, recs: seq<Rec>, cache: seq<Handle>): seq<Handle>
    requires InBooks(Books(recs, [], cache))
  {
    var i := FirstEvictable(recs, cache);
    if |cache| >= c.cacheSize && i < |cache| then Without(cache, i) else cache
  }

  function TurnedAway(c: Config, b: Books, id: string): Books {
    if |b.queue| >= c.queueSize then b
    else b.(recs := b.recs + [Rejected(id)], queue := b.queue + [Item(|b.recs|, true)])
  }

  function Repeated(c: Config, b: Books, i: nat): Books
    requires InBooks(b) && i < |b.cache|
  {
    var h := b.cache[i];
    var r := b.recs[h];
    var ok := r.enqueued || |b.queue| < c.queueSize;
    Books(b.recs[h := Duplicated(r).(enqueued := ok)],
          if ok && !r.enqueued then b.queue + [Item(h, true)] else b.queue,
          Without(b.cache, i) + [h])
  }

  function Admitted(c: Config, b: Books, request: Request): Books
    requires InBooks(b)
  {
    var cache := Roomy(c, b.recs, b.cache);
    if |cache| >= c.cacheSize || |b.queue| >= c.queueSize then b.(cache := cache)
    else Books(b.recs + [NewRec(request)], b.queue + [Item(|b.recs|, false)], cache + [|b.recs|])
  }

  function Submitted(c: Config, b: Books, e: Event): Books
    requires InBooks(b)
  {
    match e
    case Malformed(id) => TurnedAway(c, b, id)
    case Event(request) =>
      var i := Find(b.recs, b.cache, request.id);
      if i < |b.cache| then Repeated(c, b, i) else Admitted(c, b, request)
    case _ => b
  }

  // ---- the controller --------------------------------------------------------------------

  datatype Sent = Yes | No | Raised

  class FanController {
    const c: Config
    const script: seq<Moment>
    var at: nat
    var recs: seq<Rec>
    var queue: seq<Item>
    var cache: seq<Handle>
    var closed: bool
    var facts: seq<Fact>

    constructor (c: Config, script: seq<Moment>)
      ensures this.c == c && this.script == script && at == 0 && !closed && facts == [] && Entered() == Books([], [], [])
      ensures Valid({})
    {
      this.c, this.script, at, recs, queue, cache, closed, facts := c, script, 0, [], [], [], false, [];
    }

    // held are the records somebody is busy with.
    ghost predicate Valid(held: set<Handle>)
      reads this
    {
      Inv(c.cacheSize, recs, queue, cache, closed, facts, held) && at <= |script|
    }

    // ---- event thread ------------------------------------------------------------------

    // _queue_record
    method QueueRecord(h: Handle, replay: bool, ghost held: set<Handle>) returns (ok: bool)
      requires h < |recs| && recs[h].retryAllowed && Valid(held + {h})
      requires Running(recs[h]) ==> h in held || Crashed(h) in facts
      modifies this`recs, this`queue
      ensures Valid(if ok then held else held + {h})
      ensures ok == (old(recs)[h].enqueued || |old(queue)| < c.queueSize)
      ensures recs == old(recs)[h := old(recs)[h].(enqueued := ok)] && (!ok ==> recs == old(recs))
      ensures queue == if ok && !old(recs)[h].enqueued then old(queue) + [Item(h, replay)] else old(queue)
    {
      if recs[h].enqueued {
        return true;
      }
      if |queue| >= c.queueSize {
        return false;
      }
      QueuePut(c.cacheSize, recs, queue, cache, closed, facts, held, Item(h, replay));
      queue := queue + [Item(h, replay)];
      recs := recs[h := recs[h].(enqueued := true)];
      return true;
    }

    // _schedule_retry
    method ScheduleRetry(h: Handle, ghost held: set<Handle>)
      requires h < |recs| && Valid(held) && h in held
      modifies this`recs, this`cache
      ensures Valid(held) && Aside(old(recs), old(cache), recs, cache)
      ensures recs == if NoRetry(old(recs)[h]) then old(recs) else old(recs)[h := Rescheduled(old(recs)[h])]
      ensures if !NoRetry(old(recs)[h]) && Exhausted(old(recs)[h]) then h !in cache else cache == old(cache)
    {
      var r := recs[h];
      if NoRetry(r) {
        return;
      }
      ghost var recs0, cache0 := recs, cache;
      if Exhausted(r) {
        Forget(h, held);
      }
      Put(h, Rescheduled(r), held);
      OneAside(recs0, cache0, recs, cache, h);
    }

    predicate NoRetry(r: Rec)
      reads this
    {
      closed || !CallbacksPending(r) || r.timer
    }

    predicate Exhausted(r: Rec) {
      r.retryAllowed && r.retries >= RETRIES
    }

    // A detached or exhausted record owes nothing any more.
    function Rescheduled(r: Rec): Rec {
      if !r.retryAllowed || r.retries >= RETRIES then NoCallbacks(r)
      else r.(retries := r.retries + 1, timer := true)
    }

    // The exhausted record leaves the cache; a later duplicate starts afresh.
    method Forget(h: Handle, ghost held: set<Handle>)
      requires Valid(held)
      modifies this`cache
      ensures Valid(held)
      ensures h !in cache && forall k :: k in cache ==> k in old(cache)
    {
      var i := IndexOf(cache, h);
      if i < |cache| {
        DistinctCache(recs, cache, c.cacheSize, i);
        cache := Without(cache, i);
      }
    }

    // A retry timer runs out: queue the record, or plan another retry when that fails.
    method TimerFires(h: Handle, ghost held: set<Handle>)
      requires h < |recs| && Valid(held)
      modifies this`recs, this`queue, this`cache
      ensures Valid(held) && Aside(old(recs), old(cache), recs, cache)
      ensures var r := old(recs)[h];
        queue == if r.timer && !closed && CallbacksPending(r) && !r.enqueued && |old(queue)| < c.queueSize
          then old(queue) + [Item(h, true)] else old(queue)
    {
      if !recs[h].timer {
        return;
      }
      ghost var recs0, cache0 := recs, cache;
      Disarm(h, held);
      OneAside(recs0, cache0, recs, cache, h);
      if closed || !CallbacksPending(recs[h]) {
        return;
      }
      ghost var recs1, cache1 := recs, cache;
      RetryNow(h, held);
      AsideThrough(recs0, cache0, recs1, cache1, recs, cache);
    }

    // Queue the record again, or plan another retry when the queue is full.
    method RetryNow(h: Handle, ghost held: set<Handle>)
      requires h < |recs| && Valid(held + {h}) && !closed && CallbacksPending(recs[h]) && !recs[h].timer
      requires recs[h].retryAllowed && (Running(recs[h]) ==> h in held || Crashed(h) in facts)
      modifies this`recs, this`queue, this`cache
      ensures Valid(held) && Aside(old(recs), old(cache), recs, cache)
      ensures queue == if !old(recs)[h].enqueued && |old(queue)| < c.queueSize
        then old(queue) + [Item(h, true)] else old(queue)
    {
      ghost var recs0, cache0 := recs, cache;
      var ok := QueueRecord(h, true, held);
      if ok {
        OneAside(recs0, cache0, recs, cache, h);
      } else {
        ScheduleRetry(h, held + {h});
        Release(c.cacheSize, recs, queue, cache, closed, facts, held, h);
      }
    }

    method Disarm(h: Handle, ghost held: set<Handle>)
      requires h < |recs| && Valid(held)
      modifies this`recs
      ensures Valid(held + {h}) && recs == old(recs)[h := old(recs)[h].(timer := false)]
      ensures closed || !CallbacksPending(recs[h]) ==> Valid(held)
      ensures Running(recs[h]) ==> h in held || Crashed(h) in facts
    {
      PatchKeeps(c.cacheSize, recs, queue, cache, closed, facts, held, h, recs[h].(timer := false));
      recs := recs[h := recs[h].(timer := false)];
    }

    // submit_event
    method Submit(e: Event, ghost held: set<Handle>)
      requires Valid(held) && (e.Event? || e.Malformed?)
      modifies this`recs, this`queue, this`cache
      ensures Valid(held) && Aside(old(recs), old(cache), recs, cache)
      ensures Entered() == Submitted(c, old(Entered()), e)
    {
      match e
      case Malformed(id) => Reject(id, held);
      case Event(request) =>
        var i := Find(recs, cache, request.id);
        if i < |cache| {
          ghost var before, h := recs, cache[i];
          Known(i, held);
          OneAside(before, old(cache), recs, cache, h);
        } else {
          Fresh(request, held);
        }
      case _ =>
    }

    ghost function Entered(): Books
      reads this
    {
      Books(recs, queue, cache)
    }

    // A malformed event with a usable ID is answered FAILED by a record of its own.
    method Reject(id: string, ghost held: set<Handle>)
      requires Valid(held)
      modifies this`recs, this`queue
      ensures Valid(held) && Aside(old(recs), cache, recs, cache)
      ensures Entered() == TurnedAway(c, old(Entered()), id)
    {
      if |queue| >= c.queueSize {
        return;
      }
      AddRecord(c.cacheSize, recs, queue, cache, closed, facts, held, Rejected(id), true);
      recs, queue := recs + [Rejected(id)], queue + [Item(|recs|, true)];
    }

    // A duplicate: a finished record gets its outcome sent again, whatever was delivered.
    method Known(i: nat, ghost held: set<Handle>)
      requires Valid(held) && i < |cache|
      modifies this`recs, this`queue, this`cache
      ensures Valid(held) && Entered() == Repeated(c, old(Entered()), i)
      ensures forall h :: h in cache <==> h in old(cache)
    {
      hide Inv;
      CachedHere(i, held);
      var h := cache[i];
      Touch(i, held);
      OweAgain(h, held);
      Grab(h, held);
      var _ := QueueRecord(h, true, held);
    }

    lemma Grab(h: Handle, held: set<Handle>)
      requires Valid(held)
      ensures Valid(held + {h})
    {
    }

    lemma CachedHere(i: nat, held: set<Handle>)
      requires Valid(held) && i < |cache|
      ensures InBooks(Entered()) && recs[cache[i]].retryAllowed
      ensures Running(recs[cache[i]]) ==> cache[i] in held || Crashed(cache[i]) in facts
    {
    }

    method Touch(i: nat, ghost held: set<Handle>)
      requires Valid(held) && i < |cache|
      modifies this`cache
      ensures Valid(held) && cache == Without(old(cache), i) + [old(cache)[i]]
      ensures forall h :: h in cache <==> h in old(cache)
    {
      TouchKeeps(c.cacheSize, recs, queue, cache, closed, facts, held, i);
      cache := Without(cache, i) + [cache[i]];
    }

    method OweAgain(h: Handle, ghost held: set<Handle>)
      requires Valid(held) && h < |recs|
      modifies this`recs
      ensures Valid(held)
      ensures recs == old(recs)[h := Duplicated(old(recs)[h])]
    {
      PatchKeeps(c.cacheSize, recs, queue, cache, closed, facts, held, h, Duplicated(recs[h]));
      recs := recs[h := Duplicated(recs[h])];
    }

    // A new request takes the last place of the cache and of the queue, or is dropped.
    method Fresh(request: Request, ghost held: set<Handle>)
      requires Valid(held) && NewId(recs, cache, request.id)
      modifies this`recs, this`queue, this`cache
      ensures Valid(held) && Aside(old(recs), old(cache), recs, cache)
      ensures Entered() == Admitted(c, old(Entered()), request)
    {
      hide Inv;
      var room := MakeRoom(held);
      if !room || |queue| >= c.queueSize {
        return;
      }
      StillNew(recs, old(cache), cache, request.id);
      AddRecord(c.cacheSize, recs, queue, cache, closed, facts, held, NewRec(request), false);
      recs, queue, cache := recs + [NewRec(request)], queue + [Item(|recs|, false)], cache + [|recs|];
    }

    // _make_record_room
    method MakeRoom(ghost held: set<Handle>) returns (room: bool)
      requires Valid(held)
      modifies this`cache
      ensures Valid(held) && cache == Roomy(c, recs, old(cache)) && room == (|cache| < c.cacheSize)
      ensures forall h :: h in cache ==> h in old(cache)
    {
      if |cache| < c.cacheSize {
        return true;
      }
      var i := FirstEvictable(recs, cache);
      if i < |cache| {
        DistinctCache(recs, cache, c.cacheSize, i);
        cache := Without(cache, i);
        return true;
      }
      return false;
    }

    // ---- suspension ------------------------------------------------------------------------

    method Happen(e: Event, ghost held: set<Handle>)
      requires Valid(held)
      modifies this`recs, this`queue, this`cache, this`closed
      ensures Valid(held) && Aside(old(recs), old(cache), recs, cache)
      ensures e.Event? ==> Entered() == Submitted(c, old(Entered()), e) && closed == old(closed)
    {
      match e
      case Timer(h) =>
        if h < |recs| {
          TimerFires(h, held);
        }
      case Close => closed := true;
      case _ => Submit(e, held);
    }

    // The worker is suspended: events happen, then the script says how the wait ends.
    method Await(ghost held: set<Handle>) returns (a: Answer)
      requires Valid(held)
      modifies this
      ensures Valid(held) && Aside(old(recs), old(cache), recs, cache) && facts == old(facts)
      ensures if old(at) < |script| then at == old(at) + 1 && a == script[old(at)].answer
        else at == old(at) && a == Gone && queue == old(queue)
      ensures Silent(old(at)) ==> Entered() == old(Entered()) && closed == old(closed)
      ensures Single(old(at)) ==> closed == old(closed)
      ensures Single(old(at)) ==> Entered() == Submitted(c, old(Entered()), script[old(at)].events[0])
    {
      if at >= |script| {
        return Gone;
      }
      var m := script[at];
      at := at + 1;
      ghost var recs0, cache0 := recs, cache;
      for i := 0 to |m.events|
        invariant Valid(held) && Aside(recs0, cache0, recs, cache)
        invariant facts == old(facts) && at == old(at) + 1
        invariant i == 0 ==> Entered() == old(Entered()) && closed == old(closed)
        invariant i == 1 && m.events[0].Event? ==>
          Entered() == Submitted(c, old(Entered()), m.events[0]) && closed == old(closed)
      {
        Happen(m.events[i], held);
      }
      a := m.answer;
    }

    // Nothing happens during suspension k.
    predicate Silent(k: nat) {
      k < |script| && script[k].events == []
    }

    // One request arrives during suspension k.
    predicate Single(k: nat) {
      k < |script| && |script[k].events| == 1 && script[k].events[0].Event?
    }

    predicate SilentOk(k: nat) {
      Silent(k) && script[k].answer.Okay?
    }

    predicate SilentCrash(k: nat) {
      Silent(k) && script[k].answer == Crash
    }

    // _send_uart for an acknowledgement or a report.
    method Send(f: Fact, ghost held: set<Handle>) returns (sent: Sent)
      requires Valid(held) && f.h < |recs| && (f.AckOk? || f.ReportOk?)
      requires May(f, facts) && (f.AckOk? && f.ack != Accepted ==> recs[f.h].stage == Terminal)
      modifies this
      ensures Valid(held) && Aside(old(recs), old(cache), recs, cache) && Paced(old(at), old(queue))
      ensures facts == if sent == Yes then old(facts) + [f] else old(facts)
      ensures at > old(at) || sent == Raised
      ensures SilentOk(old(at)) ==>
        sent == Yes && at == old(at) + 1 && Entered() == old(Entered()) && closed == old(closed)
    {
      var a := Await(held);
      if a == Gone {
        return Raised;
      }
      if !a.Okay? {
        return No;
      }
      FactKeeps(c.cacheSize, recs, queue, cache, closed, facts, held, f);
      facts := facts + [f];
      return Yes;
    }

    // ---- the worker ---------------------------------------------------------------------------

    // The worker changes its own record.
    method Put(h: Handle, r: Rec, ghost held: set<Handle>)
      requires Valid(held) && h in held && h < |recs| && Backed(r, h, facts)
      requires SameIdentity(recs[h], r) && (r.abandoned && !recs[h].abandoned ==> h !in cache)
      modifies this`recs
      ensures Valid(held) && recs == old(recs)[h := r]
      ensures SameCore(old(recs)[h], r) ==> SameCores(old(recs), recs)
    {
      PatchKeeps(c.cacheSize, recs, queue, cache, closed, facts, held, h, r);
      recs := recs[h := r];
    }

    lemma BackedHere(h: Handle, held: set<Handle>)
      requires Valid(held) && h < |recs|
      ensures Backed(recs[h], h, facts)
    {
    }

    // A turn of the worker over one record: raised tells LinkClosed or cancellation.
    ghost predicate Turned(h: Handle, raised: bool)
      reads this
    {
      Valid({h}) && Quiet(h) && (!raised ==> Valid({}))
    }

    // No service call of h is under way any more.
    ghost predicate Quiet(h: Handle)
      reads this
    {
      h < |recs| && (Running(recs[h]) ==> Crashed(h) in facts)
    }

    // The queue changes only at a suspension.
    predicate Paced(before: nat, waiting: seq<Item>)
      reads this
    {
      before < at || (before == at && queue == waiting)
    }

    // _begin: ACCEPTED goes out before anything else happens.
    method Begin(h: Handle) returns (raised: bool)
      requires Valid({h}) && h < |recs| && recs[h].stage == Queued
      modifies this
      ensures Turned(h, raised) && Paced(old(at), old(queue))
      ensures Begins(old(facts), facts, h, MaxCalls(old(recs)[h].request))
      ensures c.enabled && SilentOk(old(at)) && SilentCrash(old(at) + 1) ==>
        Stuck(h, raised, old(Entered()), old(closed)) && at == old(at) + 2
      ensures c.enabled && SilentOk(old(at)) && Serving(old(at) + 1) ==>
        Told(raised, old(recs)[h].request, h, old(at) + 1, old(facts) + [AckOk(h, Accepted)], old(queue), old(closed))
    {
      hide Inv, Backed, Executes, Told;
      var sent := Accept(h);
      if sent != Yes {
        return sent == Raised;
      }
      raised := Execute(h);
    }

    // ACCEPTED is written; once OK'd the record is accepted.
    method Accept(h: Handle) returns (sent: Sent)
      requires Valid({h}) && h < |recs| && recs[h].stage == Queued
      modifies this
      ensures Valid({h}) && Paced(old(at), old(queue)) && h < |recs|
      ensures sent == Yes ==> recs[h].stage == AcceptedStage && !recs[h].started && facts == old(facts) + [AckOk(h, Accepted)]
      ensures sent == Yes ==> recs[h].request == old(recs)[h].request
      ensures sent != Yes ==> Turned(h, sent == Raised) && facts == old(facts)
      ensures SilentOk(old(at)) ==> sent == Yes && at == old(at) + 1 && closed == old(closed)
      ensures SilentOk(old(at)) ==> Entered() == old(Entered()).(recs := old(recs)[h :=
        old(recs)[h].(acceptedPending := false, stage := AcceptedStage)])
    {
      hide Inv, Backed, May;
      AcceptedMay(h);
      OweAccepted(h);
      sent := SendOrRetry(AckOk(h, Accepted), h);
      if sent == Yes {
        MarkAccepted(h);
      }
    }

    lemma AcceptedMay(h: Handle)
      ensures May(AckOk(h, Accepted), facts)
    {
    }

    method MarkAccepted(h: Handle)
      requires Valid({h}) && h < |recs| && recs[h].stage == Queued && AckOk(h, Accepted) in facts
      modifies this`recs
      ensures Valid({h}) && recs == old(recs)[h := old(recs)[h].(acceptedPending := false, stage := AcceptedStage)]
      ensures !recs[h].started
    {
      hide Inv;
      BackedHere(h, {h});
      Put(h, recs[h].(acceptedPending := false, stage := AcceptedStage), {h});
    }

    method OweAccepted(h: Handle)
      requires Valid({h}) && h < |recs| && recs[h].stage == Queued
      modifies this`recs
      ensures Valid({h}) && recs == old(recs)[h := old(recs)[h].(acceptedPending := true)]
    {
      hide Inv;
      BackedHere(h, {h});
      Put(h, recs[h].(acceptedPending := true), {h});
    }

    predicate Begins(before: seq<Fact>, after: seq<Fact>, h: Handle, most: nat) {
      after == before || Executes(before + [AckOk(h, Accepted)], after, h, most)
    }

    // Send; a write that is not accepted is tried again later.
    method SendOrRetry(f: Fact, h: Handle) returns (sent: Sent)
      requires Valid({h}) && h == f.h < |recs| && (f.AckOk? || f.ReportOk?) && !Running(recs[h])
      requires May(f, facts) && (f.AckOk? && f.ack != Accepted ==> recs[h].stage == Terminal)
      requires recs[h].stage != Terminal ==> recs[h].acceptedPending
      modifies this
      ensures Turned(h, sent == Raised || sent == Yes) && Paced(old(at), old(queue)) && SameCores(old(recs), recs)
      ensures facts == if sent == Yes then old(facts) + [f] else old(facts)
      ensures sent == No ==> !recs[h].finalPending || recs[h].timer || closed
      ensures SilentOk(old(at)) ==>
        sent == Yes && at == old(at) + 1 && Entered() == old(Entered()) && closed == old(closed)
    {
      hide Inv;
      sent := Send(f, {h});
      if sent == No {
        ScheduleRetry(h, {h});
        assert {} + {h} == {h};
        Release(c.cacheSize, recs, queue, cache, closed, facts, {}, h);
      }
    }

    // _execute: a mode is asked for at most twice, a status once, and neither when fan
    // control is disabled.
    method Execute(h: Handle) returns (raised: bool)
      requires Valid({h}) && h < |recs| && recs[h].stage == AcceptedStage && !recs[h].started
      modifies this
      ensures Turned(h, raised) && Paced(old(at), old(queue))
      ensures Executes(old(facts), facts, h, MaxCalls(old(recs)[h].request))
      ensures c.enabled && SilentCrash(old(at)) ==>
        Stuck(h, raised, old(Entered()), old(closed)) && at == old(at) + 1
      ensures c.enabled && Serving(old(at)) ==> Told(raised, old(recs)[h].request, h, old(at), old(facts), old(queue), old(closed))
    {
      hide Inv;
      BackedHere(h, {h});
      if !c.enabled {
        CallsNext(facts, Concluded(h));
        CallsNext(facts + [Concluded(h)], AckOk(h, Failed));
        raised := FinishFailed(h);
        return;
      }
      Put(h, recs[h].(started := true), {h});
      var a := Call(h);
      ghost var asked := facts;
      raised := Outcome(h, a);
      StartKept(old(facts), asked, facts, Asked(h));
    }

    // A mode is asked for again when the service was not there.
    method Call(h: Handle) returns (a: Answer)
      requires Valid({h}) && Asking(h)
      modifies this
      ensures Valid({h}) && Asking(h) && Paced(old(at), old(queue)) && recs[h].request == old(recs)[h].request
      ensures a.Okay? ==> Served(h, a.requested, a.status) in facts
      ensures old(facts) + [Asked(h)] <= facts
      ensures Calls(facts) <= Calls(old(facts)) + MaxCalls(old(recs)[h].request)
      ensures a == Unavailable ==> Calls(facts) == Calls(old(facts)) + MaxCalls(old(recs)[h].request)
      ensures Silent(old(at)) && script[old(at)].answer != Unavailable ==>
        a == script[old(at)].answer && at == old(at) + 1 && Entered() == old(Entered()) && closed == old(closed)
        && facts == old(facts) + [Asked(h)] + Reply(h, a)
    {
      hide Inv;
      a := Unavailable;
      var attempts := MaxCalls(recs[h].request);
      for attempt := 0 to attempts
        invariant Valid({h}) && Asking(h) && Paced(old(at), old(queue)) && recs[h].request == old(recs)[h].request
        invariant if attempt == 0 then facts == old(facts) else old(facts) + [Asked(h)] <= facts
        invariant Calls(facts) == Calls(old(facts)) + attempt
        invariant attempt == 0 ==> at == old(at) && closed == old(closed) && Entered() == old(Entered())
        invariant a == Unavailable
        invariant attempt > 0 ==> !(Silent(old(at)) && script[old(at)].answer != Unavailable)
      {
        ghost var before := facts;
        a := Ask(h);
        StartKept(old(facts), before, facts, Asked(h));
        if a != Unavailable {
          break;
        }
      }
    }

    // The service call of h has crashed: the record is left in the middle of it, nobody
    // waits for it, and nothing else has changed.
    ghost predicate Stuck(h: Handle, raised: bool, before: Books, wasClosed: bool)
      requires h < |before.recs|
      reads this
    {
      && !raised && Crashed(h) in facts && closed == wasClosed && h < |recs|
      && Entered() == before.(recs := before.recs[h :=
           before.recs[h].(acceptedPending := recs[h].acceptedPending, stage := AcceptedStage, started := true)])
    }

    function MaxCalls(request: Request): nat {
      if request.mode.Some? then 2 else 1
    }

    // At most so many calls; with fan control enabled the first one comes before anything.
    predicate Executes(before: seq<Fact>, after: seq<Fact>, h: Handle, most: nat) {
      before <= after && Calls(after) <= Calls(before) + (if c.enabled then most else 0)
      && (c.enabled ==> before + [Asked(h)] <= after)
    }

    // From suspension k the service answers, yes or no, and two writes are OK'd.
    predicate Serving(k: nat) {
      Silent(k) && (script[k].answer.Okay? || script[k].answer == Refused) && SilentOk(k + 1) && SilentOk(k + 2)
    }

    // What the answer that came at suspension k brought about, and that it is all there was.
    predicate Told(raised: bool, request: Request, h: Handle, k: nat, before: seq<Fact>, waiting: seq<Item>, wasClosed: bool)
      reads this
    {
      k < |script| &&
      var a := script[k].answer;
      && Quietly(raised, if Serves(request, a) then 3 else 2, k, waiting, wasClosed)
      && facts == before + [Asked(h)] + Reply(h, a) + Ending(request, h, a)
    }

    // The service call of h is under way and has not crashed.
    ghost predicate Asking(h: Handle)
      reads this
    {
      h < |recs| && Running(recs[h]) && Crashed(h) !in facts
    }

    method Ask(h: Handle) returns (a: Answer)
      requires Valid({h}) && Asking(h)
      modifies this
      ensures Valid({h}) && Asking(h) && Paced(old(at), old(queue))
      ensures recs[h].request == old(recs)[h].request
      ensures a.Okay? ==> Served(h, a.requested, a.status) in facts
      ensures old(facts) + [Asked(h)] <= facts && Calls(facts) == Calls(old(facts)) + 1
      ensures Silent(old(at)) ==>
        a == script[old(at)].answer && at == old(at) + 1 && Entered() == old(Entered()) && closed == old(closed)
        && facts == old(facts) + [Asked(h)] + Reply(h, a)
    {
      hide Inv;
      CallsNext(facts, Asked(h));
      BackedHere(h, {h});
      FactKeeps(c.cacheSize, recs, queue, cache, closed, facts, {h}, Asked(h));
      facts := facts + [Asked(h)];
      a := Await({h});
      if a.Okay? {
        FactKeeps(c.cacheSize, recs, queue, cache, closed, facts, {h}, Served(h, a.requested, a.status));
        CallsNext(facts, Served(h, a.requested, a.status));
        facts := facts + [Served(h, a.requested, a.status)];
      }
    }

    // What becomes of the record when the service has answered.
    method Outcome(h: Handle, a: Answer) returns (raised: bool)
      requires Valid({h}) && Asking(h) && (a.Okay? ==> Served(h, a.requested, a.status) in facts)
      modifies this
      ensures Turned(h, raised) && Paced(old(at), old(queue))
      ensures Verdict(old(recs)[h].request, a, recs[h])
      ensures NoCalls(old(facts), facts)
      ensures a == Crash ==> !raised && Crashed(h) in facts && at == old(at)
      ensures a == Crash ==> Entered() == old(Entered()) && closed == old(closed)
      ensures SilentOk(old(at)) && SilentOk(old(at) + 1) && (a.Okay? || a == Refused) ==>
        && Quietly(raised, if Serves(old(recs)[h].request, a) then 2 else 1, old(at), old(queue), old(closed))
        && facts == old(facts) + Ending(old(recs)[h].request, h, a)
    {
      hide Inv;
      CallsNext(facts, Crashed(h));
      CallsNext(facts, Concluded(h));
      CallsNext(facts + [Concluded(h)], AckOk(h, Failed));
      BackedHere(h, {h});
      match a
      case Gone =>
        Put(h, recs[h].(started := false), {h});
        return true;
      case Crash =>
        FactKeeps(c.cacheSize, recs, queue, cache, closed, facts, {h}, Crashed(h));
        facts := facts + [Crashed(h)];
        assert {} + {h} == {h};
        Release(c.cacheSize, recs, queue, cache, closed, facts, {}, h);
        return false;
      case Okay(requested, status) =>
        if recs[h].request.mode.Some? && requested != recs[h].request.mode {
          raised := FinishFailed(h);
        } else {
          ghost var before := facts;
          raised := FinishApplied(h, status);
          SendsNoCalls(before + [Concluded(h)], facts, [ReportOk(h, status), AckOk(h, Applied)]);
        }
      case _ => raised := FinishFailed(h);
    }

    // Applied for a good answer to the mode that was asked for, failed for any other,
    // unstarted again after a cancellation, stuck after a crash.
    predicate Verdict(request: Request, a: Answer, r: Rec) {
      match a
      case Gone => r.stage == AcceptedStage && !r.started
      case Crash => Running(r)
      case Okay(requested, status) =>
        r.stage == Terminal
        && if request.mode.Some? && requested != request.mode then r.final == Some(Failed)
           else r.final == Some(Applied) && r.report == Some(status)
      case _ => r.stage == Terminal && r.final == Some(Failed)
    }

    method Conclude(h: Handle, r: Rec)
      requires Valid({h}) && h < |recs| && recs[h].stage == AcceptedStage && Crashed(h) !in facts
      requires r == recs[h].(stage := Terminal, final := r.final, finalPending := true, report := r.report,
                             reportPending := r.report.Some?)
      requires r.final == Some(if r.report.Some? then Applied else Failed)
      requires r.report.Some? ==> Granted(facts, h, r.request.mode, r.report.value)
      modifies this`recs, this`facts
      ensures Valid({h}) && recs == old(recs)[h := r] && facts == old(facts) + [Concluded(h)]
    {
      BackedHere(h, {h});
      ConcludeKeeps(c.cacheSize, recs, queue, cache, closed, facts, {h}, h, r);
      recs, facts := recs[h := r], facts + [Concluded(h)];
    }

    method FinishApplied(h: Handle, status: string) returns (raised: bool)
      requires Valid({h}) && Asking(h) && Granted(facts, h, recs[h].request.mode, status)
      modifies this
      ensures Turned(h, raised) && Paced(old(at), old(queue))
      ensures recs[h].stage == Terminal && recs[h].final == Some(Applied) && recs[h].report == Some(status)
      ensures Sends(old(facts) + [Concluded(h)], facts, [ReportOk(h, status), AckOk(h, Applied)])
      ensures SilentOk(old(at)) && SilentOk(old(at) + 1) ==>
        Quietly(raised, 2, old(at), old(queue), old(closed))
        && facts == old(facts) + [Concluded(h), ReportOk(h, status), AckOk(h, Applied)]
    {
      hide Inv;
      Conclude(h, recs[h].(stage := Terminal, report := Some(status), reportPending := true,
                           final := Some(Applied), finalPending := true));
      raised := Flush(h);
    }

    // _finish_failed
    method FinishFailed(h: Handle) returns (raised: bool)
      requires Valid({h}) && h < |recs| && recs[h].stage == AcceptedStage && Crashed(h) !in facts
      modifies this
      ensures Turned(h, raised) && Paced(old(at), old(queue))
      ensures recs[h].stage == Terminal && recs[h].final == Some(Failed)
      ensures facts == old(facts) + [Concluded(h)] || facts == old(facts) + [Concluded(h)] + [AckOk(h, Failed)]
      ensures SilentOk(old(at)) ==>
        Quietly(raised, 1, old(at), old(queue), old(closed)) && facts == old(facts) + [Concluded(h), AckOk(h, Failed)]
    {
      hide Inv;
      BackedHere(h, {h});
      Conclude(h, recs[h].(stage := Terminal, final := Some(Failed), finalPending := true));
      var sent := SendOrRetry(AckOk(h, Failed), h);
      if sent == Yes {
        Rest(h);
      }
      return sent == Raised;
    }

    // _reset_retry
    function Reset(r: Rec): Rec {
      r.(timer := false, retries := 0)
    }

    // So many suspensions went by, and nothing came into the queue.
    predicate Quietly(raised: bool, n: nat, was: nat, waiting: seq<Item>, wasClosed: bool)
      reads this
    {
      !raised && at == was + n && queue == waiting && closed == wasClosed
    }

    // _flush_terminal: the report first, then the outcome.
    method Flush(h: Handle) returns (raised: bool)
      requires Valid({h}) && h < |recs| && (recs[h].stage == Terminal || Crashed(h) in facts)
      modifies this
      ensures Turned(h, raised) && Paced(old(at), old(queue))
      ensures SameCores(old(recs), recs)
      ensures Sends(old(facts), facts, Owed(old(recs)[h], h))
      ensures !raised ==> !recs[h].finalPending || recs[h].timer || closed
      // With OK for an answer both go out.
      ensures old(recs)[h].reportPending && old(recs)[h].finalPending && SilentOk(old(at)) && SilentOk(old(at) + 1) ==>
        Quietly(raised, 2, old(at), old(queue), old(closed)) && facts == old(facts) + Owed(old(recs)[h], h)
    {
      hide Inv;
      BackedHere(h, {h});
      if recs[h].reportPending {
        var sent := FlushReport(h);
        if sent != Yes {
          return sent == Raised;
        }
      }
      raised := FlushFinal(h);
    }

    method FlushReport(h: Handle) returns (sent: Sent)
      requires Valid({h}) && h < |recs| && recs[h].reportPending
      modifies this
      ensures Turned(h, sent != No) && Paced(old(at), old(queue)) && SameCores(old(recs), recs)
      ensures sent == Yes ==> Reported(facts, h)
      ensures facts == if sent == Yes then old(facts) + [ReportOk(h, old(recs)[h].report.value)] else old(facts)
      ensures sent == No ==> !recs[h].finalPending || recs[h].timer || closed
      ensures SilentOk(old(at)) ==> sent == Yes && recs[h].finalPending == old(recs)[h].finalPending
      ensures SilentOk(old(at)) ==> Quietly(false, 1, old(at), old(queue), old(closed))
    {
      hide Inv;
      BackedHere(h, {h});
      ghost var before := recs;
      var status := recs[h].report.value;
      ReportMay(recs[h], h, facts);
      sent := SendOrRetry(ReportOk(h, status), h);
      if sent == Yes {
        ghost var between := recs;
        MarkReported(h, status);
        CoresThrough(before, between, recs);
      }
    }

    method MarkReported(h: Handle, ghost status: string)
      requires Valid({h}) && Quiet(h) && ReportOk(h, status) in facts
      modifies this`recs
      ensures Valid({h}) && Quiet(h) && SameCores(old(recs), recs) && Reported(facts, h)
      ensures |recs| == |old(recs)| && recs[h].finalPending == old(recs)[h].finalPending
    {
      hide Inv;
      BackedHere(h, {h});
      ReportDone(recs[h], h, facts, status);
      Put(h, recs[h].(reportPending := false), {h});
    }

    method FlushFinal(h: Handle) returns (raised: bool)
      requires Valid({h}) && h < |recs| && (recs[h].stage == Terminal || Crashed(h) in facts)
      requires recs[h].finalPending && recs[h].final == Some(Applied) ==> Reported(facts, h)
      modifies this
      ensures Turned(h, raised) && Paced(old(at), old(queue))
      ensures SameCores(old(recs), recs)
      ensures facts == old(facts) || (old(recs)[h].finalPending && facts == old(facts) + [AckOk(h, old(recs)[h].final.value)])
      ensures !raised ==> !recs[h].finalPending || recs[h].timer || closed
      ensures SilentOk(old(at)) && old(recs)[h].finalPending ==>
        Quietly(raised, 1, old(at), old(queue), old(closed)) && facts == old(facts) + [AckOk(h, old(recs)[h].final.value)]
    {
      hide Inv;
      BackedHere(h, {h});
      ghost var before := recs;
      if recs[h].finalPending {
        var sent := SendOrRetry(AckOk(h, recs[h].final.value), h);
        if sent != Yes {
          return sent == Raised;
        }
      }
      ghost var between := recs;
      Rest(h);
      CoresThrough(before, between, recs);
      return false;
    }

    // The outcome is out: nothing is owed and the retry budget is whole again.
    method Rest(h: Handle)
      requires Valid({h}) && h < |recs| && (recs[h].stage == Terminal || Crashed(h) in facts)
      requires recs[h].finalPending ==> recs[h].final.Some? && AckOk(h, recs[h].final.value) in facts
      modifies this`recs
      ensures Turned(h, false) && SameCores(old(recs), recs)
      ensures recs == old(recs)[h := Reset(old(recs)[h].(finalPending := false))]
    {
      var r := Reset(recs[h].(finalPending := false));
      BackedHere(h, {h});
      PatchKeeps(c.cacheSize, recs, queue, cache, closed, facts, {}, h, r);
      recs := recs[h := r];
    }

    // Where work on a record resumes: before ACCEPTED it starts over, after it the service
    // is asked, and once finished only what is owed goes out.
    predicate Resumes(r: Rec, before: seq<Fact>, after: seq<Fact>, h: Handle) {
      if r.stage == Queued then Begins(before, after, h, MaxCalls(r.request))
      else if r.stage == AcceptedStage && !r.started then Executes(before, after, h, MaxCalls(r.request))
      else Sends(before, after, Owed(r, h)) && NoCalls(before, after)
    }

    // _replay
    method Replay(h: Handle) returns (raised: bool)
      requires Valid({h}) && Quiet(h)
      modifies this
      ensures Turned(h, raised) && Paced(old(at), old(queue))
      ensures Resumes(old(recs)[h], old(facts), facts, h)
      ensures c.enabled && old(recs)[h].stage == Queued && SilentOk(old(at)) && SilentCrash(old(at) + 1) ==>
        Stuck(h, raised, old(Entered()), old(closed)) && at == old(at) + 2
      ensures c.enabled && old(recs)[h].stage == Queued && SilentOk(old(at)) && Serving(old(at) + 1) ==>
        Told(raised, old(recs)[h].request, h, old(at) + 1, old(facts) + [AckOk(h, Accepted)], old(queue), old(closed))
    {
      hide Inv;
      if recs[h].stage == Queued {
        raised := Begin(h);
      } else if recs[h].stage == AcceptedStage && !recs[h].started {
        raised := Execute(h);
      } else {
        ghost var before, r := facts, recs[h];
        raised := Flush(h);
        SendsNoCalls(before, facts, Owed(r, h));
      }
    }

    // ---- the supervisor ------------------------------------------------------------------------

    // link_reset
    method LinkReset(ghost h: Handle)
      requires Valid({h}) && Quiet(h)
      modifies this`recs, this`queue, this`cache
      ensures Valid({}) && queue == [] && cache == []
      ensures |recs| == |old(recs)| && forall k :: 0 <= k < |recs| ==> recs[k] == old(recs)[k].(timer := false)
    {
      var was := recs;
      queue, cache := [], [];
      recs := seq(|was|, k requires 0 <= k < |was| => was[k].(timer := false));
      forall k | 0 <= k < |was|
        ensures Backed(recs[k], k, facts) && (Running(recs[k]) ==> Crashed(k) in facts)
      {
        assert Backed(was[k], k, facts) && (!Running(was[k]) || k == h || Crashed(k) in facts);
      }
    }

    // Where the run of a crash script stands between two turns.
    ghost predicate Phase()
      reads this
    {
      && (at == 0 ==> !closed && Entered() == Books([], [], []))
      && (at == 1 ==> !closed && exists r: Request :: Entered() == Books([NewRec(r)], [Item(0, false)], [0]))
      && at != 2 && (at > 2 ==> Stranded(recs, queue, cache, closed, facts))
    }

    ghost predicate FirstEntered()
      reads this
    {
      && |script| > 0 && |script[0].events| == 1 && script[0].events[0].Event?
      && Entered() == Books([NewRec(script[0].events[0].request)], [Item(0, false)], [0])
    }

    // The same for a run in which the service answers.
    ghost predicate GoodPhase()
      reads this
    {
      && (at == 0 ==> !closed && Entered() == Books([], [], []) && facts == [])
      && (at == 1 ==> !closed && facts == [] && FirstEntered())
      && at != 2 && at != 3 && (at > 3 ==> queue == [])
      && (at > 3 && |script| == 5 && |script[0].events| == 1 && script[0].events[0].Event? ==> facts == Story(script))
    }

    // The first item leaves the queue.
    ghost function Taken(): Books
      requires queue != []
      reads this
    {
      var h := queue[0].h;
      Books(if h < |recs| then recs[h := recs[h].(enqueued := false)] else recs, queue[1..], cache)
    }

    // One turn of the loop in run: take an item, work on its record.
    method Turn() returns (raised: bool, h: Handle)
      requires Valid({}) && queue != []
      modifies this
      ensures Turned(h, raised) && (at > old(at) || (at == old(at) && |queue| < |old(queue)|))
      ensures h == old(queue)[0].h < |old(recs)| && Resumes(old(recs)[h], old(facts), facts, h)
      ensures c.enabled && old(recs)[h].stage == Queued && SilentOk(old(at)) && SilentCrash(old(at) + 1) ==>
        at == old(at) + 2 && Stuck(h, raised, old(Taken()), old(closed))
      ensures c.enabled && old(recs)[h].stage == Queued && SilentOk(old(at)) && Serving(old(at) + 1) ==>
        Told(raised, old(recs)[h].request, h, old(at) + 1, old(facts) + [AckOk(h, Accepted)], old(queue)[1..], old(closed))
    {
      hide Inv;
      var replay;
      h, replay := Take();
      if !replay && recs[h].stage == Queued {
        raised := Begin(h);
      } else {
        raised := Replay(h);
      }
    }

    method Take() returns (h: Handle, replay: bool)
      requires Valid({}) && queue != []
      modifies this`recs, this`queue
      ensures Valid({h}) && Quiet(h) && Item(h, replay) == old(queue)[0] && h < |old(recs)|
      ensures Entered() == old(Taken()) && recs[h] == old(recs)[h].(enqueued := false)
    {
      h, replay := queue[0].h, queue[0].replay;
      TakeKeeps(c.cacheSize, recs, queue, cache, closed, facts);
      queue, recs := queue[1..], recs[h := recs[h].(enqueued := false)];
    }

    // run, restarted after every link loss, for as long as the script goes on.
    method Run()
      requires Valid({}) && at == 0 && !closed && Entered() == Books([], [], [])
      modifies this
      ensures Valid({}) && at == |script|
      ensures CrashScript(c, script) ==> Stranded(recs, queue, cache, closed, facts)
      ensures GoodScript(c, script) && old(facts) == [] ==> facts == Story(script)
    {
      hide Inv;
      while at < |script|
        invariant Valid({})
        invariant CrashScript(c, script) ==> Phase()
        invariant GoodScript(c, script) && old(facts) == [] ==> GoodPhase()
        decreases |script| - at, |queue|
      {
        if queue == [] {
          Idle();
        } else {
          Work();
        }
      }
    }

    // Wait for an item.
    method Idle()
      requires Valid({}) && queue == [] && at < |script|
      modifies this
      ensures Valid({}) && at > old(at)
      ensures CrashScript(c, script) && old(Phase()) ==> Phase()
      ensures GoodScript(c, script) && old(GoodPhase()) ==> GoodPhase()
    {
      hide Inv;
      if (CrashScript(c, script) || GoodScript(c, script)) && at == 0 {
        FirstRequest(c, script[0].events[0].request);
      }
      var _ := Await({});
    }

    // Take an item; after a raised exception the supervisor starts over.
    method Work()
      requires Valid({}) && queue != [] && at < |script|
      modifies this
      ensures Valid({}) && (at > old(at) || (at == old(at) && |queue| < |old(queue)|))
      ensures CrashScript(c, script) && old(Phase()) ==> Phase()
      ensures GoodScript(c, script) && old(GoodPhase()) ==> GoodPhase()
    {
      hide Inv, Resumes;
      var raised, h := Turn();
      if raised {
        LinkReset(h);
      }
    }
  }

  // One request arrives, ACCEPTED is OK'd, the service call crashes.
  predicate CrashScript(c: Config, script: seq<Moment>) {
    && c.enabled && c.queueSize > 0 && c.cacheSize > 0 && |script| == 3
    && |script[0].events| == 1 && script[0].events[0].Event?
    && script[1].events == [] && script[1].answer.Okay?
    && script[2] == Moment([], Crash)
  }

  // The only request there is sits in the cache, in the middle of its service call; no
  // queue item, no timer and no worker will ever touch it.
  predicate Stranded(recs: seq<Rec>, queue: seq<Item>, cache: seq<Handle>, closed: bool, facts: seq<Fact>) {
    && |recs| == 1 && queue == [] && cache == [0] && !closed && Crashed(0) in facts
    && recs[0].stage == AcceptedStage && recs[0].started && !recs[0].enqueued && !recs[0].timer
  }

  // One request arrives, ACCEPTED is OK'd, the service answers, every write is OK'd.
  predicate GoodScript(c: Config, script: seq<Moment>) {
    && c.enabled && c.queueSize > 0 && c.cacheSize > 0 && |script| == 5
    && |script[0].events| == 1 && script[0].events[0].Event?
    && (forall k :: 0 < k < 5 ==> script[k].events == []) && script[1].answer.Okay?
    && (script[2].answer.Okay? || script[2].answer == Refused) && script[3].answer.Okay? && script[4].answer.Okay?
  }

  // All that happens then: one service call, and APPLIED behind the report, or FAILED.
  function Story(script: seq<Moment>): seq<Fact>
    requires |script| == 5 && |script[0].events| == 1 && script[0].events[0].Event?
  {
    [AckOk(0, Accepted), Asked(0)] + Reply(0, script[2].answer) + Ending(script[0].events[0].request, 0, script[2].answer)
  }

  lemma FirstRequest(c: Config, request: Request)
    requires c.queueSize > 0 && c.cacheSize > 0
    ensures Submitted(c, Books([], [], []), Event(request)) == Books([NewRec(request)], [Item(0, false)], [0])
  {
    var b := Submitted(c, Books([], [], []), Event(request));
    assert b.recs == [NewRec(request)] && b.queue == [Item(0, false)] && b.cache == [0];
  }

  // What the crash does to one request: it is never answered.
  method CrashStrands(c: Config, request: Request)
    returns (recs: seq<Rec>, cache: seq<Handle>, facts: seq<Fact>)
    requires c.enabled && c.queueSize > 0 && c.cacheSize > 0
    ensures cache == [0] && |recs| == 1 && recs[0].stage == AcceptedStage && !recs[0].enqueued && !recs[0].timer
    ensures Crashed(0) in facts && !Answered(0, facts)
  {
    var okay := Okay(None, "");
    var closed;
    recs, cache, closed, facts :=
      Serve(c, [Moment([Event(request)], Gone), Moment([], okay), Moment([], Crash)]);
    assert Backed(recs[0], 0, facts);
  }

  // Once a request is finished the service is never asked about it again.
  ghost predicate NeverAskedAgain(facts: seq<Fact>) {
    forall i, j :: 0 <= i < j < |facts| && facts[i].Concluded? ==> facts[j] != Asked(facts[i].h)
  }

  lemma OrderedNeverAsksAgain(facts: seq<Fact>)
    requires Ordered(facts)
    ensures NeverAskedAgain(facts)
  {
    forall i, j | 0 <= i < j < |facts| && facts[i].Concluded?
      ensures facts[j] != Asked(facts[i].h)
    {
      assert May(facts[j], facts[..j]) && facts[..j][i] == facts[i];
    }
  }

  // Every run, whatever the device, the service and the link do.
  method Serve(c: Config, script: seq<Moment>)
    returns (recs: seq<Rec>, cache: seq<Handle>, closed: bool, facts: seq<Fact>)
    ensures Ordered(facts) && NeverAskedAgain(facts) && AllBacked(recs, facts) && CacheOk(recs, cache, c.cacheSize)
    // A finished request that owes nothing has had its outcome, and its report if any, OK'd.
    ensures forall h :: h in cache && h < |recs| && Evictable(recs[h]) ==> Delivered(recs[h], h, facts)
    // A cached request is left unfinished for good exactly when its service call crashed.
    ensures forall h :: h in cache && h < |recs| && !recs[h].enqueued && !recs[h].timer && !closed ==>
      (recs[h].stage != Terminal <==> Crashed(h) in facts)
    // Every request can be left like that.
    ensures CrashScript(c, script) ==> cache == [0] && |recs| == 1 && recs[0].stage == AcceptedStage
    ensures CrashScript(c, script) ==> !recs[0].enqueued && !recs[0].timer && !closed
    // And this is all that happens to a request when nothing goes wrong.
    ensures GoodScript(c, script) ==> facts == Story(script)
  {
    var fan := new FanController(c, script);
    fan.Run();
    recs, cache, closed, facts := fan.recs, fan.cache, fan.closed, fan.facts;
    assert forall h :: 0 <= h < |recs| ==> Backed(recs[h], h, facts);
    OrderedNeverAsksAgain(facts);
  }

  ghost predicate Delivered(r: Rec, h: Handle, facts: seq<Fact>) {
    && r.final.Some? && AckOk(h, r.final.value) in facts
    && (r.final == Some(Applied) ==>
          r.report.Some? && Reported(facts, h) && Granted(facts, h, r.request.mode, r.report.value))
  }

  function IndexOf(cache: seq<Handle>, h: Handle): (i: nat)
    ensures i <= |cache| && (i < |cache| ==> cache[i] == h)
    ensures i == |cache| ==> h !in cache
  {
    if cache == [] || cache[0] == h then 0 else 1 + IndexOf(cache[1..], h)
  }

  // ---- the invariant ----------------------------------------------------------------------

  // A service call is under way.
  predicate Running(r: Rec) {
    r.stage == AcceptedStage && r.started
  }

  // A cached record that nobody will touch again is finished, or its service call crashed.
  ghost predicate Settled(r: Rec, h: Handle, closed: bool, facts: seq<Fact>, held: set<Handle>) {
    || r.stage == Terminal || r.enqueued || (r.timer && CallbacksPending(r)) || closed
    || h in held || Crashed(h) in facts
  }

  ghost predicate Inv(limit: nat, recs: seq<Rec>, queue: seq<Item>, cache: seq<Handle>, closed: bool,
                      facts: seq<Fact>, held: set<Handle>)
  {
    && AllBacked(recs, facts) && CacheOk(recs, cache, limit) && QueueOk(recs, queue) && Ordered(facts)
    && (forall h :: h in cache && h < |recs| ==> Settled(recs[h], h, closed, facts, held))
    && forall h :: 0 <= h < |recs| ==> !Running(recs[h]) || h in held || Crashed(h) in facts
  }

  lemma ReportMay(r: Rec, h: Handle, facts: seq<Fact>)
    requires Backed(r, h, facts) && r.reportPending
    ensures May(ReportOk(h, r.report.value), facts)
  {
    var requested: Option<string> :| Served(h, requested, r.report.value) in facts;
  }

  lemma ReportDone(r: Rec, h: Handle, facts: seq<Fact>, status: string)
    requires Backed(r, h, facts) && ReportOk(h, status) in facts
    ensures Reported(facts, h) && Backed(r.(reportPending := false), h, facts)
  {
  }

  lemma FactKeeps(limit: nat, recs: seq<Rec>, queue: seq<Item>, cache: seq<Handle>, closed: bool,
                  facts: seq<Fact>, held: set<Handle>, f: Fact)
    requires Inv(limit, recs, queue, cache, closed, facts, held) && f.h < |recs|
    requires May(f, facts)
    requires f.AckOk? && f.ack != Accepted ==> recs[f.h].stage == Terminal
    requires !f.Concluded? && (f.Crashed? ==> Running(recs[f.h]))
    ensures Inv(limit, recs, queue, cache, closed, facts + [f], held)
  {
    OrderedNext(facts, f);
    assert Backed(recs[f.h], f.h, facts);
    forall h | 0 <= h < |recs|
      ensures Backed(recs[h], h, facts + [f])
    {
      assert Backed(recs[h], h, facts);
    }
  }

  // A record is finished: its verdict and the fact that there is one come together.
  lemma ConcludeKeeps(limit: nat, recs: seq<Rec>, queue: seq<Item>, cache: seq<Handle>, closed: bool,
                      facts: seq<Fact>, held: set<Handle>, h: Handle, r: Rec)
    requires Inv(limit, recs, queue, cache, closed, facts, held) && h < |recs|
    requires r.stage == Terminal && Backed(r, h, facts + [Concluded(h)])
    requires SameIdentity(recs[h], r) && r.abandoned == recs[h].abandoned
    ensures Inv(limit, recs[h := r], queue, cache, closed, facts + [Concluded(h)], held)
  {
    OrderedNext(facts, Concluded(h));
    ConcludeBacked(recs, facts, h, r);
    SamePlaces(limit, recs, queue, cache, h, r);
  }

  lemma ConcludeBacked(recs: seq<Rec>, facts: seq<Fact>, h: Handle, r: Rec)
    requires AllBacked(recs, facts) && h < |recs| && Backed(r, h, facts + [Concluded(h)])
    ensures AllBacked(recs[h := r], facts + [Concluded(h)])
  {
    var after := recs[h := r];
    forall k | 0 <= k < |after|
      ensures Backed(after[k], k, facts + [Concluded(h)])
    {
      assert Backed(recs[k], k, facts);
    }
  }

  // A record changes in place.
  lemma SamePlaces(limit: nat, recs: seq<Rec>, queue: seq<Item>, cache: seq<Handle>, h: Handle, r: Rec)
    requires CacheOk(recs, cache, limit) && QueueOk(recs, queue) && h < |recs|
    requires SameIdentity(recs[h], r) && (r.abandoned && !recs[h].abandoned ==> h !in cache)
    ensures CacheOk(recs[h := r], cache, limit) && QueueOk(recs[h := r], queue)
  {
    assert forall i :: 0 <= i < |cache| ==> recs[h := r][cache[i]] == if cache[i] == h then r else recs[cache[i]];
    assert forall i :: 0 <= i < |queue| ==> recs[h := r][queue[i].h] == if queue[i].h == h then r else recs[queue[i].h];
  }

  // One record changes without touching its identity or its place in the queue.
  lemma PatchKeeps(limit: nat, recs: seq<Rec>, queue: seq<Item>, cache: seq<Handle>, closed: bool,
                   facts: seq<Fact>, held: set<Handle>, h: Handle, r: Rec)
    requires Inv(limit, recs, queue, cache, closed, facts, held) && h < |recs|
    requires Backed(r, h, facts)
    requires SameIdentity(recs[h], r) && (r.abandoned && !recs[h].abandoned ==> h !in cache)
    ensures Inv(limit, recs[h := r], queue, cache, closed, facts, held + {h})
    ensures Settled(r, h, closed, facts, held) && (!Running(r) || h in held || Crashed(h) in facts) ==>
      Inv(limit, recs[h := r], queue, cache, closed, facts, held)
  {
    SamePlaces(limit, recs, queue, cache, h, r);
  }

  // A record that is settled, or forgotten, can be let go of.
  lemma Release(limit: nat, recs: seq<Rec>, queue: seq<Item>, cache: seq<Handle>, closed: bool,
                facts: seq<Fact>, held: set<Handle>, h: Handle)
    requires Inv(limit, recs, queue, cache, closed, facts, held + {h}) && h < |recs|
    requires h in cache ==> Settled(recs[h], h, closed, facts, held)
    requires !Running(recs[h]) || h in held || Crashed(h) in facts
    ensures Inv(limit, recs, queue, cache, closed, facts, held)
  {
  }

  lemma QueuePut(limit: nat, recs: seq<Rec>, queue: seq<Item>, cache: seq<Handle>, closed: bool,
                 facts: seq<Fact>, held: set<Handle>, item: Item)
    requires Inv(limit, recs, queue, cache, closed, facts, held + {item.h})
    requires item.h < |recs| && recs[item.h].retryAllowed && !recs[item.h].enqueued
    requires Running(recs[item.h]) ==> item.h in held || Crashed(item.h) in facts
    ensures Inv(limit, recs[item.h := recs[item.h].(enqueued := true)], queue + [item], cache, closed, facts, held)
  {
    var h, r := item.h, recs[item.h].(enqueued := true);
    assert Backed(r, h, facts);
    assert forall i :: 0 <= i < |cache| ==> recs[h := r][cache[i]] == if cache[i] == h then r else recs[cache[i]];
    assert forall i :: 0 <= i < |queue| ==> recs[h := r][queue[i].h] == if queue[i].h == h then r else recs[queue[i].h];
  }

  lemma TakeKeeps(limit: nat, recs: seq<Rec>, queue: seq<Item>, cache: seq<Handle>, closed: bool, facts: seq<Fact>)
    requires queue != [] && Inv(limit, recs, queue, cache, closed, facts, {})
    ensures queue[0].h < |recs|
    ensures var h := queue[0].h;
      Inv(limit, recs[h := recs[h].(enqueued := false)], queue[1..], cache, closed, facts, {h})
  {
    var h := queue[0].h;
    var r := recs[h].(enqueued := false);
    assert Backed(r, h, facts);
    assert forall i :: 0 <= i < |cache| ==> recs[h := r][cache[i]] == if cache[i] == h then r else recs[cache[i]];
    assert forall i :: 0 < i < |queue| ==> queue[i].h != h && recs[h := r][queue[i].h] == recs[queue[i].h];
  }

  predicate NewId(recs: seq<Rec>, cache: seq<Handle>, id: string) {
    forall k :: 0 <= k < |cache| ==> cache[k] < |recs| && recs[cache[k]].request.id != id
  }

  lemma StillNew(recs: seq<Rec>, before: seq<Handle>, cache: seq<Handle>, id: string)
    requires NewId(recs, before, id)
    requires forall h :: h in cache ==> h in before
    ensures NewId(recs, cache, id)
  {
    forall k | 0 <= k < |cache|
      ensures cache[k] < |recs| && recs[cache[k]].request.id != id
    {
      assert cache[k] in before;
    }
  }

  // A record that has no history yet, already in the queue.
  lemma AddRecord(limit: nat, recs: seq<Rec>, queue: seq<Item>, cache: seq<Handle>, closed: bool,
                  facts: seq<Fact>, held: set<Handle>, r: Rec, replay: bool)
    requires Inv(limit, recs, queue, cache, closed, facts, held)
    requires r.final != Some(Applied) && r.final != Some(Accepted) && r.report.None? && !r.reportPending && !r.timer
    requires !r.started && !r.abandoned
    requires if r.retryAllowed then r.stage == Queued && r.final.None? && !r.finalPending && r.enqueued
      else r.stage == Terminal && r.final.Some? && r.finalPending
    ensures Inv(limit, recs + [r], queue + [Item(|recs|, replay)], cache, closed, facts, held)
    ensures r.retryAllowed && |cache| < limit && NewId(recs, cache, r.request.id) ==>
      Inv(limit, recs + [r], queue + [Item(|recs|, replay)], cache + [|recs|], closed, facts, held)
  {
    var n, all := |recs|, recs + [r];
    assert Crashed(n) !in facts && Concluded(n) !in facts && AckOk(n, Applied) !in facts && AckOk(n, Failed) !in facts;
    assert Backed(r, n, facts);
  }

  lemma TouchKeeps(limit: nat, recs: seq<Rec>, queue: seq<Item>, cache: seq<Handle>, closed: bool,
                   facts: seq<Fact>, held: set<Handle>, i: nat)
    requires Inv(limit, recs, queue, cache, closed, facts, held) && i < |cache|
    ensures Inv(limit, recs, queue, Without(cache, i) + [cache[i]], closed, facts, held)
    ensures forall h :: h in Without(cache, i) + [cache[i]] <==> h in cache
  {
    MoveToEnd(recs, cache, limit, i);
  }

  lemma MoveToEnd(recs: seq<Rec>, cache: seq<Handle>, limit: nat, i: nat)
    requires CacheOk(recs, cache, limit) && i < |cache|
    ensures CacheOk(recs, Without(cache, i) + [cache[i]], limit)
    ensures forall h :: h in Without(cache, i) + [cache[i]] <==> h in cache
  {
    var moved := Without(cache, i) + [cache[i]];
    forall k | 0 <= k < |moved|
      ensures moved[k] == if k < i then cache[k] else if k < |cache| - 1 then cache[k + 1] else cache[i]
    {
    }
    forall k | 0 <= k < |cache|
      ensures cache[k] in moved
    {
      assert moved[if k < i then k else if k == i then |cache| - 1 else k - 1] == cache[k];
    }
  }

  lemma DistinctCache(recs: seq<Rec>, cache: seq<Handle>, limit: nat, i: nat)
    requires CacheOk(recs, cache, limit) && i < |cache|
    ensures CacheOk(recs, Without(cache, i), limit - 1)
    ensures cache[i] !in Without(cache, i)
    ensures forall k :: k in Without(cache, i) ==> k in cache
  {
    var rest := Without(cache, i);
    assert forall k :: 0 <= k < |rest| ==> rest[k] == if k < i then cache[k] else cache[k + 1];
  }
}
