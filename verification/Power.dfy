// Two-phase host power control.  The controller is one worker coroutine plus
// callbacks; everything between two awaits is one atomic step.  A record object
// is a handle into the table of all records ever made.

module Power {
  import opened Bytes

  type Id = string

  datatype Action = Status | Profile(name: string) | Reboot | Halt | Poweroff | Suspend | SleepFor(minutes: nat)

  predicate Destructive(a: Action) {
    a.Reboot? || a.Halt? || a.Poweroff? || a.Suspend? || a.SleepFor?
  }

  // The actions a device asks for only once it knows the boot, so that a readiness report
  // still owed is dropped; POWEROFF, which no event asks for, is not among them.
  predicate RetiresReady(a: Action) {
    a.Reboot? || a.Halt? || a.Suspend? || a.SleepFor?
  }

  datatype Request = Request(id: Id, action: Action)

  datatype Ack = Accepted | Committed | Applied | Failed

  datatype Stage = Queued | InFlight | AcceptedStage | CommittedStage | Terminal

  datatype Rec = Rec(
    request: Request, ack: Option<Ack>, pending: bool, retries: nat, timer: Option<Ack>,
    started: bool, stage: Stage, enqueued: bool)

  type Handle = nat

  datatype Item = Work(h: Handle, replay: bool) | Ready

  // Where the worker is suspended while it handles an item.
  datatype Point =
    | ReadyReport                 // id=0 readiness report
    | Replaying(ack: Ack)         // re-sending a cached ACK
    | CheckingSupport             // helper status before suspend or sleep
    | SendingAccepted
    | QueryingStatus | StatusReport
    | ApplyingProfile | ProfileReport
    | TransitionReport
    | SendingCommitted
    | WaitingForHelper            // helper lock
    | Executing                   // destructive helper running
    | FailureReport
    | SendingFinal(wake: bool)    // applied or failed
    | WakeReport | WakeReady      // after a resume from suspend
    | LateFailure                 // FAILED sent from the exception handler

  datatype Worker = Idle | Busy(item: Item, at: Point)

  // History kept for the claims only.
  datatype Fact = AckOk(h: Handle, ack: Ack) | SupportOk(h: Handle) | Invoked(h: Handle) | HelperOk(h: Handle)

  datatype State = State(
    recs: seq<Rec>, cache: seq<Handle>, queue: seq<Item>, worker: Worker,
    readyPending: bool, readyEnqueued: bool, readyRetries: nat, readyTimer: bool,
    closed: bool, trace: seq<Fact>)

  datatype Config = Config(enabled: bool, allowSuspend: bool, queueSize: nat, cacheSize: nat)

  const ACK_RETRIES: nat := 5
  const READY_RETRIES: nat := 7

  const START := State([], [], [], Idle, false, false, 0, false, false, [])

  // What the environment answers at an await.  Stop is LinkClosed or
  // cancellation; Crash is any other exception, which only the helper raises.
  datatype Answer = Ok_ | Refused | Stop | Crash

  predicate InRange(cache: seq<Handle>, n: nat) {
    forall i :: 0 <= i < |cache| ==> cache[i] < n
  }

  datatype Event = NotPower | Malformed(id: Option<Id>) | Parsed(request: Request)

  // ---- queue ------------------------------------------------------------------

  predicate Full(c: Config, s: State) {
    |s.queue| >= c.queueSize
  }

  function Enqueue(c: Config, s: State, item: Item): State {
    if Full(c, s) then s else s.(queue := s.queue + [item])
  }

  function Requeue(c: Config, s: State, h: Handle): State
    requires h < |s.recs|
  {
    if s.recs[h].stage != Queued || s.recs[h].enqueued || Full(c, s) then s
    else s.(queue := s.queue + [Work(h, false)], recs := s.recs[h := s.recs[h].(enqueued := true)])
  }

  function Recover(c: Config, s: State, h: Handle): State
    requires h < |s.recs|
  {
    var r := s.recs[h];
    if !r.started && (r.stage == InFlight || r.stage == AcceptedStage) then
      Requeue(c, s.(recs := s.recs[h := r.(stage := Queued)]), h)
    else s
  }

  // ---- ACK cache and retries ----------------------------------------------------

  function CacheAck(r: Rec, a: Ack): Rec {
    (if r.ack == Some(a) then r else r.(timer := None, retries := 0)).(ack := Some(a), pending := true)
  }

  function AckDelivered(r: Rec, a: Ack): Rec {
    if r.ack != Some(a) then r else r.(pending := false, retries := 0, timer := None)
  }

  function ScheduleAck(closed: bool, r: Rec): Rec {
    if closed || !r.pending || r.ack == None || r.timer.Some? || r.retries >= ACK_RETRIES then r
    else r.(timer := r.ack, retries := r.retries + 1)
  }

  function ReadyDelivered(s: State): State {
    s.(readyPending := false, readyEnqueued := false, readyRetries := 0, readyTimer := false)
  }

  function ScheduleReady(s: State): State {
    if s.closed || !s.readyPending || s.readyEnqueued || s.readyTimer || s.readyRetries >= READY_RETRIES then s
    else s.(readyTimer := true, readyRetries := s.readyRetries + 1)
  }

  // ---- request cache ------------------------------------------------------------

  predicate Evictable(r: Rec) {
    r.stage == Terminal && !r.pending
  }

  function FirstEvictable(recs: seq<Rec>, cache: seq<Handle>): (i: nat)
    requires InRange(cache, |recs|)
    ensures i <= |cache|
    ensures forall k :: 0 <= k < i ==> !Evictable(recs[cache[k]])
    ensures i < |cache| ==> Evictable(recs[cache[i]])
  {
    if cache == [] || Evictable(recs[cache[0]]) then 0 else 1 + FirstEvictable(recs, cache[1..])
  }

  function Without<T>(s: seq<T>, i: nat): seq<T>
    requires i < |s|
  {
    s[..i] + s[i + 1..]
  }

  function Trimmed(recs: seq<Rec>, cache: seq<Handle>, limit: nat): (r: seq<Handle>)
    requires InRange(cache, |recs|)
    ensures InRange(r, |recs|)
    decreases |cache|
  {
    var i := FirstEvictable(recs, cache);
    if |cache| <= limit || i == |cache| then cache
    else
      Trimmed(recs, Without(cache, i), limit)
  }

  ghost predicate Closed(s: State) {
    && InRange(s.cache, |s.recs|)
    && (forall i :: 0 <= i < |s.queue| && s.queue[i].Work? ==> s.queue[i].h < |s.recs|)
    && (s.worker.Busy? && s.worker.item.Work? ==> s.worker.item.h < |s.recs|)
  }

  function Trim(c: Config, s: State): State
    requires InRange(s.cache, |s.recs|)
  {
    s.(cache := Trimmed(s.recs, s.cache, c.cacheSize))
  }

  function Find(recs: seq<Rec>, cache: seq<Handle>, id: Id): (i: nat)
    requires InRange(cache, |recs|)
    ensures i <= |cache|
    ensures forall k :: 0 <= k < i ==> recs[cache[k]].request.id != id
    ensures i < |cache| ==> recs[cache[i]].request.id == id
  {
    if cache == [] || recs[cache[0]].request.id == id then 0 else 1 + Find(recs, cache[1..], id)
  }

  // ---- events --------------------------------------------------------------------

  function NewRec(request: Request): Rec {
    Rec(request, None, false, 0, None, false, Queued, false)
  }

  // A duplicate of a cached request.
  function Known(c: Config, s: State, i: nat): State
    requires Closed(s) && i < |s.cache|
  {
    var h := s.cache[i];
    var s1 := s.(cache := Without(s.cache, i) + [h]);
    if s.recs[h].stage == Queued then Requeue(c, s1, h) else Enqueue(c, s1, Work(h, true))
  }

  function Fresh(c: Config, s: State, req: Request): State
    requires Closed(s)
  {
    if Full(c, s) then s
    else
      var h := |s.recs|;
      Trim(c, s.(recs := s.recs + [NewRec(req).(enqueued := true)], cache := s.cache + [h],
                 queue := s.queue + [Work(h, false)]))
  }

  function SubmitRequest(c: Config, s: State, req: Request): State
    requires Closed(s)
  {
    var s1 := if RetiresReady(req.action) then ReadyDelivered(s) else s;
    var i := Find(s1.recs, s1.cache, req.id);
    if i < |s1.cache| then Known(c, s1, i) else Fresh(c, s1, req)
  }

  function Submit(c: Config, s: State, e: Event): State
    requires Closed(s)
  {
    match e
    case NotPower => s
    case Malformed(None) => s
    case Malformed(Some(id)) =>
      if Full(c, s) then s
      else
        var rejected := Rec(Request(id, Status), Some(Failed), true, 0, None, false, Terminal, false);
        s.(recs := s.recs + [rejected], queue := s.queue + [Work(|s.recs|, true)])
    case Parsed(req) => SubmitRequest(c, s, req)
  }

  predicate OwesCallback(r: Rec) {
    r.ack.Some? && (r.pending || (r.stage == CommittedStage && !r.started))
  }

  // Newest first over the cache.
  function RequeueAll(c: Config, s: State, cache: seq<Handle>): (t: State)
    requires InRange(cache, |s.recs|)
    ensures |t.recs| == |s.recs| && t.cache == s.cache
    decreases |cache|
  {
    if cache == [] then s
    else RequeueAll(c, Requeue(c, s, cache[|cache| - 1]), cache[..|cache| - 1])
  }

  function ReplayAll(c: Config, s: State, cache: seq<Handle>): (t: State)
    requires InRange(cache, |s.recs|)
    ensures t.recs == s.recs && t.cache == s.cache
    decreases |cache|
  {
    if cache == [] then s
    else
      var h := cache[|cache| - 1];
      ReplayAll(c, if OwesCallback(s.recs[h]) then Enqueue(c, s, Work(h, true)) else s, cache[..|cache| - 1])
  }

  function ReplayCallbacks(c: Config, s: State): State
    requires InRange(s.cache, |s.recs|)
  {
    ReplayAll(c, RequeueAll(c, s, s.cache), s.cache)
  }

  function QueueReadyNow(c: Config, s: State): State {
    if s.closed || !s.readyPending || s.readyEnqueued then s
    else
      var s1 := s.(readyTimer := false);
      if Full(c, s1) then ScheduleReady(s1) else s1.(queue := s1.queue + [Ready], readyEnqueued := true)
  }

  function ReplayPending(c: Config, s: State): State
    requires Closed(s)
  {
    ReplayCallbacks(c, QueueReadyNow(c, s))
  }

  // An ACK retry timer runs out.
  function AckTimer(c: Config, s: State, h: Handle): State
    requires h < |s.recs|
  {
    var r := s.recs[h];
    if r.timer.None? then s
    else
      var s1 := s.(recs := s.recs[h := r.(timer := None)]);
      if s.closed || !r.pending || r.ack != r.timer then s1
      else if !Full(c, s1) then Enqueue(c, s1, Work(h, true))
      else s1.(recs := s1.recs[h := ScheduleAck(s.closed, r.(timer := None))])
  }

  function ReadyTimer(c: Config, s: State): State {
    if !s.readyTimer then s
    else
      var s1 := s.(readyTimer := false);
      if s1.closed || !s1.readyPending || s1.readyEnqueued then s1
      else if Full(c, s1) then ScheduleReady(s1)
      else s1.(queue := s1.queue + [Ready], readyEnqueued := true)
  }

  // ---- the worker ------------------------------------------------------------------

  function Done(c: Config, s: State): State
    requires InRange(s.cache, |s.recs|)
  {
    Trim(c, s).(worker := Idle)
  }

  function Put(s: State, r: Rec, at: Point): State
    requires s.worker.Busy? && s.worker.item.Work? && s.worker.item.h < |s.recs|
  {
    s.(recs := s.recs[s.worker.item.h := r], worker := s.worker.(at := at))
  }

  function Fail(s: State): State
    requires s.worker.Busy? && s.worker.item.Work? && s.worker.item.h < |s.recs|
  {
    Put(s, CacheAck(s.recs[s.worker.item.h].(stage := Terminal), Failed), FailureReport)
  }

  // The first stretch of _execute_record.
  function Begin(c: Config, s: State): State
    requires s.worker.Busy? && s.worker.item.Work? && s.worker.item.h < |s.recs|
  {
    var r := s.recs[s.worker.item.h];
    if !c.enabled || (r.request.action.Suspend? && !c.allowSuspend) then Fail(s)
    else if r.request.action.Suspend? || r.request.action.SleepFor? then Put(s, r, CheckingSupport)
    else Put(s, CacheAck(r, Accepted), SendingAccepted)
  }

  function TakeWork(c: Config, s: State, h: Handle, replay: bool): (t: State)
    requires Closed(s) && s.worker.Idle? && s.queue != [] && s.queue[0] == Work(h, replay)
    ensures t.worker.Busy? ==> t.worker.item == Work(h, replay)
  {
    var s1 := s.(queue := s.queue[1..], worker := Busy(Work(h, replay), ReadyReport));
    var r := if replay then s.recs[h] else s.recs[h].(enqueued := false);
    if !replay && r.stage == Queued then
      Begin(c, Put(s1, r.(stage := InFlight), SendingAccepted))
    else if r.ack.Some? then
      Put(s1, r.(pending := true), Replaying(r.ack.value))
    else
      Done(c, s1.(recs := s1.recs[h := r]))
  }

  function Take(c: Config, s: State): State
    requires Closed(s)
  {
    if s.worker.Busy? || s.queue == [] then s
    else
      match s.queue[0]
      case Ready =>
        var s1 := s.(queue := s.queue[1..], worker := Busy(Ready, ReadyReport), readyEnqueued := false);
        if s.readyPending then s1 else Done(c, s1)
      case Work(h, replay) => TakeWork(c, s, h, replay)
  }

  function Note(s: State, f: Fact): State {
    s.(trace := s.trace + [f])
  }

  // The reply to an ACK this worker sent: cache it as delivered or plan a retry.
  function AckReply(s: State, h: Handle, a: Ack, ok: bool): State
    requires h < |s.recs|
  {
    if ok then Note(s.(recs := s.recs[h := AckDelivered(s.recs[h], a)]), AckOk(h, a))
    else s.(recs := s.recs[h := ScheduleAck(s.closed, s.recs[h])])
  }

  ghost predicate Holding(s: State) {
    Closed(s) && s.worker.Busy? && s.worker.item.Work?
  }

  // The worker stays with its item or becomes idle.
  predicate SameItem(s: State, t: State) {
    t.worker.Busy? ==> s.worker.Busy? && t.worker.item == s.worker.item
  }

  function Move(s: State, at: Point): State
    requires s.worker.Busy?
  {
    s.(worker := s.worker.(at := at))
  }

  function ReplayReply(c: Config, s: State, a: Ack, ok: bool): (t: State)
    requires Holding(s)
    ensures SameItem(s, t)
  {
    var h := s.worker.item.h;
    var r := s.recs[h];
    var s1 := AckReply(s, h, a, ok);
    if ok && s.worker.item.replay && r.stage == CommittedStage && !r.started then Move(s1, WaitingForHelper)
    else Done(c, s1)
  }

  function SupportReply(s: State, ok: bool): (t: State)
    requires Holding(s)
    ensures SameItem(s, t)
  {
    var h := s.worker.item.h;
    if ok then Put(Note(s, SupportOk(h)), CacheAck(s.recs[h], Accepted), SendingAccepted) else Fail(s)
  }

  function AcceptedReply(s: State, ok: bool): (t: State)
    requires Holding(s)
    ensures SameItem(s, t)
  {
    var h := s.worker.item.h;
    var action := s.recs[h].request.action;
    var s1 := AckReply(s, h, Accepted, ok);
    if !ok then Put(s1, CacheAck(s1.recs[h].(stage := Terminal), Failed), SendingFinal(false))
    else Put(s1, s1.recs[h].(stage := AcceptedStage),
             if action.Status? then QueryingStatus else if action.Profile? then ApplyingProfile else TransitionReport)
  }

  function CommittedReply(s: State, ok: bool): (t: State)
    requires Holding(s)
    ensures SameItem(s, t)
  {
    var s1 := AckReply(s, s.worker.item.h, Committed, ok);
    if ok then Move(s1, WaitingForHelper) else Fail(s1)
  }

  // Status, profile and the transition report that precedes commitment.
  function ActionReply(s: State, ok: bool): (t: State)
    requires Holding(s)
    ensures SameItem(s, t)
  {
    var h := s.worker.item.h;
    var r := s.recs[h];
    match s.worker.at
    case QueryingStatus => if ok then Put(Note(s, HelperOk(h)), r, StatusReport) else Fail(s)
    case StatusReport => Put(s, CacheAck(r.(stage := Terminal), Applied), SendingFinal(false))
    case ApplyingProfile => if ok then Put(Note(s, HelperOk(h)), r.(stage := Terminal), ProfileReport) else Fail(s)
    case ProfileReport => Put(s, CacheAck(r, Applied), SendingFinal(false))
    case _ => Put(s, CacheAck(r.(stage := CommittedStage), Committed), SendingCommitted)
  }

  // The helper lock is granted: execution_started, then the helper.
  function Invoke(s: State): (t: State)
    requires Holding(s)
    ensures SameItem(s, t)
  {
    var h := s.worker.item.h;
    Note(Put(s, s.recs[h].(started := true), Executing), Invoked(h))
  }

  function ExecutionReply(c: Config, s: State, ok: bool): (t: State)
    requires Holding(s)
    ensures SameItem(s, t)
  {
    var h := s.worker.item.h;
    var r := s.recs[h];
    if ok then
      Put(Note(s, HelperOk(h)), CacheAck(r.(stage := Terminal), Applied), SendingFinal(r.request.action.Suspend?))
    else Done(c, s)
  }

  function FailureReported(c: Config, s: State): (t: State)
    requires Holding(s)
    ensures SameItem(s, t)
  {
    var r := s.recs[s.worker.item.h];
    if r.ack.Some? then Put(s, r.(pending := true), Replaying(r.ack.value)) else Done(c, s)
  }

  function FinalReply(c: Config, s: State, wake: bool, ok: bool): (t: State)
    requires Holding(s)
    ensures SameItem(s, t)
  {
    var h := s.worker.item.h;
    var s1 := AckReply(s, h, if s.recs[h].ack == Some(Applied) then Applied else Failed, ok);
    if wake then Move(s1, WakeReport) else Done(c, s1)
  }

  function Woken(c: Config, s: State, ok: bool): (t: State)
    requires Holding(s)
    ensures SameItem(s, t)
  {
    Done(c, ReplayCallbacks(c, if ok then ReadyDelivered(s) else ScheduleReady(s)))
  }

  function ResumeWork(c: Config, s: State, ok: bool): (t: State)
    requires Holding(s)
    ensures SameItem(s, t)
  {
    match s.worker.at
    case ReadyReport => s
    case Replaying(a) => ReplayReply(c, s, a, ok)
    case CheckingSupport => SupportReply(s, ok)
    case SendingAccepted => AcceptedReply(s, ok)
    case SendingCommitted => CommittedReply(s, ok)
    case WaitingForHelper => Invoke(s)
    case Executing => ExecutionReply(c, s, ok)
    case FailureReport => FailureReported(c, s)
    case SendingFinal(wake) => FinalReply(c, s, wake, ok)
    case LateFailure => FinalReply(c, s, false, ok)
    case WakeReport => Move(s.(readyPending := true, readyRetries := 0, readyTimer := false), WakeReady)
    case WakeReady => Woken(c, s, ok)
    case _ => ActionReply(s, ok)
  }

  predicate AtHelper(p: Point) {
    p.CheckingSupport? || p.QueryingStatus? || p.ApplyingProfile? || p.Executing?
  }

  // The worker's await returns.
  function Resume(c: Config, s: State, a: Answer): State
    requires Closed(s)
  {
    match s.worker
    case Idle => s
    case Busy(Ready, _) =>
      if a == Ok_ then Done(c, ReadyDelivered(s))
      else if a == Stop then Done(c, s)
      else Done(c, ScheduleReady(s))
    case Busy(Work(h, replay), at) =>
      if a == Stop then Done(c, if replay || at == LateFailure then s else Recover(c, s, h))
      else if a == Crash && AtHelper(at) then
        if s.recs[h].stage == CommittedStage then Done(c, s)
        else Put(s, CacheAck(s.recs[h].(stage := Terminal), Failed), LateFailure)
      else ResumeWork(c, s, a == Ok_)
  }

  // report_ready called from start(), outside the worker: up to its await, and when the
  // answer is there. A link that closes in between leaves the claim pending.
  function ReadyClaim(s: State): State {
    s.(readyPending := true, readyRetries := 0, readyTimer := false)
  }

  function ReadyAnswer(c: Config, s: State, ok: bool): State
    requires Closed(s)
  {
    ReplayCallbacks(c, if ok then ReadyDelivered(s) else ScheduleReady(s))
  }

  function Shutdown(s: State): State {
    s.(closed := true, readyTimer := false,
       recs := seq(|s.recs|, i requires 0 <= i < |s.recs| => if i in s.cache then s.recs[i].(timer := None) else s.recs[i]))
  }

  datatype Label =
    | DoSubmit(e: Event) | DoTake | DoResume(a: Answer) | DoAckTimer(h: Handle) | DoReadyTimer
    | DoReplayPending | DoReadyClaim | DoReadyAnswer(ok: bool) | DoClose

  function Next(c: Config, s: State, l: Label): State
    requires Closed(s)
  {
    match l
    case DoSubmit(e) => Submit(c, s, e)
    case DoTake => Take(c, s)
    case DoResume(a) => Resume(c, s, a)
    case DoAckTimer(h) => if h < |s.recs| then AckTimer(c, s, h) else s
    case DoReadyTimer => ReadyTimer(c, s)
    case DoReplayPending => ReplayPending(c, s)
    case DoReadyClaim => ReadyClaim(s)
    case DoReadyAnswer(ok) => ReadyAnswer(c, s, ok)
    case DoClose => Shutdown(s)
  }
}
