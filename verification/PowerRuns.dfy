// The claims of the power protocol, over every run.

module PowerRuns {
  import opened Bytes
  import opened Power
  import opened PowerSafety

  // The guard makes a step total; Invariant shows that it always holds.
  ghost function Step(c: Config, s: State, l: Label): State {
    if Closed(s) then Next(c, s, l) else s
  }

  // Any interleaving of events, replies, losses and timers.
  ghost predicate IsRun(c: Config, states: seq<State>, labels: seq<Label>) {
    && |states| == |labels| + 1 && states[0] == START
    && forall i :: 0 <= i < |labels| ==> states[i + 1] == Step(c, states[i], labels[i])
  }

  lemma {:induction false} Invariant(c: Config, states: seq<State>, labels: seq<Label>, i: nat)
    requires IsRun(c, states, labels) && i < |states|
    ensures Inv(c, states[i])
  {
    if i == 0 {
    } else {
      Invariant(c, states, labels, i - 1);
      NextKeeps(c, states[i - 1], labels[i - 1]);
      assert states[i - 1 + 1] == Step(c, states[i - 1], labels[i - 1]);
    }
  }

  // The helper runs at most once for a record.
  lemma AtMostOnce(c: Config, states: seq<State>, labels: seq<Label>, i: nat, h: Handle)
    requires IsRun(c, states, labels) && i < |states|
    ensures Invocations(states[i].trace, h) <= 1
  {
    Invariant(c, states, labels, i);
    var s := states[i];
    if h < |s.recs| {
      assert RecOk(c, s.recs[h], h, multiset(s.queue)[Work(h, false)], h in s.cache, InHand(s, h), s.trace);
    } else {
      FreshHandle(s.trace, h);
    }
  }

  // It runs only when enabled, only for a destructive request, and only behind an
  // OK'd ACCEPTED and a later OK'd COMMITTED (and behind a positive support check
  // where one is needed).
  lemma OnlyWhenConfirmed(c: Config, states: seq<State>, labels: seq<Label>, n: nat, k: nat)
    requires IsRun(c, states, labels) && n < |states|
    requires k < |states[n].trace| && states[n].trace[k].Invoked?
    ensures var s := states[n]; var h := s.trace[k].h;
      && h < |s.recs| && c.enabled && Destructive(s.recs[h].request.action)
      && (exists i, j :: 0 <= i < j < k && s.trace[i] == AckOk(h, Accepted) && s.trace[j] == AckOk(h, Committed))
      && (NeedsSupport(s.recs[h].request.action) ==> exists i :: 0 <= i < k && s.trace[i] == SupportOk(h))
      && (s.recs[h].request.action.Suspend? ==> c.allowSuspend)
  {
    Invariant(c, states, labels, n);
    var s := states[n];
    var h, before := s.trace[k].h, s.trace[..k];
    var j :| 0 <= j < |before| && before[j] == AckOk(h, Committed) && AckOk(h, Accepted) in before[..j];
    var i :| 0 <= i < j && before[..j][i] == AckOk(h, Accepted);
    assert s.trace[i] == AckOk(h, Accepted) && s.trace[j] == AckOk(h, Committed);
    if NeedsSupport(s.recs[h].request.action) {
      var m :| 0 <= m < |before| && before[m] == SupportOk(h);
      assert s.trace[m] == SupportOk(h);
    }
  }

  // The queue never holds two original items of one record, and an original item
  // always finds its record still queued.
  lemma OneOriginal(c: Config, states: seq<State>, labels: seq<Label>, i: nat, h: Handle)
    requires IsRun(c, states, labels) && i < |states| && h < |states[i].recs|
    ensures multiset(states[i].queue)[Work(h, false)] <= 1
    ensures Work(h, false) in states[i].queue ==> states[i].recs[h].stage == Queued
  {
    Invariant(c, states, labels, i);
    EnqueuedFacts(c, states[i], h);
  }

  // Two unfinished records never share an ID.
  lemma OneLivePerId(c: Config, s: State, g: Handle, h: Handle)
    requires Inv(c, s) && g < |s.recs| && h < |s.recs|
    requires s.recs[g].request.id == s.recs[h].request.id
    requires s.recs[g].stage != Terminal && s.recs[h].stage != Terminal
    ensures g == h
  {
    assert RecOk(c, s.recs[g], g, multiset(s.queue)[Work(g, false)], g in s.cache, InHand(s, g), s.trace);
    assert RecOk(c, s.recs[h], h, multiset(s.queue)[Work(h, false)], h in s.cache, InHand(s, h), s.trace);
    var i :| 0 <= i < |s.cache| && s.cache[i] == g;
    var j :| 0 <= j < |s.cache| && s.cache[j] == h;
    SameIdSamePlace(s, i, j);
  }

  lemma SameIdSamePlace(s: State, i: nat, j: nat)
    requires InRange(s.cache, |s.recs|) && DistinctIds(s) && i < |s.cache| && j < |s.cache|
    requires s.recs[s.cache[i]].request.id == s.recs[s.cache[j]].request.id
    ensures i == j
  {
  }

  // ---- one step at a time ---------------------------------------------------------

  ghost predicate Grows(s: State, t: State) {
    && |s.recs| <= |t.recs|
    && s.trace <= t.trace && |t.trace| <= |s.trace| + 1
    && (|t.trace| > |s.trace| && t.trace[|s.trace|].Invoked? ==>
          s.worker.Busy? && s.worker.item.Work? && s.worker.at == WaitingForHelper
          && t.trace[|s.trace|].h == s.worker.item.h)
  }

  // Nothing leaves the cache unless it is terminal and owes no ACK.
  ghost predicate EvictsDelivered(s: State, t: State) {
    forall h :: h in s.cache && h !in t.cache ==> h < |t.recs| && Evictable(t.recs[h])
  }

  // Records other than the one in the worker's hands keep their protocol state.
  ghost predicate TouchesOnly(s: State, t: State, h: Option<Handle>) {
    forall g :: 0 <= g < |s.recs| && h != Some(g) ==> g < |t.recs| && SameCore(s.recs[g], t.recs[g])
  }

  function Held(s: State): Option<Handle> {
    if s.worker.Busy? then (if s.worker.item.Work? then Some(s.worker.item.h) else None)
    else if s.queue != [] && s.queue[0].Work? then Some(s.queue[0].h)
    else None
  }

  ghost predicate Effect(s: State, t: State) {
    Grows(s, t) && EvictsDelivered(s, t) && TouchesOnly(s, t, Held(s))
  }

  lemma DoneEffect(c: Config, s: State, u: State)
    requires InRange(u.cache, |u.recs|) && u.cache == s.cache && Grows(s, u) && TouchesOnly(s, u, Held(s))
    ensures Effect(s, Done(c, u))
  {
    TrimmedSubset(u.recs, u.cache, c.cacheSize);
  }

  lemma ReplayEffect(c: Config, s: State, u: State)
    requires InRange(u.cache, |u.recs|) && u.cache == s.cache && u.recs == s.recs && u.trace == s.trace
    ensures var t := ReplayCallbacks(c, u);
      t.cache == s.cache && |t.recs| == |s.recs| && t.trace == s.trace && TouchesOnly(s, t, None)
  {
    ReplayHands(c, u);
    ReplayQuiet(c, u);
  }

  lemma {:induction false} RequeueAllQuiet(c: Config, s: State, cache: seq<Handle>)
    requires InRange(cache, |s.recs|)
    ensures RequeueAll(c, s, cache).trace == s.trace
    decreases |cache|
  {
    if cache != [] { RequeueAllQuiet(c, Requeue(c, s, cache[|cache| - 1]), cache[..|cache| - 1]); }
  }

  lemma {:induction false} ReplayAllQuiet(c: Config, s: State, cache: seq<Handle>)
    requires InRange(cache, |s.recs|)
    ensures ReplayAll(c, s, cache).trace == s.trace
    decreases |cache|
  {
    if cache != [] {
      var h := cache[|cache| - 1];
      ReplayAllQuiet(c, if OwesCallback(s.recs[h]) then Enqueue(c, s, Work(h, true)) else s, cache[..|cache| - 1]);
    }
  }

  lemma ReplayQuiet(c: Config, s: State)
    requires InRange(s.cache, |s.recs|)
    ensures ReplayCallbacks(c, s).trace == s.trace
  {
    RequeueAllQuiet(c, s, s.cache);
    ReplayAllQuiet(c, RequeueAll(c, s, s.cache), s.cache);
  }

  // One record replaced, the history extended by at most an ACK or support fact.
  lemma SetEffect(s: State, u: State)
    requires Holding(s) && |u.recs| == |s.recs|
    requires u.cache == s.cache && u.recs == s.recs[s.worker.item.h := u.recs[s.worker.item.h]] && Grows(s, u)
    ensures Effect(s, u)
  {
  }

  lemma AckReplyEffect(s: State, h: Handle, a: Ack, ok: bool)
    requires Holding(s) && s.worker.item.h == h
    ensures var u := AckReply(s, h, a, ok);
      && u.cache == s.cache && |u.recs| == |s.recs| && u.recs == s.recs[h := u.recs[h]]
      && Grows(s, u) && TouchesOnly(s, u, Held(s))
  {
  }

  lemma ReplayReplyEffect(c: Config, s: State, a: Ack, ok: bool)
    requires Holding(s)
    ensures Effect(s, ReplayReply(c, s, a, ok))
  {
    var h := s.worker.item.h;
    AckReplyEffect(s, h, a, ok);
    var u := AckReply(s, h, a, ok);
    if ok && s.worker.item.replay && s.recs[h].stage == CommittedStage && !s.recs[h].started {
      SetEffect(s, Move(u, WaitingForHelper));
    } else {
      DoneEffect(c, s, u);
    }
  }

  lemma AcceptedReplyEffect(s: State, ok: bool)
    requires Holding(s)
    ensures Effect(s, AcceptedReply(s, ok)) && Effect(s, CommittedReply(s, ok))
  {
    AckReplyEffect(s, s.worker.item.h, Accepted, ok);
    AckReplyEffect(s, s.worker.item.h, Committed, ok);
    SetEffect(s, AcceptedReply(s, ok));
    SetEffect(s, CommittedReply(s, ok));
  }

  lemma FinalReplyEffect(c: Config, s: State, wake: bool, ok: bool)
    requires Holding(s)
    ensures Effect(s, FinalReply(c, s, wake, ok))
  {
    var h := s.worker.item.h;
    var a := if s.recs[h].ack == Some(Applied) then Applied else Failed;
    AckReplyEffect(s, h, a, ok);
    var u := AckReply(s, h, a, ok);
    if wake { SetEffect(s, Move(u, WakeReport)); } else { DoneEffect(c, s, u); }
  }

  lemma WokenEffect(c: Config, s: State, ok: bool)
    requires Holding(s)
    ensures Effect(s, Woken(c, s, ok))
  {
    var u := if ok then ReadyDelivered(s) else ScheduleReady(s);
    ReplayEffect(c, s, u);
    DoneEffect(c, s, ReplayCallbacks(c, u));
  }

  lemma ExecutionReplyEffect(c: Config, s: State, ok: bool)
    requires Holding(s)
    ensures Effect(s, ExecutionReply(c, s, ok)) && Effect(s, FailureReported(c, s))
  {
    DoneEffect(c, s, s);
    if ok { SetEffect(s, ExecutionReply(c, s, ok)); }
    if s.recs[s.worker.item.h].ack.Some? { SetEffect(s, FailureReported(c, s)); }
  }

  lemma ResumeWorkEffect(c: Config, s: State, ok: bool)
    requires Inv(c, s) && Holding(s)
    ensures Effect(s, ResumeWork(c, s, ok))
  {
    match s.worker.at
    case ReadyReport =>
    case Replaying(a) => ReplayReplyEffect(c, s, a, ok);
    case CheckingSupport => PlainEffect(s, ok);
    case SendingAccepted => AcceptedReplyEffect(s, ok);
    case SendingCommitted => AcceptedReplyEffect(s, ok);
    case WaitingForHelper => PlainEffect(s, ok);
    case Executing => ExecutionReplyEffect(c, s, ok);
    case FailureReport => ExecutionReplyEffect(c, s, ok);
    case SendingFinal(wake) => FinalReplyEffect(c, s, wake, ok);
    case LateFailure => FinalReplyEffect(c, s, false, ok);
    case WakeReport => PlainEffect(s, ok);
    case WakeReady => WokenEffect(c, s, ok);
    case _ => PlainEffect(s, ok);
  }

  lemma PlainEffect(s: State, ok: bool)
    requires Holding(s)
    ensures Effect(s, SupportReply(s, ok)) && Effect(s, ActionReply(s, ok))
    ensures Effect(s, Move(s.(readyPending := true, readyRetries := 0, readyTimer := false), WakeReady))
    ensures s.worker.at == WaitingForHelper ==> Effect(s, Invoke(s))
  {
    SupportEffect(s, ok);
    ActionEffect(s, ok);
    if s.worker.at == WaitingForHelper { InvokeEffect(s); }
  }

  lemma PutEffect(s: State, r: Rec, at: Point)
    requires Holding(s)
    ensures Effect(s, Put(s, r, at))
  {
    SetEffect(s, Put(s, r, at));
  }

  lemma SupportEffect(s: State, ok: bool)
    requires Holding(s)
    ensures Effect(s, SupportReply(s, ok))
  {
    SetEffect(s, SupportReply(s, ok));
  }

  lemma ActionEffect(s: State, ok: bool)
    requires Holding(s)
    ensures Effect(s, ActionReply(s, ok))
  {
    var r := s.recs[s.worker.item.h];
    if (s.worker.at == QueryingStatus || s.worker.at == ApplyingProfile) && !ok {
      PutEffect(s, CacheAck(r.(stage := Terminal), Failed), FailureReport);
    } else {
      match s.worker.at
      case QueryingStatus => SetEffect(s, ActionReply(s, ok));
      case StatusReport => PutEffect(s, CacheAck(r.(stage := Terminal), Applied), SendingFinal(false));
      case ApplyingProfile => SetEffect(s, ActionReply(s, ok));
      case ProfileReport => PutEffect(s, CacheAck(r, Applied), SendingFinal(false));
      case _ => PutEffect(s, CacheAck(r.(stage := CommittedStage), Committed), SendingCommitted);
    }
  }

  lemma InvokeEffect(s: State)
    requires Holding(s) && s.worker.at == WaitingForHelper
    ensures Effect(s, Invoke(s))
  {
    SetEffect(s, Invoke(s));
  }

  lemma ResumeEffect(c: Config, s: State, a: Answer)
    requires Inv(c, s)
    ensures Effect(s, Resume(c, s, a))
  {
    if s.worker.Idle? {
    } else if s.worker.item.Ready? {
      DoneEffect(c, s, if a == Ok_ then ReadyDelivered(s) else if a == Stop then s else ScheduleReady(s));
    } else if a == Stop {
      if s.worker.item.replay || s.worker.at == LateFailure {
        DoneEffect(c, s, s);
      } else {
        RecoverTouches(c, s, s.worker.item.h);
        DoneEffect(c, s, Recover(c, s, s.worker.item.h));
      }
    } else if a == Crash && AtHelper(s.worker.at) {
      if s.recs[s.worker.item.h].stage == CommittedStage { DoneEffect(c, s, s); }
      else { SetEffect(s, Resume(c, s, a)); }
    } else {
      ResumeWorkEffect(c, s, a == Ok_);
    }
  }

  lemma RecoverTouches(c: Config, s: State, h: Handle)
    requires Closed(s) && h < |s.recs|
    ensures var t := Recover(c, s, h);
      t.cache == s.cache && t.trace == s.trace && |t.recs| == |s.recs| && TouchesOnly(s, t, Some(h))
  {
  }

  lemma TakenEffect(s: State, t: State, h: Handle)
    requires Held(s) == Some(h) && h < |s.recs|
    requires t.cache == s.cache && t.trace == s.trace && |t.recs| == |s.recs|
    requires t.recs == s.recs[h := t.recs[h]]
    ensures Effect(s, t)
  {
  }

  lemma TakeEffect(c: Config, s: State)
    requires Inv(c, s)
    ensures Effect(s, Take(c, s))
  {
    if s.worker.Idle? && s.queue != [] {
      match s.queue[0]
      case Ready =>
        DoneEffect(c, s, s.(queue := s.queue[1..], worker := Busy(Ready, ReadyReport), readyEnqueued := false));
      case Work(h, replay) =>
        TakeWorkEffect(c, s, h, replay);
    }
  }

  lemma TakeWorkEffect(c: Config, s: State, h: Handle, replay: bool)
    requires Closed(s) && s.worker.Idle? && s.queue != [] && s.queue[0] == Work(h, replay)
    ensures Effect(s, TakeWork(c, s, h, replay))
  {
    var r := if replay then s.recs[h] else s.recs[h].(enqueued := false);
    if (!replay && r.stage == Queued) || r.ack.Some? {
      TakenEffect(s, TakeWork(c, s, h, replay), h);
    } else {
      DoneEffect(c, s, s.(queue := s.queue[1..], worker := Busy(Work(h, replay), ReadyReport), recs := s.recs[h := r]));
    }
  }

  lemma KnownEffect(c: Config, s: State, i: nat)
    requires Closed(s) && i < |s.cache|
    ensures Effect(s, Known(c, s, i))
  {
    var t := Known(c, s, i);
    forall h | h in s.cache ensures h in t.cache {
      MovedSame(s.cache, i, h);
    }
    KnownQuiet(c, s, i);
    assert TouchesOnly(s, t, Held(s)) by { QuietTouches(s, t); }
  }

  lemma QuietTouches(s: State, t: State)
    requires TouchesOnly(s, t, None)
    ensures TouchesOnly(s, t, Held(s))
  {
  }

  lemma FreshEffect(c: Config, s: State, req: Request)
    requires Closed(s)
    ensures Effect(s, Fresh(c, s, req))
  {
    TrimmedSubset(s.recs + [NewRec(req).(enqueued := true)], s.cache + [|s.recs|], c.cacheSize);
  }

  lemma FlagsEffect(s: State, s1: State, t: State)
    requires Effect(s1, t)
    requires s1.recs == s.recs && s1.cache == s.cache && s1.trace == s.trace && s1.worker == s.worker && s1.queue == s.queue
    ensures Effect(s, t)
  {
  }

  lemma SubmitEffect(c: Config, s: State, e: Event)
    requires Inv(c, s)
    ensures Effect(s, Submit(c, s, e))
  {
    if e.Parsed? {
      var s1 := if RetiresReady(e.request.action) then ReadyDelivered(s) else s;
      var i := Find(s1.recs, s1.cache, e.request.id);
      if i < |s1.cache| {
        KnownEffect(c, s1, i);
        FlagsEffect(s, s1, Known(c, s1, i));
      } else {
        FreshEffect(c, s1, e.request);
        FlagsEffect(s, s1, Fresh(c, s1, e.request));
      }
    }
  }

  lemma NextEffect(c: Config, s: State, l: Label)
    requires Inv(c, s)
    ensures Effect(s, Next(c, s, l))
  {
    if l.DoSubmit? { SubmitEffect(c, s, l.e); }
    else if l.DoTake? { TakeEffect(c, s); }
    else if l.DoResume? { ResumeEffect(c, s, l.a); }
    else if l.DoReplayPending? { ReplayEffect(c, s, QueueReadyNow(c, s)); }
    else if l.DoReadyAnswer? {
      ReplayEffect(c, s, if l.ok then ReadyDelivered(s) else ScheduleReady(s));
    } else if l.DoAckTimer? {
      if l.h < |s.recs| { TimerEffect(c, s, l.h); }
    }
  }

  lemma TimerEffect(c: Config, s: State, h: Handle)
    requires Inv(c, s) && h < |s.recs|
    ensures Effect(s, AckTimer(c, s, h))
  {
    TimersQuiet(c, s, h);
    QuietEffect(s, AckTimer(c, s, h));
  }

  lemma QuietEffect(s: State, t: State)
    requires Quiet(s, t) && t.cache == s.cache && t.trace == s.trace && |t.recs| == |s.recs|
    ensures Effect(s, t)
  {
  }

  // A record that is not terminal, or whose ACK is still owed, is never evicted.
  lemma NeverEvictedWhileOwing(c: Config, states: seq<State>, labels: seq<Label>, i: nat, h: Handle)
    requires IsRun(c, states, labels) && i < |labels|
    requires h in states[i].cache && h !in states[i + 1].cache
    ensures h < |states[i + 1].recs|
    ensures states[i + 1].recs[h].stage == Terminal && !states[i + 1].recs[h].pending
  {
    Invariant(c, states, labels, i);
    NextEffect(c, states[i], labels[i]);
  }

  // ---- ambiguous executions ---------------------------------------------------------

  // The helper was started and its outcome is unknown.
  ghost predicate Uncertain(s: State, h: Handle) {
    && h < |s.recs| && s.recs[h].stage == CommittedStage && s.recs[h].started
    && !(s.worker.Busy? && s.worker.item.Work? && s.worker.item.h == h && s.worker.at == Executing)
  }

  lemma HeldUncertain(c: Config, s: State, l: Label, h: Handle)
    requires Inv(c, s) && Uncertain(s, h) && Held(s) == Some(h) && (l.DoTake? || l.DoResume?)
    ensures Uncertain(Next(c, s, l), h)
  {
    if s.worker.Busy? {
      HandRec(c, s);
      if l.DoResume? { ReplayingUncertain(c, s, l.a, h); }
    } else if l.DoTake? {
      EnqueuedFacts(c, s, h);
      assert Work(h, false) !in s.queue && s.queue[0] in s.queue;
      TakenUncertain(c, s, h);
    }
  }

  lemma ReplayingUncertain(c: Config, s: State, a: Answer, h: Handle)
    requires Inv(c, s) && Uncertain(s, h) && Holding(s) && s.worker.item.h == h
    ensures Uncertain(Resume(c, s, a), h)
  {
    HandRec(c, s);
    assert s.worker.at.Replaying?;
  }

  lemma TakenUncertain(c: Config, s: State, h: Handle)
    requires Closed(s) && Uncertain(s, h) && s.worker.Idle? && s.queue != [] && s.queue[0] == Work(h, true)
    ensures Uncertain(TakeWork(c, s, h, true), h)
  {
  }

  // Callbacks and timers never move a record's protocol state or the worker.
  lemma KnownQuiet(c: Config, s: State, i: nat)
    requires Closed(s) && i < |s.cache|
    ensures TouchesOnly(s, Known(c, s, i), None) && Known(c, s, i).worker == s.worker
  {
  }

  lemma FreshQuiet(c: Config, s: State, req: Request)
    requires Closed(s)
    ensures TouchesOnly(s, Fresh(c, s, req), None) && Fresh(c, s, req).worker == s.worker
  {
  }

  lemma ReplayingTouchesNothing(c: Config, s: State, u: State)
    requires InRange(u.cache, |u.recs|) && u.cache == s.cache && u.recs == s.recs && u.worker == s.worker
    ensures TouchesOnly(s, ReplayCallbacks(c, u), None) && ReplayCallbacks(c, u).worker == s.worker
  {
    ReplayHands(c, u);
  }

  ghost predicate Quiet(s: State, t: State) {
    TouchesOnly(s, t, None) && t.worker == s.worker
  }

  lemma TimersQuiet(c: Config, s: State, h: Handle)
    requires Closed(s)
    ensures h < |s.recs| ==> Quiet(s, AckTimer(c, s, h))
    ensures Quiet(s, ReadyTimer(c, s)) && Quiet(s, Shutdown(s))
  {
  }

  lemma PendingQuiet(c: Config, s: State, ok: bool)
    requires Closed(s)
    ensures Quiet(s, ReplayPending(c, s)) && Quiet(s, ReadyAnswer(c, s, ok)) && Quiet(s, ReadyClaim(s))
  {
    ReplayingTouchesNothing(c, s, QueueReadyNow(c, s));
    ReplayingTouchesNothing(c, s, if ok then ReadyDelivered(s) else ScheduleReady(s));
  }

  lemma OthersTouchNothing(c: Config, s: State, l: Label)
    requires Inv(c, s) && !l.DoTake? && !l.DoResume?
    ensures Quiet(s, Next(c, s, l))
  {
    match l
    case DoSubmit(e) => SubmitQuiet(c, s, e);
    case DoAckTimer(h) => TimersQuiet(c, s, h);
    case DoReadyTimer => TimersQuiet(c, s, 0);
    case DoReplayPending => PendingQuiet(c, s, true);
    case DoReadyClaim => PendingQuiet(c, s, true);
    case DoReadyAnswer(ok) => PendingQuiet(c, s, ok);
    case DoClose => TimersQuiet(c, s, 0);
  }

  lemma SubmitQuiet(c: Config, s: State, e: Event)
    requires Inv(c, s)
    ensures TouchesOnly(s, Submit(c, s, e), None) && Submit(c, s, e).worker == s.worker
  {
    if e.Parsed? {
      var s1 := if RetiresReady(e.request.action) then ReadyDelivered(s) else s;
      var i := Find(s1.recs, s1.cache, e.request.id);
      if i < |s1.cache| { KnownQuiet(c, s1, i); } else { FreshQuiet(c, s1, e.request); }
    }
  }

  // A helper started in this step serves another ID than h's.
  ghost predicate InvokesOther(s: State, t: State, h: Handle)
    requires h < |s.recs|
  {
    forall k :: |s.trace| <= k < |t.trace| && t.trace[k].Invoked? ==>
      t.trace[k].h < |s.recs| && s.recs[t.trace[k].h].request.id != s.recs[h].request.id
  }

  lemma NewInvocation(c: Config, s: State, t: State, h: Handle)
    requires Inv(c, s) && Uncertain(s, h) && Grows(s, t)
    ensures InvokesOther(s, t, h)
  {
    if s.worker.Busy? && s.worker.item.Work? && s.worker.at == WaitingForHelper {
      var g := s.worker.item.h;
      if s.recs[g].request.id == s.recs[h].request.id {
        OneLivePerId(c, s, g, h);
      }
    }
  }

  lemma StaysUncertain(c: Config, s: State, l: Label, h: Handle)
    requires Inv(c, s) && Uncertain(s, h)
    ensures Uncertain(Next(c, s, l), h)
  {
    if !l.DoTake? && !l.DoResume? {
      OthersTouchNothing(c, s, l);
      KeptUncertain(s, Next(c, s, l), h, None);
    } else if Held(s) == Some(h) {
      HeldUncertain(c, s, l, h);
    } else {
      NextEffect(c, s, l);
      NewHand(c, s, l);
      KeptUncertain(s, Next(c, s, l), h, Held(s));
    }
  }

  lemma KeptUncertain(s: State, t: State, h: Handle, held: Option<Handle>)
    requires Uncertain(s, h) && held != Some(h) && TouchesOnly(s, t, held)
    requires t.worker == s.worker || (t.worker.Busy? && t.worker.item.Work? ==> held == Some(t.worker.item.h))
    ensures Uncertain(t, h)
  {
    assert SameCore(s.recs[h], t.recs[h]);
  }

  // The worker only ever moves on with the record it holds.
  lemma NewHand(c: Config, s: State, l: Label)
    requires Inv(c, s) && (l.DoTake? || l.DoResume?)
    ensures var t := Next(c, s, l);
      t.worker == s.worker || (t.worker.Busy? && t.worker.item.Work? ==> Held(s) == Some(t.worker.item.h))
  {
  }

  // An ambiguous execution stays latched, and no step runs a helper for its ID.
  lemma UncertainIsFinal(c: Config, states: seq<State>, labels: seq<Label>, i: nat, h: Handle)
    requires IsRun(c, states, labels) && i < |labels| && Uncertain(states[i], h)
    ensures Uncertain(states[i + 1], h) && InvokesOther(states[i], states[i + 1], h)
  {
    Invariant(c, states, labels, i);
    var s := states[i];
    StaysUncertain(c, s, labels[i], h);
    NextEffect(c, s, labels[i]);
    NewInvocation(c, s, states[i + 1], h);
  }

  lemma {:induction false} UncertainForever(c: Config, states: seq<State>, labels: seq<Label>, i: nat, j: nat, h: Handle)
    requires IsRun(c, states, labels) && i <= j < |states| && Uncertain(states[i], h)
    ensures Uncertain(states[j], h)
    ensures forall k :: i <= k < j ==> h < |states[k].recs| && InvokesOther(states[k], states[k + 1], h)
    decreases j
  {
    if i < j {
      UncertainForever(c, states, labels, i, j - 1, h);
      UncertainIsFinal(c, states, labels, j - 1, h);
      forall k | i <= k < j
        ensures h < |states[k].recs| && InvokesOther(states[k], states[k + 1], h)
      {
        if k == j - 1 {
          assert Uncertain(states[k], h);
        }
      }
    }
  }

  // ---- repair after a reconnect -------------------------------------------------------

  // Originals to put back and callbacks to repeat, newest first.
  function LostOriginals(recs: seq<Rec>, cache: seq<Handle>): seq<Item>
    requires InRange(cache, |recs|)
  {
    if cache == [] then []
    else
      var h := cache[|cache| - 1];
      (if recs[h].stage == Queued && !recs[h].enqueued then [Work(h, false)] else [])
      + LostOriginals(recs, cache[..|cache| - 1])
  }

  function OwedCallbacks(recs: seq<Rec>, cache: seq<Handle>): seq<Item>
    requires InRange(cache, |recs|)
  {
    if cache == [] then []
    else
      var h := cache[|cache| - 1];
      (if OwesCallback(recs[h]) then [Work(h, true)] else []) + OwedCallbacks(recs, cache[..|cache| - 1])
  }

  function Room(c: Config, queue: seq<Item>): nat {
    if |queue| >= c.queueSize then 0 else c.queueSize - |queue|
  }

  function Fitting(c: Config, queue: seq<Item>, wanted: seq<Item>): seq<Item> {
    queue + if |wanted| <= Room(c, queue) then wanted else wanted[..Room(c, queue)]
  }

  lemma FittingCons(c: Config, queue: seq<Item>, x: Item, wanted: seq<Item>)
    ensures Fitting(c, queue, [x] + wanted) == Fitting(c, if |queue| >= c.queueSize then queue else queue + [x], wanted)
  {
    if |queue| >= c.queueSize {
      assert Fitting(c, queue, [x] + wanted) == queue + [] == Fitting(c, queue, wanted);
    } else if |[x] + wanted| <= Room(c, queue) {
      assert queue + ([x] + wanted) == queue + [x] + wanted;
    } else {
      var n := Room(c, queue);
      assert ([x] + wanted)[..n] == [x] + wanted[..n - 1];
      assert queue + ([x] + wanted[..n - 1]) == queue + [x] + wanted[..n - 1];
    }
  }

  predicate NoDuplicates(cache: seq<Handle>) {
    forall i, j :: 0 <= i < j < |cache| ==> cache[i] != cache[j]
  }

  // Requeueing one record does not change what the others want.
  lemma LostUnchanged(recs: seq<Rec>, h: Handle, r: Rec, cache: seq<Handle>)
    requires h < |recs| && InRange(cache, |recs|) && h !in cache
    ensures LostOriginals(recs[h := r], cache) == LostOriginals(recs, cache)
  {
    if cache != [] { LostUnchanged(recs, h, r, cache[..|cache| - 1]); }
  }

  lemma OwedUnchanged(recs: seq<Rec>, h: Handle, flag: bool, cache: seq<Handle>)
    requires h < |recs| && InRange(cache, |recs|)
    ensures OwedCallbacks(recs[h := recs[h].(enqueued := flag)], cache) == OwedCallbacks(recs, cache)
  {
    if cache != [] { OwedUnchanged(recs, h, flag, cache[..|cache| - 1]); }
  }

  lemma {:induction false} RequeueAllExact(c: Config, s: State, cache: seq<Handle>, all: seq<Handle>)
    requires InRange(cache, |s.recs|) && NoDuplicates(cache) && InRange(all, |s.recs|)
    ensures var t := RequeueAll(c, s, cache);
      t.queue == Fitting(c, s.queue, LostOriginals(s.recs, cache))
      && OwedCallbacks(t.recs, all) == OwedCallbacks(s.recs, all)
    decreases |cache|
  {
    if cache != [] {
      var h, rest := cache[|cache| - 1], cache[..|cache| - 1];
      var s1 := Requeue(c, s, h);
      RequeueAllExact(c, s1, rest, all);
      if s.recs[h].stage == Queued && !s.recs[h].enqueued {
        FittingCons(c, s.queue, Work(h, false), LostOriginals(s.recs, rest));
        LostUnchanged(s.recs, h, s.recs[h].(enqueued := true), rest);
        OwedUnchanged(s.recs, h, true, all);
      } else {
        assert [] + LostOriginals(s.recs, rest) == LostOriginals(s.recs, rest);
      }
    }
  }

  lemma {:induction false} ReplayAllExact(c: Config, s: State, cache: seq<Handle>)
    requires InRange(cache, |s.recs|)
    ensures ReplayAll(c, s, cache).queue == Fitting(c, s.queue, OwedCallbacks(s.recs, cache))
    decreases |cache|
  {
    if cache != [] {
      var h, rest := cache[|cache| - 1], cache[..|cache| - 1];
      if OwesCallback(s.recs[h]) {
        ReplayAllExact(c, Enqueue(c, s, Work(h, true)), rest);
        FittingCons(c, s.queue, Work(h, true), OwedCallbacks(s.recs, rest));
      } else {
        ReplayAllExact(c, s, rest);
        assert [] + OwedCallbacks(s.recs, rest) == OwedCallbacks(s.recs, rest);
      }
    }
  }

  lemma FittingTwice(c: Config, queue: seq<Item>, a: seq<Item>, b: seq<Item>)
    ensures Fitting(c, Fitting(c, queue, a), b) == Fitting(c, queue, a + b)
  {
    var n := Room(c, queue);
    if |a| <= n {
      assert Room(c, queue + a) == n - |a|;
      if |a + b| > n { assert (a + b)[..n] == a + b[..n - |a|]; }
    } else {
      assert Room(c, queue + a[..n]) == 0 && b[..0] == [];
      assert (a + b)[..n] == a[..n];
    }
  }

  // After a reconnect the queue gets exactly the lost originals and then the owed
  // callbacks, newest first, as far as there is room: a stale one never displaces
  // a newer one.
  lemma RepairIsNewestFirst(c: Config, s: State)
    requires Inv(c, s)
    ensures ReplayCallbacks(c, s).queue ==
      Fitting(c, s.queue, LostOriginals(s.recs, s.cache) + OwedCallbacks(s.recs, s.cache))
  {
    assert NoDuplicates(s.cache);
    RequeueAllExact(c, s, s.cache, s.cache);
    var t := RequeueAll(c, s, s.cache);
    ReplayAllExact(c, t, s.cache);
    FittingTwice(c, s.queue, LostOriginals(s.recs, s.cache), OwedCallbacks(s.recs, s.cache));
  }

  lemma {:induction false} WantedComplete(recs: seq<Rec>, cache: seq<Handle>, h: Handle)
    requires InRange(cache, |recs|) && h in cache
    ensures recs[h].stage == Queued && !recs[h].enqueued ==> Work(h, false) in LostOriginals(recs, cache)
    ensures OwesCallback(recs[h]) ==> Work(h, true) in OwedCallbacks(recs, cache)
    decreases |cache|
  {
    if cache[|cache| - 1] != h {
      assert cache == cache[..|cache| - 1] + [cache[|cache| - 1]];
      WantedComplete(recs, cache[..|cache| - 1], h);
    }
  }

  // With room in the queue, a reconnect leaves no unfinished record stranded: each
  // is in the worker's hands, queued, latched as uncertain, or about to have its
  // COMMITTED repeated.
  lemma NothingStranded(c: Config, s: State, h: Handle)
    requires Inv(c, s) && h < |s.recs| && s.recs[h].stage != Terminal
    requires |LostOriginals(s.recs, s.cache) + OwedCallbacks(s.recs, s.cache)| <= Room(c, s.queue)
    ensures var t := ReplayCallbacks(c, s);
      InHand(t, h) || Work(h, false) in t.queue || Work(h, true) in t.queue
      || (s.recs[h].stage == CommittedStage && s.recs[h].started)
  {
    RepairIsNewestFirst(c, s);
    ReplayHands(c, s);
    assert RecOk(c, s.recs[h], h, multiset(s.queue)[Work(h, false)], h in s.cache, InHand(s, h), s.trace);
    WantedComplete(s.recs, s.cache, h);
    if s.recs[h].enqueued { assert Work(h, false) in multiset(s.queue); }
  }
}
