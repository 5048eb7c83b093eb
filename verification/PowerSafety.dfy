// What every run of the power controller keeps.

module PowerSafety {
  import opened Bytes
  import opened Power

  // ---- the history a helper invocation must have behind it ----------------------

  function Invocations(trace: seq<Fact>, h: Handle): nat {
    if trace == [] then 0
    else Invocations(trace[..|trace| - 1], h) + if trace[|trace| - 1] == Invoked(h) then 1 else 0
  }

  // An OK'd ACCEPTED followed by an OK'd COMMITTED.
  ghost predicate Confirmed(trace: seq<Fact>, h: Handle) {
    exists j :: 0 <= j < |trace| && trace[j] == AckOk(h, Committed) && AckOk(h, Accepted) in trace[..j]
  }

  predicate NeedsSupport(a: Action) {
    a.Suspend? || a.SleepFor?
  }

  ghost predicate Licensed(c: Config, a: Action, before: seq<Fact>, h: Handle) {
    && c.enabled && Destructive(a) && Confirmed(before, h)
    && (NeedsSupport(a) ==> SupportOk(h) in before)
    && (a.Suspend? ==> c.allowSuspend)
  }

  ghost predicate TraceOk(c: Config, s: State) {
    forall k :: 0 <= k < |s.trace| ==>
      s.trace[k].h < |s.recs| &&
      (s.trace[k].Invoked? ==>
        Licensed(c, s.recs[s.trace[k].h].request.action, s.trace[..k], s.trace[k].h))
  }

  // ---- the invariant of one record ------------------------------------------------

  predicate Supported(c: Config, r: Rec, h: Handle, trace: seq<Fact>) {
    && c.enabled
    && (NeedsSupport(r.request.action) ==> SupportOk(h) in trace)
    && (r.request.action.Suspend? ==> c.allowSuspend)
  }

  ghost predicate RecOk(c: Config, r: Rec, h: Handle, originals: nat, cached: bool, inHand: bool, trace: seq<Fact>) {
    && originals == (if r.enqueued then 1 else 0)
    && (r.enqueued ==> r.stage == Queued)
    && (r.stage != Terminal ==> cached)
    && (r.stage == InFlight || r.stage == AcceptedStage ==> inHand && !r.started)
    && (r.stage == AcceptedStage || r.stage == CommittedStage ==>
          AckOk(h, Accepted) in trace && Supported(c, r, h, trace))
    && (r.stage == CommittedStage ==> r.ack == Some(Committed) && Destructive(r.request.action))
    && (r.started ==> r.stage == CommittedStage || r.stage == Terminal)
    && Invocations(trace, h) == (if r.started then 1 else 0)
  }

  predicate InHand(s: State, h: Handle) {
    s.worker.Busy? && s.worker.item == Work(h, false)
  }

  ghost predicate RecsOk(c: Config, s: State) {
    forall h :: 0 <= h < |s.recs| ==>
      RecOk(c, s.recs[h], h, multiset(s.queue)[Work(h, false)], h in s.cache, InHand(s, h), s.trace)
  }

  ghost predicate DistinctIds(s: State)
    requires InRange(s.cache, |s.recs|)
  {
    forall i, j :: 0 <= i < j < |s.cache| ==>
      s.recs[s.cache[i]].request.id != s.recs[s.cache[j]].request.id
  }

  // What the worker knows about the record it is suspended on.
  ghost predicate WorkerOk(c: Config, s: State)
    requires Closed(s)
  {
    match s.worker
    case Idle => true
    case Busy(Ready, at) => at == ReadyReport
    case Busy(Work(h, replay), at) =>
      var r := s.recs[h];
      match at
      case ReadyReport => false
      case Replaying(a) => r.ack == Some(a) && (!replay ==> r.stage == Terminal)
      case CheckingSupport =>
        !replay && r.stage == InFlight && c.enabled && (r.request.action.Suspend? ==> c.allowSuspend)
      case SendingAccepted => !replay && r.stage == InFlight && r.ack == Some(Accepted) && Supported(c, r, h, s.trace)
      case QueryingStatus => !replay && r.stage == AcceptedStage
      case StatusReport => !replay && r.stage == AcceptedStage
      case ApplyingProfile => !replay && r.stage == AcceptedStage
      case ProfileReport => r.stage == Terminal
      case TransitionReport => !replay && r.stage == AcceptedStage && Destructive(r.request.action)
      case SendingCommitted => !replay && r.stage == CommittedStage && !r.started
      case WaitingForHelper => r.stage == CommittedStage && !r.started && Confirmed(s.trace, h)
      case Executing => r.stage == CommittedStage && r.started
      case FailureReport => !replay && r.stage == Terminal && r.ack == Some(Failed)
      case SendingFinal(_) => r.stage == Terminal && (r.ack == Some(Applied) || r.ack == Some(Failed))
      case WakeReport => r.stage == Terminal
      case WakeReady => r.stage == Terminal
      case LateFailure => r.stage == Terminal && r.ack == Some(Failed)
  }

  ghost predicate Inv(c: Config, s: State) {
    Closed(s) && TraceOk(c, s) && RecsOk(c, s) && DistinctIds(s) && WorkerOk(c, s)
  }

  // ---- history grows, claims stay ---------------------------------------------------

  lemma InvocationsSnoc(trace: seq<Fact>, f: Fact, h: Handle)
    ensures Invocations(trace + [f], h) == Invocations(trace, h) + if f == Invoked(h) then 1 else 0
  {
    assert (trace + [f])[..|trace|] == trace;
  }

  lemma ConfirmedSnoc(trace: seq<Fact>, f: Fact, h: Handle)
    ensures Confirmed(trace, h) ==> Confirmed(trace + [f], h)
    ensures f == AckOk(h, Committed) && AckOk(h, Accepted) in trace ==> Confirmed(trace + [f], h)
  {
    var t := trace + [f];
    if Confirmed(trace, h) {
      var j :| 0 <= j < |trace| && trace[j] == AckOk(h, Committed) && AckOk(h, Accepted) in trace[..j];
      assert t[j] == trace[j] && t[..j] == trace[..j];
    }
    if f == AckOk(h, Committed) && AckOk(h, Accepted) in trace {
      assert t[|trace|] == f && t[..|trace|] == trace;
    }
  }

  lemma TraceSnoc(c: Config, s: State, f: Fact)
    requires TraceOk(c, s) && f.h < |s.recs|
    requires f.Invoked? ==> Licensed(c, s.recs[f.h].request.action, s.trace, f.h)
    ensures TraceOk(c, Note(s, f))
  {
    var t := s.trace + [f];
    forall k | 0 <= k < |t|
      ensures t[k].h < |s.recs|
      ensures t[k].Invoked? ==> Licensed(c, s.recs[t[k].h].request.action, t[..k], t[k].h)
    {
      if k < |s.trace| {
        assert t[k] == s.trace[k] && t[..k] == s.trace[..k];
      } else {
        assert t[..k] == s.trace;
      }
    }
  }

  lemma RecOkSnoc(c: Config, r: Rec, h: Handle, originals: nat, cached: bool, inHand: bool, trace: seq<Fact>, f: Fact)
    requires RecOk(c, r, h, originals, cached, inHand, trace) && f != Invoked(h)
    ensures RecOk(c, r, h, originals, cached, inHand, trace + [f])
  {
    InvocationsSnoc(trace, f, h);
  }

  // A fact about an existing record, other than an invocation.
  lemma NoteKeeps(c: Config, s: State, f: Fact)
    requires Inv(c, s) && f.h < |s.recs| && !f.Invoked?
    ensures Inv(c, Note(s, f))
  {
    TraceSnoc(c, s, f);
    var t := Note(s, f);
    forall h | 0 <= h < |t.recs|
      ensures RecOk(c, t.recs[h], h, multiset(t.queue)[Work(h, false)], h in t.cache, InHand(t, h), t.trace)
    {
      RecOkSnoc(c, s.recs[h], h, multiset(s.queue)[Work(h, false)], h in s.cache, InHand(s, h), s.trace, f);
    }
    if s.worker.Busy? && s.worker.item.Work? {
      ConfirmedSnoc(s.trace, f, s.worker.item.h);
    }
  }

  // ---- steps that touch one record --------------------------------------------------

  // Replacing a record and moving the worker on keeps the invariant when the new
  // record and the new worker do.
  lemma SetKeeps(c: Config, s: State, h: Handle, r: Rec, w: Worker)
    requires Closed(s) && TraceOk(c, s) && RecsOk(c, s) && DistinctIds(s) && h < |s.recs|
    requires r.request == s.recs[h].request
    requires w.Busy? && w.item.Work? ==> w.item.h < |s.recs|
    requires var t := s.(recs := s.recs[h := r], worker := w);
      && RecOk(c, r, h, multiset(s.queue)[Work(h, false)], h in s.cache, InHand(t, h), s.trace)
      && (forall g :: 0 <= g < |s.recs| && g != h && InHand(s, g) && !InHand(t, g) ==>
            s.recs[g].stage != InFlight && s.recs[g].stage != AcceptedStage)
      && WorkerOk(c, t)
    ensures Inv(c, s.(recs := s.recs[h := r], worker := w))
  {
    var t := s.(recs := s.recs[h := r], worker := w);
    forall g | 0 <= g < |t.recs|
      ensures RecOk(c, t.recs[g], g, multiset(t.queue)[Work(g, false)], g in t.cache, InHand(t, g), t.trace)
    {
      if g != h {
        assert RecOk(c, s.recs[g], g, multiset(s.queue)[Work(g, false)], g in s.cache, InHand(s, g), s.trace);
      }
    }
  }

  lemma WithoutSubset(cache: seq<Handle>, i: nat)
    requires i < |cache|
    ensures forall h :: h in cache && h != cache[i] ==> h in Without(cache, i)
    ensures forall h :: h in Without(cache, i) ==> h in cache
  {
    var next := Without(cache, i);
    assert forall k :: 0 <= k < |next| ==> next[k] == cache[if k < i then k else k + 1];
    forall h | h in cache && h != cache[i]
      ensures h in next
    {
      var k :| 0 <= k < |cache| && cache[k] == h;
      assert next[if k < i then k else k - 1] == h;
    }
  }

  lemma TrimmedSubset(recs: seq<Rec>, cache: seq<Handle>, limit: nat)
    requires InRange(cache, |recs|)
    ensures var t := Trimmed(recs, cache, limit);
      && (forall h :: h in cache && !Evictable(recs[h]) ==> h in t)
      && (forall h :: h in t ==> h in cache)
    decreases |cache|
  {
    var i := FirstEvictable(recs, cache);
    if !(|cache| <= limit || i == |cache|) {
      TrimmedSubset(recs, Without(cache, i), limit);
      WithoutSubset(cache, i);
    }
  }

  lemma TrimmedDistinct(s: State, cache: seq<Handle>, limit: nat)
    requires InRange(cache, |s.recs|) && DistinctIds(s.(cache := cache))
    ensures DistinctIds(s.(cache := Trimmed(s.recs, cache, limit)))
    decreases |cache|
  {
    var i := FirstEvictable(s.recs, cache);
    if !(|cache| <= limit || i == |cache|) {
      TrimmedDistinct(s, Without(cache, i), limit);
    }
  }

  lemma TrimKeeps(c: Config, s: State)
    requires Inv(c, s)
    ensures Inv(c, Trim(c, s))
  {
    TrimmedSubset(s.recs, s.cache, c.cacheSize);
    TrimmedDistinct(s, s.cache, c.cacheSize);
    var t := Trim(c, s);
    forall h | 0 <= h < |t.recs|
      ensures RecOk(c, t.recs[h], h, multiset(t.queue)[Work(h, false)], h in t.cache, InHand(t, h), t.trace)
    {
      assert RecOk(c, s.recs[h], h, multiset(s.queue)[Work(h, false)], h in s.cache, InHand(s, h), s.trace);
    }
  }

  // The worker lets go of an item whose record is in no transient stage.
  lemma DoneKeeps(c: Config, s: State)
    requires Closed(s) && TraceOk(c, s) && RecsOk(c, s) && DistinctIds(s)
    requires s.worker.Busy? && s.worker.item.Work? && !s.worker.item.replay ==>
      var r := s.recs[s.worker.item.h]; r.stage != InFlight && r.stage != AcceptedStage
    ensures Inv(c, Done(c, s))
  {
    var t := s.(worker := Idle);
    forall h | 0 <= h < |t.recs|
      ensures RecOk(c, t.recs[h], h, multiset(t.queue)[Work(h, false)], h in t.cache, InHand(t, h), t.trace)
    {
      assert RecOk(c, s.recs[h], h, multiset(s.queue)[Work(h, false)], h in s.cache, InHand(s, h), s.trace);
    }
    TrimKeeps(c, t);
  }

  // ---- the queue ------------------------------------------------------------------------

  predicate NotOriginal(item: Item) {
    item.Ready? || item.replay
  }

  predicate SameCore(a: Rec, b: Rec) {
    a.request == b.request && a.ack == b.ack && a.started == b.started && a.stage == b.stage
  }

  // Steps that only move queue entries, retry timers and pending flags.
  lemma CoreKeeps(c: Config, s: State, t: State)
    requires Inv(c, s) && Closed(t)
    requires t.worker == s.worker && t.cache == s.cache && t.trace == s.trace && |t.recs| == |s.recs|
    requires forall h :: 0 <= h < |s.recs| ==>
      && SameCore(s.recs[h], t.recs[h])
      && multiset(t.queue)[Work(h, false)] == (if t.recs[h].enqueued then 1 else 0)
      && (t.recs[h].enqueued ==> t.recs[h].stage == Queued)
    ensures Inv(c, t)
  {
    forall h | 0 <= h < |t.recs|
      ensures RecOk(c, t.recs[h], h, multiset(t.queue)[Work(h, false)], h in t.cache, InHand(t, h), t.trace)
    {
      assert RecOk(c, s.recs[h], h, multiset(s.queue)[Work(h, false)], h in s.cache, InHand(s, h), s.trace);
      assert SameCore(s.recs[h], t.recs[h]);
    }
    assert TraceOk(c, t) by {
      forall k | 0 <= k < |s.trace|
        ensures t.recs[s.trace[k].h].request == s.recs[s.trace[k].h].request
      {
        assert SameCore(s.recs[s.trace[k].h], t.recs[s.trace[k].h]);
      }
    }
    assert DistinctIds(t) by {
      forall i | 0 <= i < |s.cache|
        ensures t.recs[s.cache[i]].request == s.recs[s.cache[i]].request
      {
        assert SameCore(s.recs[s.cache[i]], t.recs[s.cache[i]]);
      }
    }
    if s.worker.Busy? && s.worker.item.Work? {
      assert SameCore(s.recs[s.worker.item.h], t.recs[s.worker.item.h]);
    }
  }

  lemma EnqueuedFacts(c: Config, s: State, h: Handle)
    requires RecsOk(c, s) && h < |s.recs|
    ensures multiset(s.queue)[Work(h, false)] == (if s.recs[h].enqueued then 1 else 0)
    ensures s.recs[h].enqueued ==> s.recs[h].stage == Queued
  {
    assert RecOk(c, s.recs[h], h, multiset(s.queue)[Work(h, false)], h in s.cache, InHand(s, h), s.trace);
  }

  lemma PushKeeps(c: Config, s: State, item: Item)
    requires Inv(c, s) && NotOriginal(item) && (item.Work? ==> item.h < |s.recs|)
    ensures Inv(c, Enqueue(c, s, item))
  {
    var t := Enqueue(c, s, item);
    forall h | 0 <= h < |s.recs|
      ensures SameCore(s.recs[h], t.recs[h])
      ensures multiset(t.queue)[Work(h, false)] == (if t.recs[h].enqueued then 1 else 0)
      ensures t.recs[h].enqueued ==> t.recs[h].stage == Queued
    {
      EnqueuedFacts(c, s, h);
      assert Work(h, false) != item;
    }
    CoreKeeps(c, s, t);
  }

  lemma RequeueKeeps(c: Config, s: State, h: Handle)
    requires Inv(c, s) && h < |s.recs|
    ensures Inv(c, Requeue(c, s, h))
  {
    var t := Requeue(c, s, h);
    forall g | 0 <= g < |s.recs|
      ensures SameCore(s.recs[g], t.recs[g])
      ensures multiset(t.queue)[Work(g, false)] == (if t.recs[g].enqueued then 1 else 0)
      ensures t.recs[g].enqueued ==> t.recs[g].stage == Queued
    {
      EnqueuedFacts(c, s, g);
    }
    CoreKeeps(c, s, t);
  }

  // Changing only a record's pending flag and retry plan.
  lemma RetryKeeps(c: Config, s: State, h: Handle, r: Rec)
    requires Inv(c, s) && h < |s.recs| && SameCore(s.recs[h], r) && r.enqueued == s.recs[h].enqueued
    ensures Inv(c, s.(recs := s.recs[h := r]))
  {
    var t := s.(recs := s.recs[h := r]);
    forall g | 0 <= g < |s.recs|
      ensures SameCore(s.recs[g], t.recs[g])
      ensures multiset(t.queue)[Work(g, false)] == (if t.recs[g].enqueued then 1 else 0)
      ensures t.recs[g].enqueued ==> t.recs[g].stage == Queued
    {
      EnqueuedFacts(c, s, g);
    }
    CoreKeeps(c, s, t);
  }

  lemma {:induction false} RequeueAllKeeps(c: Config, s: State, cache: seq<Handle>)
    requires Inv(c, s) && InRange(cache, |s.recs|)
    ensures Inv(c, RequeueAll(c, s, cache))
    decreases |cache|
  {
    if cache != [] {
      RequeueKeeps(c, s, cache[|cache| - 1]);
      RequeueAllKeeps(c, Requeue(c, s, cache[|cache| - 1]), cache[..|cache| - 1]);
    }
  }

  lemma {:induction false} ReplayAllKeeps(c: Config, s: State, cache: seq<Handle>)
    requires Inv(c, s) && InRange(cache, |s.recs|)
    ensures Inv(c, ReplayAll(c, s, cache))
    decreases |cache|
  {
    if cache != [] {
      var h := cache[|cache| - 1];
      PushKeeps(c, s, Work(h, true));
      ReplayAllKeeps(c, if OwesCallback(s.recs[h]) then Enqueue(c, s, Work(h, true)) else s, cache[..|cache| - 1]);
    }
  }

  lemma ReplayCallbacksKeeps(c: Config, s: State)
    requires Inv(c, s)
    ensures Inv(c, ReplayCallbacks(c, s))
  {
    RequeueAllKeeps(c, s, s.cache);
    ReplayAllKeeps(c, RequeueAll(c, s, s.cache), s.cache);
  }

  // ---- events -----------------------------------------------------------------------------

  lemma NewRecKeeps(c: Config, s: State, r: Rec, item: Item, cached: bool)
    requires Inv(c, s)
    requires item == Work(|s.recs|, !cached)
    requires !r.started && r.stage == (if cached then Queued else Terminal) && r.enqueued == cached
    requires cached ==> forall h :: h in s.cache ==> s.recs[h].request.id != r.request.id
    ensures Inv(c, s.(recs := s.recs + [r], queue := s.queue + [item],
                      cache := if cached then s.cache + [|s.recs|] else s.cache))
  {
    var n := |s.recs|;
    var t := s.(recs := s.recs + [r], queue := s.queue + [item], cache := if cached then s.cache + [n] else s.cache);
    assert TraceOk(c, t) by {
      forall k | 0 <= k < |s.trace|
        ensures t.recs[s.trace[k].h] == s.recs[s.trace[k].h]
      {
      }
    }
    assert Work(n, false) !in s.queue;
    FreshHandle(s.trace, n);
    forall h | 0 <= h < |t.recs|
      ensures RecOk(c, t.recs[h], h, multiset(t.queue)[Work(h, false)], h in t.cache, InHand(t, h), t.trace)
    {
      if h < n {
        assert RecOk(c, s.recs[h], h, multiset(s.queue)[Work(h, false)], h in s.cache, InHand(s, h), s.trace);
      }
    }
  }

  lemma {:induction false} FreshHandle(trace: seq<Fact>, n: nat)
    requires forall k :: 0 <= k < |trace| ==> trace[k].h < n
    ensures Invocations(trace, n) == 0
  {
    if trace != [] { FreshHandle(trace[..|trace| - 1], n); }
  }

  lemma MovedSame(cache: seq<Handle>, i: nat, h: Handle)
    requires i < |cache|
    ensures h in Without(cache, i) + [cache[i]] <==> h in cache
  {
    var next := Without(cache, i) + [cache[i]];
    if h in cache {
      var k :| 0 <= k < |cache| && cache[k] == h;
      assert if k < i then next[k] == h else if k == i then next[|next| - 1] == h else next[k - 1] == h;
    }
  }

  lemma MovedDistinct(s: State, i: nat)
    requires InRange(s.cache, |s.recs|) && DistinctIds(s) && i < |s.cache|
    ensures InRange(Without(s.cache, i) + [s.cache[i]], |s.recs|)
    ensures DistinctIds(s.(cache := Without(s.cache, i) + [s.cache[i]]))
  {
    var next := Without(s.cache, i) + [s.cache[i]];
    forall j, k | 0 <= j < k < |next|
      ensures s.recs[next[j]].request.id != s.recs[next[k]].request.id
    {
      var j' := if j < i then j else j + 1;
      var k' := if k == |next| - 1 then i else if k < i then k else k + 1;
      assert next[j] == s.cache[j'] && next[k] == s.cache[k'] && j' != k';
    }
  }

  lemma MoveToEndKeeps(c: Config, s: State, i: nat)
    requires Inv(c, s) && i < |s.cache|
    ensures Inv(c, s.(cache := Without(s.cache, i) + [s.cache[i]]))
  {
    MovedDistinct(s, i);
    var t := s.(cache := Without(s.cache, i) + [s.cache[i]]);
    forall h | 0 <= h < |t.recs|
      ensures RecOk(c, t.recs[h], h, multiset(t.queue)[Work(h, false)], h in t.cache, InHand(t, h), t.trace)
    {
      MovedSame(s.cache, i, h);
      assert RecOk(c, s.recs[h], h, multiset(s.queue)[Work(h, false)], h in s.cache, InHand(s, h), s.trace);
    }
  }

  lemma FlagsKeep(c: Config, s: State, pending: bool, enqueued: bool, retries: nat, timer: bool, closed: bool)
    requires Inv(c, s)
    ensures Inv(c, s.(readyPending := pending, readyEnqueued := enqueued, readyRetries := retries,
                      readyTimer := timer, closed := closed))
  {
    var t := s.(readyPending := pending, readyEnqueued := enqueued, readyRetries := retries,
                readyTimer := timer, closed := closed);
    forall h | 0 <= h < |s.recs|
      ensures multiset(t.queue)[Work(h, false)] == (if t.recs[h].enqueued then 1 else 0)
      ensures t.recs[h].enqueued ==> t.recs[h].stage == Queued
    {
      EnqueuedFacts(c, s, h);
    }
    CoreKeeps(c, s, t);
  }

  lemma SubmitRequestKeeps(c: Config, s: State, req: Request)
    requires Inv(c, s)
    ensures Inv(c, SubmitRequest(c, s, req))
  {
    FlagsKeep(c, s, false, false, 0, false, s.closed);
    var s1 := if RetiresReady(req.action) then ReadyDelivered(s) else s;
    assert Inv(c, s1);
    var i := Find(s1.recs, s1.cache, req.id);
    if i < |s1.cache| {
      KnownKeeps(c, s1, i);
    } else if !Full(c, s1) {
      NewRequestKeeps(c, s1, req);
    }
  }

  lemma KnownKeeps(c: Config, s: State, i: nat)
    requires Inv(c, s) && i < |s.cache|
    ensures Inv(c, Known(c, s, i))
  {
    var h := s.cache[i];
    MoveToEndKeeps(c, s, i);
    var s1 := s.(cache := Without(s.cache, i) + [h]);
    RequeueKeeps(c, s1, h);
    PushKeeps(c, s1, Work(h, true));
  }

  lemma NewRequestKeeps(c: Config, s: State, req: Request)
    requires Inv(c, s) && Find(s.recs, s.cache, req.id) == |s.cache|
    ensures Inv(c, Trim(c, s.(recs := s.recs + [NewRec(req).(enqueued := true)], cache := s.cache + [|s.recs|],
                              queue := s.queue + [Work(|s.recs|, false)])))
  {
    var h, r := |s.recs|, NewRec(req).(enqueued := true);
    NewRecKeeps(c, s, r, Work(h, false), true);
    TrimKeeps(c, s.(recs := s.recs + [r], queue := s.queue + [Work(h, false)], cache := s.cache + [h]));
  }

  lemma SubmitKeeps(c: Config, s: State, e: Event)
    requires Inv(c, s)
    ensures Inv(c, Submit(c, s, e))
  {
    match e
    case NotPower =>
    case Malformed(None) =>
    case Malformed(Some(id)) =>
      var rejected := Rec(Request(id, Status), Some(Failed), true, 0, None, false, Terminal, false);
      if !Full(c, s) { NewRecKeeps(c, s, rejected, Work(|s.recs|, true), false); }
    case Parsed(req) =>
      SubmitRequestKeeps(c, s, req);
  }

  lemma AckTimerKeeps(c: Config, s: State, h: Handle)
    requires Inv(c, s) && h < |s.recs|
    ensures Inv(c, AckTimer(c, s, h))
  {
    var r := s.recs[h].(timer := None);
    RetryKeeps(c, s, h, r);
    var s1 := s.(recs := s.recs[h := r]);
    PushKeeps(c, s1, Work(h, true));
    RetryKeeps(c, s1, h, ScheduleAck(s.closed, r));
  }

  lemma ShutdownKeeps(c: Config, s: State)
    requires Inv(c, s)
    ensures Inv(c, Shutdown(s))
  {
    var t := Shutdown(s);
    forall h | 0 <= h < |s.recs|
      ensures SameCore(s.recs[h], t.recs[h])
      ensures multiset(t.queue)[Work(h, false)] == (if t.recs[h].enqueued then 1 else 0)
      ensures t.recs[h].enqueued ==> t.recs[h].stage == Queued
    {
      EnqueuedFacts(c, s, h);
    }
    CoreKeeps(c, s, t);
  }

  // ---- the worker ------------------------------------------------------------------------------

  // Popping the next item, before it is acted on.
  lemma PopCounts(s: State, h: Handle)
    requires s.queue != []
    ensures multiset(s.queue)[Work(h, false)] ==
      multiset(s.queue[1..])[Work(h, false)] + if s.queue[0] == Work(h, false) then 1 else 0
  {
    assert s.queue == [s.queue[0]] + s.queue[1..];
  }

  lemma BeginKeeps(c: Config, s: State)
    requires Closed(s) && TraceOk(c, s) && RecsOk(c, s) && DistinctIds(s)
    requires s.worker.Busy? && s.worker.item.Work? && !s.worker.item.replay
    requires s.recs[s.worker.item.h].stage == InFlight
    ensures Inv(c, Begin(c, s))
  {
    var h := s.worker.item.h;
    var r := s.recs[h];
    assert RecOk(c, r, h, multiset(s.queue)[Work(h, false)], h in s.cache, InHand(s, h), s.trace);
    if !c.enabled || (r.request.action.Suspend? && !c.allowSuspend) {
      SetKeeps(c, s, h, CacheAck(r.(stage := Terminal), Failed), s.worker.(at := FailureReport));
    } else if NeedsSupport(r.request.action) {
      SetKeeps(c, s, h, r, s.worker.(at := CheckingSupport));
    } else {
      SetKeeps(c, s, h, CacheAck(r, Accepted), s.worker.(at := SendingAccepted));
    }
  }

  // The record and worker right after an item is popped.
  lemma PopKeeps(c: Config, s: State, r: Rec, at: Point)
    requires Inv(c, s) && s.worker.Idle? && s.queue != [] && s.queue[0].Work?
    requires var h, replay := s.queue[0].h, s.queue[0].replay;
      && r.request == s.recs[h].request && r.started == s.recs[h].started
      && r.ack == s.recs[h].ack
      && r.enqueued == (replay && s.recs[h].enqueued)
      && (r.stage == s.recs[h].stage || (!replay && r.stage == InFlight && s.recs[h].stage == Queued))
    ensures var t := s.(queue := s.queue[1..], worker := Busy(s.queue[0], at), recs := s.recs[s.queue[0].h := r]);
      Closed(t) && TraceOk(c, t) && RecsOk(c, t) && DistinctIds(t)
  {
    var h, replay := s.queue[0].h, s.queue[0].replay;
    var t := s.(queue := s.queue[1..], worker := Busy(s.queue[0], at), recs := s.recs[h := r]);
    forall g | 0 <= g < |t.recs|
      ensures RecOk(c, t.recs[g], g, multiset(t.queue)[Work(g, false)], g in t.cache, InHand(t, g), t.trace)
    {
      PopCounts(s, g);
      assert RecOk(c, s.recs[g], g, multiset(s.queue)[Work(g, false)], g in s.cache, InHand(s, g), s.trace);
    }
  }

  lemma TakeWorkKeeps(c: Config, s: State, h: Handle, replay: bool)
    requires Inv(c, s) && s.worker.Idle? && s.queue != [] && s.queue[0] == Work(h, replay)
    ensures Inv(c, TakeWork(c, s, h, replay))
  {
    var item := s.queue[0];
    var r := if replay then s.recs[h] else s.recs[h].(enqueued := false);
    PopCounts(s, h);
    assert RecOk(c, s.recs[h], h, multiset(s.queue)[Work(h, false)], h in s.cache, InHand(s, h), s.trace);
    if !replay && r.stage == Queued {
      PopKeeps(c, s, r.(stage := InFlight), SendingAccepted);
      BeginKeeps(c, s.(queue := s.queue[1..], worker := Busy(item, SendingAccepted),
                       recs := s.recs[h := r.(stage := InFlight)]));
    } else if r.ack.Some? {
      assert replay;
      PopKeeps(c, s, r.(pending := true), Replaying(r.ack.value));
    } else {
      PopKeeps(c, s, r, ReadyReport);
      DoneKeeps(c, s.(queue := s.queue[1..], worker := Busy(item, ReadyReport), recs := s.recs[h := r]));
    }
  }

  lemma TakeKeeps(c: Config, s: State)
    requires Inv(c, s)
    ensures Inv(c, Take(c, s))
  {
    if s.worker.Idle? && s.queue != [] {
      if s.queue[0].Ready? {
        var s1 := s.(queue := s.queue[1..], worker := Busy(Ready, ReadyReport), readyEnqueued := false);
        forall h | 0 <= h < |s1.recs|
          ensures RecOk(c, s1.recs[h], h, multiset(s1.queue)[Work(h, false)], h in s1.cache, InHand(s1, h), s1.trace)
        {
          PopCounts(s, h);
          assert RecOk(c, s.recs[h], h, multiset(s.queue)[Work(h, false)], h in s.cache, InHand(s, h), s.trace);
        }
        if !s.readyPending { DoneKeeps(c, s1); }
      } else {
        TakeWorkKeeps(c, s, s.queue[0].h, s.queue[0].replay);
      }
    }
  }

  lemma HandRec(c: Config, s: State)
    requires Inv(c, s) && s.worker.Busy? && s.worker.item.Work?
    ensures var h := s.worker.item.h;
      RecOk(c, s.recs[h], h, multiset(s.queue)[Work(h, false)], h in s.cache, InHand(s, h), s.trace)
  {
  }

  lemma AckReplyKeeps(c: Config, s: State, h: Handle, a: Ack, ok: bool)
    requires Inv(c, s) && h < |s.recs|
    ensures Inv(c, AckReply(s, h, a, ok))
    ensures SameCore(s.recs[h], AckReply(s, h, a, ok).recs[h])
    ensures AckReply(s, h, a, ok).worker == s.worker
    ensures ok ==> AckReply(s, h, a, ok).trace == s.trace + [AckOk(h, a)]
  {
    if ok {
      var r := AckDelivered(s.recs[h], a);
      RetryKeeps(c, s, h, r);
      NoteKeeps(c, s.(recs := s.recs[h := r]), AckOk(h, a));
    } else {
      RetryKeeps(c, s, h, ScheduleAck(s.closed, s.recs[h]));
    }
  }

  lemma PutKeeps(c: Config, s: State, r: Rec, at: Point)
    requires Inv(c, s) && s.worker.Busy? && s.worker.item.Work?
    requires var h := s.worker.item.h; var t := Put(s, r, at);
      && r.request == s.recs[h].request
      && RecOk(c, r, h, multiset(s.queue)[Work(h, false)], h in s.cache, InHand(s, h), s.trace)
      && WorkerOk(c, t)
    ensures Inv(c, Put(s, r, at))
  {
    SetKeeps(c, s, s.worker.item.h, r, s.worker.(at := at));
  }

  lemma FailKeeps(c: Config, s: State)
    requires Inv(c, s) && s.worker.Busy? && s.worker.item.Work? && !s.worker.item.replay
    requires !s.recs[s.worker.item.h].enqueued
    ensures Inv(c, Fail(s))
  {
    HandRec(c, s);
    PutKeeps(c, s, CacheAck(s.recs[s.worker.item.h].(stage := Terminal), Failed), FailureReport);
  }

  lemma MoveKeeps(c: Config, s: State, at: Point)
    requires Inv(c, s) && s.worker.Busy? && s.worker.item.Work?
    requires WorkerOk(c, s.(worker := s.worker.(at := at)))
    ensures Inv(c, s.(worker := s.worker.(at := at)))
  {
    HandRec(c, s);
    var h := s.worker.item.h;
    PutKeeps(c, s, s.recs[h], at);
    assert s.recs[h := s.recs[h]] == s.recs;
  }

  lemma SameRequestsTrace(c: Config, s: State, t: State)
    requires TraceOk(c, s) && t.trace == s.trace && |t.recs| == |s.recs|
    requires forall g :: 0 <= g < |s.recs| ==> t.recs[g].request == s.recs[g].request
    ensures TraceOk(c, t)
  {
    forall k | 0 <= k < |t.trace|
      ensures t.recs[t.trace[k].h].request == s.recs[s.trace[k].h].request
    {
    }
  }

  // The helper is started: the one place where an invocation enters the history.
  lemma InvokedRec(c: Config, s: State, g: Handle)
    requires Inv(c, s) && Holding(s) && s.worker.at == WaitingForHelper && g < |s.recs|
    ensures var h := s.worker.item.h;
      RecOk(c, if g == h then s.recs[g].(started := true) else s.recs[g], g, multiset(s.queue)[Work(g, false)],
            g in s.cache, InHand(s, g), s.trace + [Invoked(h)])
  {
    InvocationsSnoc(s.trace, Invoked(s.worker.item.h), g);
    assert RecOk(c, s.recs[g], g, multiset(s.queue)[Work(g, false)], g in s.cache, InHand(s, g), s.trace);
  }

  lemma InvokeTrace(c: Config, s: State)
    requires Inv(c, s) && Holding(s) && s.worker.at == WaitingForHelper
    ensures TraceOk(c, Invoke(s))
  {
    HandRec(c, s);
    TraceSnoc(c, s, Invoked(s.worker.item.h));
    SameRequestsTrace(c, Note(s, Invoked(s.worker.item.h)), Invoke(s));
  }

  lemma InvokeKeeps(c: Config, s: State)
    requires Inv(c, s) && Holding(s) && s.worker.at == WaitingForHelper
    ensures Inv(c, Invoke(s))
  {
    InvokeTrace(c, s);
    var t := Invoke(s);
    forall g | 0 <= g < |t.recs|
      ensures RecOk(c, t.recs[g], g, multiset(t.queue)[Work(g, false)], g in t.cache, InHand(t, g), t.trace)
    {
      InvokedRec(c, s, g);
    }
  }

  // From the ACK replies on: each suspension point with its continuation.
  lemma ReplayReplyKeeps(c: Config, s: State, a: Ack, ok: bool)
    requires Inv(c, s) && Holding(s) && s.worker.at == Replaying(a)
    ensures Inv(c, ReplayReply(c, s, a, ok))
  {
    var h := s.worker.item.h;
    HandRec(c, s);
    AckReplyKeeps(c, s, h, a, ok);
    var s1 := AckReply(s, h, a, ok);
    if ok && s.worker.item.replay && s.recs[h].stage == CommittedStage && !s.recs[h].started {
      ConfirmedSnoc(s.trace, AckOk(h, a), h);
      MoveKeeps(c, s1, WaitingForHelper);
    } else {
      DoneKeeps(c, s1);
    }
  }

  lemma AcceptedReplyKeeps(c: Config, s: State, ok: bool)
    requires Inv(c, s) && Holding(s) && s.worker.at == SendingAccepted
    ensures Inv(c, AcceptedReply(s, ok))
  {
    var h := s.worker.item.h;
    HandRec(c, s);
    AckReplyKeeps(c, s, h, Accepted, ok);
    var s1 := AckReply(s, h, Accepted, ok);
    HandRec(c, s1);
    if !ok {
      PutKeeps(c, s1, CacheAck(s1.recs[h].(stage := Terminal), Failed), SendingFinal(false));
    } else {
      var action := s.recs[h].request.action;
      var r := s1.recs[h].(stage := AcceptedStage);
      assert s1.trace[|s.trace|] == AckOk(h, Accepted);
      PutKeeps(c, s1, r, if action.Status? then QueryingStatus else if action.Profile? then ApplyingProfile
                         else TransitionReport);
    }
  }

  lemma CommittedReplyKeeps(c: Config, s: State, ok: bool)
    requires Inv(c, s) && Holding(s) && s.worker.at == SendingCommitted
    ensures Inv(c, CommittedReply(s, ok))
  {
    var h := s.worker.item.h;
    HandRec(c, s);
    AckReplyKeeps(c, s, h, Committed, ok);
    var s1 := AckReply(s, h, Committed, ok);
    HandRec(c, s1);
    if ok {
      ConfirmedSnoc(s.trace, AckOk(h, Committed), h);
      MoveKeeps(c, s1, WaitingForHelper);
    } else {
      FailKeeps(c, s1);
    }
  }

  lemma FinalReplyKeeps(c: Config, s: State, wake: bool, ok: bool)
    requires Inv(c, s) && Holding(s) && (s.worker.at == SendingFinal(wake) || s.worker.at == LateFailure)
    ensures Inv(c, FinalReply(c, s, wake, ok))
  {
    var h := s.worker.item.h;
    HandRec(c, s);
    var a := if s.recs[h].ack == Some(Applied) then Applied else Failed;
    AckReplyKeeps(c, s, h, a, ok);
    var s1 := AckReply(s, h, a, ok);
    if wake {
      MoveKeeps(c, s1, WakeReport);
    } else {
      DoneKeeps(c, s1);
    }
  }

  lemma WakeKeeps(c: Config, s: State, ok: bool)
    requires Inv(c, s) && Holding(s)
    ensures s.worker.at == WakeReport ==>
      Inv(c, Move(s.(readyPending := true, readyRetries := 0, readyTimer := false), WakeReady))
    ensures s.worker.at == WakeReady ==> Inv(c, Woken(c, s, ok))
  {
    if s.worker.at == WakeReport {
      FlagsKeep(c, s, true, s.readyEnqueued, 0, false, s.closed);
      MoveKeeps(c, s.(readyPending := true, readyRetries := 0, readyTimer := false), WakeReady);
    } else if s.worker.at == WakeReady {
      var s1 := if ok then ReadyDelivered(s) else ScheduleReady(s);
      FlagsKeep(c, s, s1.readyPending, s1.readyEnqueued, s1.readyRetries, s1.readyTimer, s.closed);
      ReplayCallbacksKeeps(c, s1);
      ReplayHands(c, s1);
      DoneKeeps(c, ReplayCallbacks(c, s1));
    }
  }

  lemma {:induction false} RequeueAllHands(c: Config, s: State, cache: seq<Handle>)
    requires InRange(cache, |s.recs|)
    ensures var t := RequeueAll(c, s, cache);
      t.worker == s.worker && |t.recs| == |s.recs| && forall h :: 0 <= h < |s.recs| ==> SameCore(s.recs[h], t.recs[h])
    decreases |cache|
  {
    if cache != [] {
      var s1 := Requeue(c, s, cache[|cache| - 1]);
      RequeueAllHands(c, s1, cache[..|cache| - 1]);
      forall h | 0 <= h < |s.recs|
        ensures SameCore(s.recs[h], RequeueAll(c, s, cache).recs[h])
      {
        assert SameCore(s.recs[h], s1.recs[h]);
        assert SameCore(s1.recs[h], RequeueAll(c, s1, cache[..|cache| - 1]).recs[h]);
      }
    }
  }

  lemma {:induction false} ReplayAllHands(c: Config, s: State, cache: seq<Handle>)
    requires InRange(cache, |s.recs|)
    ensures ReplayAll(c, s, cache).worker == s.worker
    decreases |cache|
  {
    if cache != [] {
      var h := cache[|cache| - 1];
      ReplayAllHands(c, if OwesCallback(s.recs[h]) then Enqueue(c, s, Work(h, true)) else s, cache[..|cache| - 1]);
    }
  }

  // Replaying callbacks leaves the worker and every record's protocol state alone.
  lemma ReplayHands(c: Config, s: State)
    requires InRange(s.cache, |s.recs|)
    ensures var t := ReplayCallbacks(c, s);
      t.worker == s.worker && |t.recs| == |s.recs| && forall h :: 0 <= h < |s.recs| ==> SameCore(s.recs[h], t.recs[h])
  {
    RequeueAllHands(c, s, s.cache);
    ReplayAllHands(c, RequeueAll(c, s, s.cache), s.cache);
  }

  lemma SupportReplyKeeps(c: Config, s: State, ok: bool)
    requires Inv(c, s) && Holding(s) && s.worker.at == CheckingSupport
    ensures Inv(c, SupportReply(s, ok))
  {
    var h := s.worker.item.h;
    HandRec(c, s);
    if ok {
      NoteKeeps(c, s, SupportOk(h));
      var s1 := Note(s, SupportOk(h));
      HandRec(c, s1);
      assert s1.trace[|s.trace|] == SupportOk(h);
      PutKeeps(c, s1, CacheAck(s.recs[h], Accepted), SendingAccepted);
    } else {
      FailKeeps(c, s);
    }
  }

  lemma QueryReplyKeeps(c: Config, s: State, ok: bool)
    requires Inv(c, s) && Holding(s)
    requires s.worker.at == QueryingStatus || s.worker.at == ApplyingProfile
    ensures Inv(c, ActionReply(s, ok))
  {
    var r := s.recs[s.worker.item.h];
    HandRec(c, s);
    if !ok {
      FailKeeps(c, s);
    } else {
      var s1 := Note(s, HelperOk(s.worker.item.h));
      NoteKeeps(c, s, HelperOk(s.worker.item.h));
      HandRec(c, s1);
      if s.worker.at == QueryingStatus { PutKeeps(c, s1, r, StatusReport); }
      else { PutKeeps(c, s1, r.(stage := Terminal), ProfileReport); }
    }
  }

  lemma ReportReplyKeeps(c: Config, s: State, ok: bool)
    requires Inv(c, s) && Holding(s)
    requires s.worker.at == StatusReport || s.worker.at == ProfileReport || s.worker.at == TransitionReport
    ensures Inv(c, ActionReply(s, ok))
  {
    var r := s.recs[s.worker.item.h];
    HandRec(c, s);
    if s.worker.at == StatusReport { PutKeeps(c, s, CacheAck(r.(stage := Terminal), Applied), SendingFinal(false)); }
    else if s.worker.at == ProfileReport { PutKeeps(c, s, CacheAck(r, Applied), SendingFinal(false)); }
    else { PutKeeps(c, s, CacheAck(r.(stage := CommittedStage), Committed), SendingCommitted); }
  }

  lemma SucceededKeeps(c: Config, s: State)
    requires Inv(c, s) && Holding(s) && s.worker.at == Executing
    ensures Inv(c, ExecutionReply(c, s, true))
  {
    var f := HelperOk(s.worker.item.h);
    var r := s.recs[s.worker.item.h];
    NoteKeeps(c, s, f);
    HandRec(c, Note(s, f));
    PutKeeps(c, Note(s, f), CacheAck(r.(stage := Terminal), Applied), SendingFinal(r.request.action.Suspend?));
  }

  lemma ExecutionReplyKeeps(c: Config, s: State, ok: bool)
    requires Inv(c, s) && Holding(s)
    ensures s.worker.at == Executing ==> Inv(c, ExecutionReply(c, s, ok))
    ensures s.worker.at == FailureReport ==> Inv(c, FailureReported(c, s))
  {
    var r := s.recs[s.worker.item.h];
    HandRec(c, s);
    if s.worker.at == FailureReport {
      PutKeeps(c, s, r.(pending := true), Replaying(r.ack.value));
    } else if s.worker.at == Executing {
      if ok {
        SucceededKeeps(c, s);
      } else {
        DoneKeeps(c, s);
      }
    }
  }

  lemma ResumeWorkKeeps(c: Config, s: State, ok: bool)
    requires Inv(c, s) && Holding(s)
    ensures Inv(c, ResumeWork(c, s, ok))
  {
    match s.worker.at
    case ReadyReport =>
    case Replaying(a) => ReplayReplyKeeps(c, s, a, ok);
    case CheckingSupport => SupportReplyKeeps(c, s, ok);
    case SendingAccepted => AcceptedReplyKeeps(c, s, ok);
    case SendingCommitted => CommittedReplyKeeps(c, s, ok);
    case WaitingForHelper => InvokeKeeps(c, s);
    case Executing => ExecutionReplyKeeps(c, s, ok);
    case FailureReport => ExecutionReplyKeeps(c, s, ok);
    case SendingFinal(wake) => FinalReplyKeeps(c, s, wake, ok);
    case LateFailure => FinalReplyKeeps(c, s, false, ok);
    case WakeReport => WakeKeeps(c, s, ok);
    case WakeReady => WakeKeeps(c, s, ok);
    case QueryingStatus => QueryReplyKeeps(c, s, ok);
    case ApplyingProfile => QueryReplyKeeps(c, s, ok);
    case _ => ReportReplyKeeps(c, s, ok);
  }

  // Giving a record back to the queue after a lost link or a cancellation.
  lemma RecoverKeeps(c: Config, s: State)
    requires Inv(c, s) && s.worker.Busy? && s.worker.item.Work? && !s.worker.item.replay
    ensures Inv(c, Done(c, Recover(c, s, s.worker.item.h)))
  {
    var h := s.worker.item.h;
    var r := s.recs[h];
    HandRec(c, s);
    if !r.started && (r.stage == InFlight || r.stage == AcceptedStage) {
      SetKeeps(c, s, h, r.(stage := Queued), Idle);
      var s1 := s.(recs := s.recs[h := r.(stage := Queued)], worker := Idle);
      RequeueKeeps(c, s1, h);
      TrimKeeps(c, Requeue(c, s1, h));
      assert Done(c, Recover(c, s, h)) == Trim(c, Requeue(c, s1, h));
    } else {
      DoneKeeps(c, s);
    }
  }

  lemma CrashKeeps(c: Config, s: State)
    requires Inv(c, s) && s.worker.Busy? && s.worker.item.Work? && AtHelper(s.worker.at)
    ensures Inv(c, Resume(c, s, Crash))
  {
    HandRec(c, s);
    var r := s.recs[s.worker.item.h];
    if r.stage == CommittedStage {
      DoneKeeps(c, s);
    } else {
      PutKeeps(c, s, CacheAck(r.(stage := Terminal), Failed), LateFailure);
    }
  }

  lemma ResumeKeeps(c: Config, s: State, a: Answer)
    requires Inv(c, s)
    ensures Inv(c, Resume(c, s, a))
  {
    match s.worker
    case Idle =>
    case Busy(Ready, _) =>
      var s1 := if a == Ok_ then ReadyDelivered(s) else if a == Stop then s else ScheduleReady(s);
      FlagsKeep(c, s, s1.readyPending, s1.readyEnqueued, s1.readyRetries, s1.readyTimer, s.closed);
      DoneKeeps(c, s1);
    case Busy(Work(h, replay), at) =>
      if a == Stop {
        if replay || at == LateFailure {
          DoneKeeps(c, s);
        } else {
          RecoverKeeps(c, s);
        }
      } else if a == Crash && AtHelper(at) {
        CrashKeeps(c, s);
      } else {
        ResumeWorkKeeps(c, s, a == Ok_);
      }
  }

  lemma ReadyPushKeeps(c: Config, s: State)
    requires Inv(c, s)
    ensures Inv(c, ReadyTimer(c, s)) && Inv(c, QueueReadyNow(c, s))
  {
    var s1 := s.(readyTimer := false);
    FlagsKeep(c, s, s.readyPending, s.readyEnqueued, s.readyRetries, false, s.closed);
    PushKeeps(c, s1, Ready);
    FlagsKeep(c, Enqueue(c, s1, Ready), s1.readyPending, true, s1.readyRetries, false, s.closed);
    var s2 := ScheduleReady(s1);
    FlagsKeep(c, s1, s2.readyPending, s2.readyEnqueued, s2.readyRetries, s2.readyTimer, s.closed);
  }

  // Every atomic step keeps the invariant.
  lemma NextKeeps(c: Config, s: State, l: Label)
    requires Inv(c, s)
    ensures Inv(c, Next(c, s, l))
  {
    match l
    case DoSubmit(e) => SubmitKeeps(c, s, e);
    case DoTake => TakeKeeps(c, s);
    case DoResume(a) => ResumeKeeps(c, s, a);
    case DoAckTimer(h) => if h < |s.recs| { AckTimerKeeps(c, s, h); }
    case DoReadyTimer => ReadyPushKeeps(c, s);
    case DoReplayPending =>
      ReadyPushKeeps(c, s);
      ReplayCallbacksKeeps(c, QueueReadyNow(c, s));
    case DoReadyClaim => FlagsKeep(c, s, true, s.readyEnqueued, 0, false, s.closed);
    case DoReadyAnswer(ok) =>
      var s1 := if ok then ReadyDelivered(s) else ScheduleReady(s);
      FlagsKeep(c, s, s1.readyPending, s1.readyEnqueued, s1.readyRetries, s1.readyTimer, s.closed);
      ReplayCallbacksKeeps(c, s1);
    case DoClose => ShutdownKeeps(c, s);
  }
}
