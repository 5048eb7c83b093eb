// What the device is told: APPLIED only for what the helper did, FAILED only for what it
// never started, and one verdict for each record.

module PowerAnswers {
  import opened Bytes
  import opened Power
  import opened PowerSafety
  import opened PowerRuns

  // What must have happened before each fact.
  predicate May(a: Action, f: Fact, before: seq<Fact>) {
    match f
    case AckOk(h, Applied) =>
      HelperOk(h) in before && (Destructive(a) ==> Invoked(h) in before) && AckOk(h, Failed) !in before
    case AckOk(h, Failed) => Invoked(h) !in before && AckOk(h, Applied) !in before
    case HelperOk(h) => (Destructive(a) <==> Invoked(h) in before) && !Decided(h, before)
    case Invoked(h) => !Decided(h, before) && HelperOk(h) !in before
    case _ => true
  }

  // A verdict on h was OK'd.
  predicate Decided(h: Handle, trace: seq<Fact>) {
    AckOk(h, Applied) in trace || AckOk(h, Failed) in trace
  }

  ghost predicate TraceSays(recs: seq<Rec>, trace: seq<Fact>) {
    forall k :: 0 <= k < |trace| ==>
      trace[k].h < |recs| && May(recs[trace[k].h].request.action, trace[k], trace[..k])
  }

  predicate RecSays(r: Rec, h: Handle, trace: seq<Fact>) {
    && (r.ack == Some(Applied) ==>
          r.stage == Terminal && HelperOk(h) in trace && (Destructive(r.request.action) ==> Invoked(h) in trace))
    && (r.ack == Some(Failed) ==> r.stage == Terminal && !r.started)
    && (AckOk(h, Applied) in trace ==> r.ack == Some(Applied))
    && (AckOk(h, Failed) in trace ==> r.ack == Some(Failed))
    && (r.started <==> Invoked(h) in trace)
    && (Destructive(r.request.action) && HelperOk(h) in trace ==> r.ack == Some(Applied))
    && (r.stage == Terminal && r.ack != Some(Applied) && r.ack != Some(Failed) ==>
          r.request.action.Profile? && HelperOk(h) in trace)
  }

  ghost predicate RecsSay(s: State) {
    forall h :: 0 <= h < |s.recs| ==> RecSays(s.recs[h], h, s.trace)
  }

  // What the worker knows where it waits.
  predicate PointSays(r: Rec, h: Handle, at: Point, trace: seq<Fact>) {
    match at
    case QueryingStatus => !Destructive(r.request.action)
    case ApplyingProfile => r.request.action.Profile?
    case StatusReport => !Destructive(r.request.action) && HelperOk(h) in trace
    case ProfileReport =>
      !Destructive(r.request.action) && HelperOk(h) in trace && r.ack != Some(Applied) && r.ack != Some(Failed)
      && !r.started
    case Executing => Destructive(r.request.action)
    case _ => true
  }

  predicate WorkerSays(s: State) {
    s.worker.Busy? && s.worker.item.Work? ==>
      s.worker.item.h < |s.recs| && PointSays(s.recs[s.worker.item.h], s.worker.item.h, s.worker.at, s.trace)
  }

  ghost predicate Says(s: State) {
    TraceSays(s.recs, s.trace) && RecsSay(s) && WorkerSays(s)
  }

  // ---- every step keeps it ------------------------------------------------------------------

  // Facts about one record do not concern another.
  lemma OtherFact(r: Rec, h: Handle, trace: seq<Fact>, f: Fact)
    requires RecSays(r, h, trace) && f.h != h
    ensures RecSays(r, h, trace + [f])
  {
  }

  lemma TraceSaysNext(recs: seq<Rec>, recs': seq<Rec>, trace: seq<Fact>, more: seq<Fact>)
    requires TraceSays(recs, trace) && |recs| <= |recs'| && |more| <= 1
    requires forall h :: 0 <= h < |recs| ==> recs'[h].request == recs[h].request
    requires more != [] ==> more[0].h < |recs| && May(recs[more[0].h].request.action, more[0], trace)
    ensures TraceSays(recs', trace + more)
  {
    var all := trace + more;
    forall k | 0 <= k < |all|
      ensures all[k].h < |recs'| && May(recs'[all[k].h].request.action, all[k], all[..k])
    {
      assert all[..k] == if k < |trace| then trace[..k] else trace;
    }
  }

  // Only h changes, and what is added to the history is about h.
  lemma HandSays(s: State, t: State, h: Handle, more: seq<Fact>)
    requires Says(s) && h < |s.recs| && |t.recs| == |s.recs| && t.trace == s.trace + more && |more| <= 1
    requires TouchesOnly(s, t, Some(h)) && t.recs[h].request == s.recs[h].request
    requires more != [] ==> more[0].h == h && May(s.recs[h].request.action, more[0], s.trace)
    requires RecSays(t.recs[h], h, t.trace) && WorkerSays(t)
    ensures Says(t)
  {
    forall g | 0 <= g < |t.recs|
      ensures RecSays(t.recs[g], g, t.trace) && t.recs[g].request == s.recs[g].request
    {
      if g != h {
        assert SameCore(s.recs[g], t.recs[g]) && RecSays(s.recs[g], g, s.trace);
        if more != [] {
          OtherFact(s.recs[g], g, s.trace, more[0]);
        } else {
          assert t.trace == s.trace;
        }
      }
    }
    TraceSaysNext(s.recs, t.recs, s.trace, more);
  }

  // Nothing of what is said changes.
  lemma QuietSays(s: State, t: State)
    requires Says(s) && Quiet(s, t) && t.trace == s.trace && |s.recs| <= |t.recs|
    requires forall h :: |s.recs| <= h < |t.recs| ==>
      t.recs[h].ack != Some(Applied) && (t.recs[h].ack == Some(Failed) <==> t.recs[h].stage == Terminal) && !t.recs[h].started
    ensures Says(t)
  {
    forall h | 0 <= h < |t.recs|
      ensures RecSays(t.recs[h], h, t.trace)
    {
      if h < |s.recs| {
        assert SameCore(s.recs[h], t.recs[h]) && RecSays(s.recs[h], h, s.trace);
      }
    }
    forall h | 0 <= h < |s.recs|
      ensures t.recs[h].request == s.recs[h].request
    {
      assert SameCore(s.recs[h], t.recs[h]);
    }
    TraceSaysNext(s.recs, t.recs, s.trace, []);
    assert s.trace + [] == s.trace;
    if s.worker.Busy? && s.worker.item.Work? {
      assert SameCore(s.recs[s.worker.item.h], t.recs[s.worker.item.h]);
    }
  }

  predicate CleanFrom(recs: seq<Rec>, n: nat) {
    forall h :: n <= h < |recs| ==>
      recs[h].ack != Some(Applied) && (recs[h].ack == Some(Failed) <==> recs[h].stage == Terminal) && !recs[h].started
  }

  lemma SubmitAdds(c: Config, s: State, e: Event)
    requires Closed(s)
    ensures var t := Submit(c, s, e);
      t.trace == s.trace && |s.recs| <= |t.recs| && CleanFrom(t.recs, |s.recs|)
  {
    if e.Parsed? {
      var s1 := if RetiresReady(e.request.action) then ReadyDelivered(s) else s;
      var i := Find(s1.recs, s1.cache, e.request.id);
      if i < |s1.cache| {
        KnownAdds(c, s1, i);
      } else {
        FreshAdds(c, s1, e.request);
      }
    }
  }

  lemma KnownAdds(c: Config, s: State, i: nat)
    requires Closed(s) && i < |s.cache|
    ensures Known(c, s, i).trace == s.trace && |Known(c, s, i).recs| == |s.recs|
  {
  }

  lemma FreshAdds(c: Config, s: State, req: Request)
    requires Closed(s)
    ensures var t := Fresh(c, s, req);
      t.trace == s.trace && |s.recs| <= |t.recs| && CleanFrom(t.recs, |s.recs|)
  {
    hide Trimmed;
  }

  lemma ReplayAdds(c: Config, s: State)
    requires InRange(s.cache, |s.recs|)
    ensures ReplayCallbacks(c, s).trace == s.trace && |ReplayCallbacks(c, s).recs| == |s.recs|
  {
    ReplayQuiet(c, s);
    ReplayHands(c, s);
  }

  lemma OthersAdd(c: Config, s: State, l: Label)
    requires Closed(s) && !l.DoTake? && !l.DoResume?
    ensures var t := Next(c, s, l);
      t.trace == s.trace && |s.recs| <= |t.recs| && CleanFrom(t.recs, |s.recs|)
  {
    match l
    case DoSubmit(e) => SubmitAdds(c, s, e);
    case DoReplayPending => ReplayAdds(c, QueueReadyNow(c, s));
    case DoReadyAnswer(ok) => ReplayAdds(c, if ok then ReadyDelivered(s) else ScheduleReady(s));
    case _ =>
  }

  // The worker lets go: only the cache changes.
  lemma DoneSays(c: Config, s: State)
    requires InRange(s.cache, |s.recs|) && TraceSays(s.recs, s.trace) && RecsSay(s)
    ensures Says(Done(c, s))
  {
  }

  // The held record is replaced and the history extended by at most one fact about it.
  lemma PutSays(s: State, r: Rec, at: Point, more: seq<Fact>)
    requires Says(s) && Holding(s) && |more| <= 1
    requires var h := s.worker.item.h;
      && r.request == s.recs[h].request
      && (more != [] ==> more[0].h == h && May(r.request.action, more[0], s.trace))
      && RecSays(r, h, s.trace + more) && PointSays(r, h, at, s.trace + more)
    ensures Says(Put(s, r, at).(trace := s.trace + more))
    ensures forall c: Config :: Says(Done(c, Put(s, r, at).(trace := s.trace + more)))
  {
    var t := Put(s, r, at).(trace := s.trace + more);
    HandSays(s, t, s.worker.item.h, more);
    forall c: Config
      ensures Says(Done(c, t))
    {
      DoneSays(c, t);
    }
  }

  lemma HandHere(c: Config, s: State)
    requires Inv(c, s) && Says(s) && Holding(s)
    ensures var h := s.worker.item.h; RecSays(s.recs[h], h, s.trace) && PointSays(s.recs[h], h, s.worker.at, s.trace)
    ensures var r := s.recs[s.worker.item.h];
      && (r.stage == InFlight || r.stage == AcceptedStage ==> !r.started)
      && (r.stage == CommittedStage ==> r.ack == Some(Committed) && Destructive(r.request.action))
  {
    HandRec(c, s);
  }

  // An answer to an ACK line: the record keeps what it says.
  lemma AckSays(c: Config, s: State, a: Ack, ok: bool, at: Point)
    requires Inv(c, s) && Says(s) && Holding(s)
    requires a == Applied || a == Failed ==> s.recs[s.worker.item.h].ack == Some(a)
    requires PointSays(s.recs[s.worker.item.h], s.worker.item.h, at, s.trace)
    ensures var u := AckReply(s, s.worker.item.h, a, ok);
      Says(Move(u, at)) && u.cache == s.cache && |u.recs| == |s.recs| && u.worker == s.worker
  {
    HandHere(c, s);
    hide Says, RecSays, PointSays, Inv;
    if ok {
      AckedSays(s, a, at);
    } else {
      RetrySays(s, at);
    }
  }

  lemma AckedSays(s: State, a: Ack, at: Point)
    requires Says(s) && Holding(s) && RecSays(s.recs[s.worker.item.h], s.worker.item.h, s.trace)
    requires a == Applied || a == Failed ==> s.recs[s.worker.item.h].ack == Some(a)
    requires PointSays(s.recs[s.worker.item.h], s.worker.item.h, at, s.trace)
    ensures Says(Move(AckReply(s, s.worker.item.h, a, true), at))
  {
    hide Says, RecSays, PointSays, May;
    var h := s.worker.item.h;
    RecAck(s.recs[h], h, s.trace, a, at);
    PutSays(s, AckDelivered(s.recs[h], a), at, [AckOk(h, a)]);
  }

  lemma RetrySays(s: State, at: Point)
    requires Says(s) && Holding(s) && RecSays(s.recs[s.worker.item.h], s.worker.item.h, s.trace)
    requires PointSays(s.recs[s.worker.item.h], s.worker.item.h, at, s.trace)
    ensures forall a :: Says(Move(AckReply(s, s.worker.item.h, a, false), at))
  {
    hide Says, RecSays, PointSays, May;
    var h := s.worker.item.h;
    RecRetry(s.recs[h], s.closed, h, s.trace, at);
    assert s.trace + [] == s.trace;
    PutSays(s, ScheduleAck(s.closed, s.recs[h]), at, []);
  }

  // Whatever the worker waits for, letting go of the record is fine.
  lemma ReleaseSays(c: Config, u: State)
    requires u.worker.Busy? && InRange(u.cache, |u.recs|) && Says(Move(u, LateFailure))
    ensures Says(Done(c, u))
  {
    DoneSays(c, u);
  }

  lemma LateSaysNothing(r: Rec, h: Handle, trace: seq<Fact>)
    ensures PointSays(r, h, LateFailure, trace)
  {
  }

  lemma RecRetry(r: Rec, closed: bool, h: Handle, trace: seq<Fact>, at: Point)
    requires RecSays(r, h, trace)
    ensures RecSays(ScheduleAck(closed, r), h, trace)
    ensures PointSays(ScheduleAck(closed, r), h, LateFailure, trace)
    ensures PointSays(r, h, at, trace) ==> PointSays(ScheduleAck(closed, r), h, at, trace)
  {
  }

  lemma RecAck(r: Rec, h: Handle, trace: seq<Fact>, a: Ack, at: Point)
    requires RecSays(r, h, trace) && (a == Applied || a == Failed ==> r.ack == Some(a))
    ensures RecSays(AckDelivered(r, a), h, trace + [AckOk(h, a)])
    ensures May(r.request.action, AckOk(h, a), trace)
    ensures PointSays(AckDelivered(r, a), h, LateFailure, trace + [AckOk(h, a)])
    ensures PointSays(r, h, at, trace) ==> PointSays(AckDelivered(r, a), h, at, trace + [AckOk(h, a)])
  {
  }

  // ---- the worker's steps --------------------------------------------------------------------

  // The held record gets a new ACK, stage or both, without a new fact.
  lemma SetSays(c: Config, s: State, r: Rec, at: Point)
    requires Inv(c, s) && Says(s) && Holding(s)
    requires r.request == s.recs[s.worker.item.h].request
    requires RecSays(r, s.worker.item.h, s.trace) && PointSays(r, s.worker.item.h, at, s.trace)
    ensures Says(Put(s, r, at))
  {
    assert s.trace + [] == s.trace;
    PutSays(s, r, at, []);
  }

  lemma FailSays(c: Config, s: State)
    requires Inv(c, s) && Says(s) && Holding(s) && !s.recs[s.worker.item.h].started
    requires s.recs[s.worker.item.h].stage != Terminal
    ensures Says(Fail(s))
  {
    HandHere(c, s);
    SetSays(c, s, CacheAck(s.recs[s.worker.item.h].(stage := Terminal), Failed), FailureReport);
  }

  lemma MoveSays(c: Config, s: State, at: Point)
    requires Inv(c, s) && Says(s) && Holding(s)
    requires PointSays(s.recs[s.worker.item.h], s.worker.item.h, at, s.trace)
    ensures Says(Move(s, at))
  {
    HandHere(c, s);
    SetSays(c, s, s.recs[s.worker.item.h], at);
    assert s.recs[s.worker.item.h := s.recs[s.worker.item.h]] == s.recs;
  }

  lemma ReplayReplySays(c: Config, s: State, a: Ack, ok: bool)
    requires Inv(c, s) && Says(s) && Holding(s) && s.worker.at == Replaying(a)
    ensures Says(ReplayReply(c, s, a, ok))
  {
    HandHere(c, s);
    var u := AckReply(s, s.worker.item.h, a, ok);
    AckSays(c, s, a, ok, WaitingForHelper);
    AckSays(c, s, a, ok, LateFailure);
    ReleaseSays(c, u);
  }

  lemma SupportReplySays(c: Config, s: State, ok: bool)
    requires Inv(c, s) && Says(s) && Holding(s) && s.worker.at == CheckingSupport
    ensures Says(SupportReply(s, ok))
  {
    HandHere(c, s);
    var h := s.worker.item.h;
    if ok {
      PutSays(s, CacheAck(s.recs[h], Accepted), SendingAccepted, [SupportOk(h)]);
    } else {
      FailSays(c, s);
    }
  }

  lemma AcceptedReplySays(c: Config, s: State, ok: bool)
    requires Inv(c, s) && Says(s) && Holding(s) && s.worker.at == SendingAccepted
    ensures Says(AcceptedReply(s, ok))
  {
    hide Says, Inv, AckReply, CacheAck;
    var h := s.worker.item.h;
    var u := AckReply(s, h, Accepted, ok);
    AcceptedHere(c, s);
    AckSays(c, s, Accepted, ok, SendingAccepted);
    AckReplyKeeps(c, s, h, Accepted, ok);
    assert Move(u, SendingAccepted) == u;
    InvCloses(c, u);
    AfterAccepted(c, u);
  }

  lemma AcceptedHere(c: Config, s: State)
    requires Inv(c, s) && Holding(s) && s.worker.at == SendingAccepted
    ensures s.recs[s.worker.item.h].stage == InFlight
    ensures PointSays(s.recs[s.worker.item.h], s.worker.item.h, SendingAccepted, s.trace)
  {
  }

  lemma AfterAccepted(c: Config, u: State)
    requires Inv(c, u) && Says(u) && Holding(u) && u.worker.at == SendingAccepted
    ensures var r := u.recs[u.worker.item.h]; var action := r.request.action;
      && Says(Put(u, CacheAck(r.(stage := Terminal), Failed), SendingFinal(false)))
      && Says(Put(u, r.(stage := AcceptedStage),
                  if action.Status? then QueryingStatus else if action.Profile? then ApplyingProfile else TransitionReport))
  {
    AcceptedHere(c, u);
    HandHere(c, u);
    hide Says, Inv;
    var h := u.worker.item.h;
    var r := u.recs[h];
    BegunSays(c, r, h, u.trace);
    SetSays(c, u, CacheAck(r.(stage := Terminal), Failed), SendingFinal(false));
    var action := r.request.action;
    SetSays(c, u, r.(stage := AcceptedStage),
            if action.Status? then QueryingStatus else if action.Profile? then ApplyingProfile else TransitionReport);
  }

  lemma CommittedReplySays(c: Config, s: State, ok: bool)
    requires Inv(c, s) && Says(s) && Holding(s) && s.worker.at == SendingCommitted
    ensures Says(CommittedReply(s, ok))
  {
    HandHere(c, s);
    var h := s.worker.item.h;
    var u := AckReply(s, h, Committed, ok);
    AckSays(c, s, Committed, ok, SendingCommitted);
    AckReplyKeeps(c, s, h, Committed, ok);
    assert Move(u, SendingCommitted) == u;
    if ok {
      MoveSays(c, u, WaitingForHelper);
    } else {
      FailSays(c, u);
    }
  }

  lemma QueryReplySays(c: Config, s: State, ok: bool)
    requires Inv(c, s) && Says(s) && Holding(s)
    requires s.worker.at == QueryingStatus || s.worker.at == ApplyingProfile
    ensures Says(ActionReply(s, ok))
  {
    HandHere(c, s);
    var h := s.worker.item.h;
    var r := s.recs[h];
    if !ok {
      FailSays(c, s);
    } else if s.worker.at == QueryingStatus {
      PutSays(s, r, StatusReport, [HelperOk(h)]);
    } else {
      PutSays(s, r.(stage := Terminal), ProfileReport, [HelperOk(h)]);
    }
  }

  lemma ReportReplySays(c: Config, s: State, ok: bool)
    requires Inv(c, s) && Says(s) && Holding(s)
    requires s.worker.at == StatusReport || s.worker.at == ProfileReport || s.worker.at == TransitionReport
    ensures Says(ActionReply(s, ok))
  {
    HandHere(c, s);
    var r := s.recs[s.worker.item.h];
    if s.worker.at == StatusReport {
      SetSays(c, s, CacheAck(r.(stage := Terminal), Applied), SendingFinal(false));
    } else if s.worker.at == ProfileReport {
      SetSays(c, s, CacheAck(r, Applied), SendingFinal(false));
    } else {
      SetSays(c, s, CacheAck(r.(stage := CommittedStage), Committed), SendingCommitted);
    }
  }

  lemma InvokeSays(c: Config, s: State)
    requires Inv(c, s) && Says(s) && Holding(s) && s.worker.at == WaitingForHelper
    ensures Says(Invoke(s))
  {
    HandHere(c, s);
    var h := s.worker.item.h;
    PutSays(s, s.recs[h].(started := true), Executing, [Invoked(h)]);
  }

  lemma ExecutionReplySays(c: Config, s: State, ok: bool)
    requires Inv(c, s) && Says(s) && Holding(s) && s.worker.at == Executing
    ensures Says(ExecutionReply(c, s, ok))
  {
    HandHere(c, s);
    var h := s.worker.item.h;
    var r := s.recs[h];
    if ok {
      PutSays(s, CacheAck(r.(stage := Terminal), Applied), SendingFinal(r.request.action.Suspend?), [HelperOk(h)]);
    } else {
      DoneSays(c, s);
    }
  }

  lemma FinalReplySays(c: Config, s: State, wake: bool, ok: bool)
    requires Inv(c, s) && Says(s) && Holding(s) && (s.worker.at == SendingFinal(wake) || s.worker.at == LateFailure)
    ensures Says(FinalReply(c, s, wake, ok))
  {
    HandHere(c, s);
    var a := if s.recs[s.worker.item.h].ack == Some(Applied) then Applied else Failed;
    AckSays(c, s, a, ok, LateFailure);
    AckSays(c, s, a, ok, WakeReport);
    ReleaseSays(c, AckReply(s, s.worker.item.h, a, ok));
  }

  lemma FailureReportedSays(c: Config, s: State)
    requires Inv(c, s) && Says(s) && Holding(s) && s.worker.at == FailureReport
    ensures Says(FailureReported(c, s))
  {
    HandHere(c, s);
    var r := s.recs[s.worker.item.h];
    SetSays(c, s, r.(pending := true), Replaying(r.ack.value));
  }

  lemma WokenSays(c: Config, s: State, ok: bool)
    requires Inv(c, s) && Says(s) && Holding(s)
    ensures Says(Woken(c, s, ok))
  {
    var u := if ok then ReadyDelivered(s) else ScheduleReady(s);
    ReplayingTouchesNothing(c, s, u);
    ReplayAdds(c, u);
    var t := ReplayCallbacks(c, u);
    QuietSays(s, t);
    DoneSays(c, t);
  }

  lemma ResumeWorkSays(c: Config, s: State, ok: bool)
    requires Inv(c, s) && Says(s) && Holding(s)
    ensures Says(ResumeWork(c, s, ok))
  {
    hide Inv, Says;
    match s.worker.at
    case ReadyReport =>
    case Replaying(a) => ReplayReplySays(c, s, a, ok);
    case CheckingSupport => SupportReplySays(c, s, ok);
    case SendingAccepted => AcceptedReplySays(c, s, ok);
    case SendingCommitted => CommittedReplySays(c, s, ok);
    case WaitingForHelper => InvokeSays(c, s);
    case Executing => ExecutionReplySays(c, s, ok);
    case FailureReport => FailureReportedSays(c, s);
    case SendingFinal(wake) => FinalReplySays(c, s, wake, ok);
    case LateFailure => FinalReplySays(c, s, false, ok);
    case WakeReport => WakeReportSays(c, s);
    case WakeReady => WokenSays(c, s, ok);
    case QueryingStatus => QueryReplySays(c, s, ok);
    case ApplyingProfile => QueryReplySays(c, s, ok);
    case _ => ReportReplySays(c, s, ok);
  }

  lemma WakeReportSays(c: Config, s: State)
    requires Inv(c, s) && Says(s) && Holding(s) && s.worker.at == WakeReport
    ensures Says(Move(s.(readyPending := true, readyRetries := 0, readyTimer := false), WakeReady))
  {
    MoveSays(c, s, WakeReady);
  }

  lemma CrashSays(c: Config, s: State)
    requires Inv(c, s) && Says(s) && Holding(s) && AtHelper(s.worker.at)
    ensures Says(Resume(c, s, Crash))
  {
    HandHere(c, s);
    var r := s.recs[s.worker.item.h];
    if r.stage == CommittedStage {
      DoneSays(c, s);
    } else {
      SetSays(c, s, CacheAck(r.(stage := Terminal), Failed), LateFailure);
    }
  }

  lemma RecoverSays(c: Config, s: State)
    requires Inv(c, s) && Says(s) && Holding(s)
    ensures Says(Done(c, Recover(c, s, s.worker.item.h)))
  {
    HandHere(c, s);
    var h := s.worker.item.h;
    var r := s.recs[h];
    if !r.started && (r.stage == InFlight || r.stage == AcceptedStage) {
      SetSays(c, s, r.(stage := Queued), LateFailure);
      BackInQueue(c, s, h);
    } else {
      DoneSays(c, s);
    }
  }

  lemma BackInQueue(c: Config, s: State, h: Handle)
    requires Holding(s) && h == s.worker.item.h
    requires !s.recs[h].started && (s.recs[h].stage == InFlight || s.recs[h].stage == AcceptedStage)
    requires Says(Put(s, s.recs[h].(stage := Queued), LateFailure))
    ensures Says(Done(c, Recover(c, s, h)))
  {
    var u := Put(s, s.recs[h].(stage := Queued), LateFailure);
    var v := Requeue(c, u, h);
    RequeueQuiet(c, u, h);
    QuietSays(u, v);
    hide Says;
    assert v.recs == Recover(c, s, h).recs && v.queue == Recover(c, s, h).queue;
    LetGo(c, v, Recover(c, s, h));
  }

  lemma LetGo(c: Config, u: State, v: State)
    requires Says(u) && v == u.(worker := v.worker) && InRange(u.cache, |u.recs|)
    ensures Says(Done(c, v))
  {
    DoneSays(c, v);
  }

  lemma RequeueQuiet(c: Config, s: State, h: Handle)
    requires h < |s.recs|
    ensures var t := Requeue(c, s, h);
      Quiet(s, t) && t.trace == s.trace && |t.recs| == |s.recs| && t.cache == s.cache
  {
  }

  lemma ResumeSays(c: Config, s: State, a: Answer)
    requires Inv(c, s) && Says(s)
    ensures Says(Resume(c, s, a))
  {
    match s.worker
    case Idle =>
    case Busy(Ready, _) =>
      DoneSays(c, if a == Ok_ then ReadyDelivered(s) else if a == Stop then s else ScheduleReady(s));
    case Busy(Work(h, replay), at) =>
      if a == Stop {
        if replay || at == LateFailure {
          DoneSays(c, s);
        } else {
          RecoverSays(c, s);
        }
      } else if a == Crash && AtHelper(at) {
        CrashSays(c, s);
      } else {
        ResumeWorkSays(c, s, a == Ok_);
      }
  }

  // ---- taking an item ------------------------------------------------------------------------

  lemma TakeSays(c: Config, s: State)
    requires Inv(c, s) && Says(s)
    ensures Says(Take(c, s))
  {
    if s.worker.Idle? && s.queue != [] {
      match s.queue[0]
      case Ready => DoneSays(c, s.(queue := s.queue[1..], worker := Busy(Ready, ReadyReport), readyEnqueued := false));
      case Work(h, replay) => TakeWorkSays(c, s, h, replay);
    }
  }

  lemma TakeWorkSays(c: Config, s: State, h: Handle, replay: bool)
    requires Inv(c, s) && Says(s) && s.worker.Idle? && s.queue != [] && s.queue[0] == Work(h, replay)
    ensures Says(TakeWork(c, s, h, replay))
  {
    assert RecSays(s.recs[h], h, s.trace);
    assert RecOk(c, s.recs[h], h, multiset(s.queue)[Work(h, false)], h in s.cache, InHand(s, h), s.trace);
    var t := TakeWork(c, s, h, replay);
    var r := if replay then s.recs[h] else s.recs[h].(enqueued := false);
    if (!replay && r.stage == Queued) || r.ack.Some? {
      TakenSays(c, s, h, replay);
      assert s.trace + [] == s.trace;
      HandSays(s, t, h, []);
    } else {
      var u := s.(queue := s.queue[1..], recs := s.recs[h := r]);
      assert s.trace + [] == s.trace;
      HandSays(s, u, h, []);
      DoneSays(c, u);
      assert Done(c, u) == t;
    }
  }

  // The record is taken up, and t is what has become of the state.
  ghost predicate Taken(s: State, t: State, h: Handle) {
    && h < |s.recs| == |t.recs| && t.trace == s.trace && TouchesOnly(s, t, Some(h))
    && t.recs[h].request == s.recs[h].request && RecSays(t.recs[h], h, t.trace) && WorkerSays(t)
  }

  lemma TakenSays(c: Config, s: State, h: Handle, replay: bool)
    requires Closed(s) && s.worker.Idle? && s.queue != [] && s.queue[0] == Work(h, replay)
    requires RecSays(s.recs[h], h, s.trace) && (s.recs[h].stage == Queued ==> !s.recs[h].started)
    requires (!replay && s.recs[h].stage == Queued) || s.recs[h].ack.Some?
    ensures Taken(s, TakeWork(c, s, h, replay), h)
  {
    hide RecSays;
    if !replay && s.recs[h].stage == Queued {
      TakenNew(c, s, h);
    } else {
      var r := if replay then s.recs[h] else s.recs[h].(enqueued := false);
      SameSays(s.recs[h], r.(pending := true), h, s.trace);
    }
  }

  lemma TakenNew(c: Config, s: State, h: Handle)
    requires Closed(s) && s.worker.Idle? && s.queue != [] && s.queue[0] == Work(h, false)
    requires RecSays(s.recs[h], h, s.trace) && s.recs[h].stage == Queued && !s.recs[h].started
    ensures Taken(s, TakeWork(c, s, h, false), h)
  {
    hide RecSays, Begin, TouchesOnly;
    var r := s.recs[h].(enqueued := false, stage := InFlight);
    SameSays(s.recs[h], r, h, s.trace);
    BegunSays(c, r, h, s.trace);
    var u := s.(queue := s.queue[1..], worker := Busy(Work(h, false), SendingAccepted), recs := s.recs[h := r]);
    BeginTouches(c, u);
    var t := Begin(c, u);
    assert TakeWork(c, s, h, false) == t;
    assert t.recs == s.recs[h := t.recs[h]];
    OnlyOne(s, t, h);
  }

  lemma OnlyOne(s: State, t: State, h: Handle)
    requires h < |s.recs| == |t.recs| && t.recs == s.recs[h := t.recs[h]]
    ensures TouchesOnly(s, t, Some(h))
  {
  }

  lemma SameSays(r: Rec, q: Rec, h: Handle, trace: seq<Fact>)
    requires RecSays(r, h, trace) && q.request == r.request && q.ack == r.ack && q.started == r.started
    requires q.stage == r.stage || (r.stage == Queued && !r.started && q.stage != Terminal)
    ensures RecSays(q, h, trace)
  {
  }

  lemma BeginTouches(c: Config, s: State)
    requires Holding(s)
    ensures var t, r := Begin(c, s), s.recs[s.worker.item.h];
      && t.trace == s.trace && t.worker.Busy? && t.worker.item == s.worker.item
      && (t.worker.at == FailureReport || t.worker.at == CheckingSupport || t.worker.at == SendingAccepted)
      && |t.recs| == |s.recs| && t.recs == s.recs[s.worker.item.h := t.recs[s.worker.item.h]]
      && var q := t.recs[s.worker.item.h];
         q == r || q == CacheAck(r.(stage := Terminal), Failed) || q == CacheAck(r, Accepted)
  {
  }

  // However the work begins, nothing has been promised yet.
  lemma BegunSays(c: Config, r: Rec, h: Handle, trace: seq<Fact>)
    requires r.stage == InFlight && !r.started && RecSays(r, h, trace)
    ensures RecSays(CacheAck(r.(stage := Terminal), Failed), h, trace) && RecSays(CacheAck(r, Accepted), h, trace)
  {
  }

  lemma NextSays(c: Config, s: State, l: Label)
    requires Inv(c, s) && Says(s)
    ensures Says(Next(c, s, l))
  {
    if l.DoTake? {
      TakeSays(c, s);
    } else if l.DoResume? {
      ResumeSays(c, s, l.a);
    } else {
      OthersTouchNothing(c, s, l);
      OthersAdd(c, s, l);
      QuietSays(s, Next(c, s, l));
    }
  }

  lemma InvCloses(c: Config, s: State)
    requires Inv(c, s)
    ensures Closed(s)
  {
  }

  lemma StartSays()
    ensures Says(START)
  {
  }

  lemma {:induction false} RunSays(c: Config, states: seq<State>, labels: seq<Label>, i: nat)
    requires IsRun(c, states, labels) && i < |states|
    ensures Inv(c, states[i]) && Says(states[i])
  {
    hide Inv, Says, Next;
    Invariant(c, states, labels, i);
    if i == 0 {
      StartSays();
    } else {
      RunSays(c, states, labels, i - 1);
      InvCloses(c, states[i - 1]);
      NextSays(c, states[i - 1], labels[i - 1]);
      assert states[i - 1 + 1] == Step(c, states[i - 1], labels[i - 1]);
    }
  }

  // ---- the claims, over every run ----------------------------------------------------------------

  // An OK'd APPLIED has a success of the helper before it, and for a destructive request
  // the start that succeeded before that.
  lemma AppliedMeansDone(c: Config, states: seq<State>, labels: seq<Label>, n: nat, k: nat)
    requires IsRun(c, states, labels) && n < |states|
    requires k < |states[n].trace| && states[n].trace[k].AckOk? && states[n].trace[k].ack == Applied
    ensures var s := states[n]; var h := s.trace[k].h;
      h < |s.recs| && exists j ::
        0 <= j < k && s.trace[j] == HelperOk(h) && (Destructive(s.recs[h].request.action) ==> Invoked(h) in s.trace[..j])
  {
    RunSays(c, states, labels, n);
    var s := states[n];
    var h := s.trace[k].h;
    assert May(s.recs[h].request.action, s.trace[k], s.trace[..k]);
    var j :| 0 <= j < k && s.trace[..k][j] == HelperOk(h);
    assert s.trace[j] == HelperOk(h);
    assert May(s.recs[h].request.action, s.trace[j], s.trace[..j]);
  }

  // A record has one verdict, and FAILED never follows or precedes a start of the helper.
  lemma OneVerdict(c: Config, states: seq<State>, labels: seq<Label>, n: nat, h: Handle)
    requires IsRun(c, states, labels) && n < |states|
    ensures AckOk(h, Failed) in states[n].trace ==>
      AckOk(h, Applied) !in states[n].trace && Invoked(h) !in states[n].trace
    ensures Decided(h, states[n].trace) ==> h < |states[n].recs| && states[n].recs[h].stage == Terminal
  {
    RunSays(c, states, labels, n);
    var s := states[n];
    if h < |s.recs| {
      assert RecSays(s.recs[h], h, s.trace);
      assert RecOk(c, s.recs[h], h, multiset(s.queue)[Work(h, false)], h in s.cache, InHand(s, h), s.trace);
    }
  }

  // A destructive request is answered APPLIED as soon as its helper has succeeded.
  lemma SuccessIsApplied(c: Config, states: seq<State>, labels: seq<Label>, n: nat, h: Handle)
    requires IsRun(c, states, labels) && n < |states| && h < |states[n].recs|
    requires Destructive(states[n].recs[h].request.action) && HelperOk(h) in states[n].trace
    ensures states[n].recs[h].ack == Some(Applied) && states[n].recs[h].stage == Terminal
  {
    RunSays(c, states, labels, n);
    assert RecSays(states[n].recs[h], h, states[n].trace);
  }

  // ---- a request that is never told its verdict ---------------------------------------------------

  predicate AtProfileReport(s: State, h: Handle) {
    s.worker.Busy? && s.worker.item.Work? && s.worker.item.h == h && s.worker.at == ProfileReport
  }

  // Settled, told only ACCEPTED, and nothing owed.
  predicate Untold(s: State, h: Handle) {
    && h < |s.recs| && s.recs[h].stage == Terminal && s.recs[h].ack != Some(Applied) && s.recs[h].ack != Some(Failed)
    && !AtProfileReport(s, h)
  }

  // In every run only a profile that the helper has applied can be settled untold.
  lemma UntoldIsProfile(c: Config, states: seq<State>, labels: seq<Label>, n: nat, h: Handle)
    requires IsRun(c, states, labels) && n < |states| && Untold(states[n], h)
    ensures states[n].recs[h].request.action.Profile? && HelperOk(h) in states[n].trace
    ensures !Decided(h, states[n].trace)
  {
    RunSays(c, states, labels, n);
    assert RecSays(states[n].recs[h], h, states[n].trace);
  }

  // Only the worker's own record changes its ACK, and a settled one only behind the profile
  // report.
  lemma SettledStays(c: Config, s: State, l: Label, h: Handle)
    requires Inv(c, s) && h < |s.recs| && s.recs[h].stage == Terminal && !AtProfileReport(s, h)
    ensures Settled(Next(c, s, l), h, s.recs[h].ack)
  {
    hide Inv;
    InvCloses(c, s);
    if !l.DoTake? && !l.DoResume? {
      OthersTouchNothing(c, s, l);
      NotTouched(s, Next(c, s, l), h);
    } else if Held(s) != Some(h) {
      NextEffect(c, s, l);
      NewHand(c, s, l);
      NotHeld(s, Next(c, s, l), h);
    } else if l.DoTake? {
      if s.worker.Idle? { TakenSettled(c, s, h); }
    } else {
      ResumedSettled(c, s, l.a, h);
    }
  }

  // h is settled with this ACK, and not about to get another.
  predicate Settled(t: State, h: Handle, ack: Option<Ack>) {
    h < |t.recs| && t.recs[h].stage == Terminal && t.recs[h].ack == ack && !AtProfileReport(t, h)
  }

  lemma NotTouched(s: State, t: State, h: Handle)
    requires Quiet(s, t) && h < |s.recs| && s.recs[h].stage == Terminal && !AtProfileReport(s, h)
    ensures Settled(t, h, s.recs[h].ack)
  {
    assert SameCore(s.recs[h], t.recs[h]);
  }

  lemma NotHeld(s: State, t: State, h: Handle)
    requires TouchesOnly(s, t, Held(s)) && Held(s) != Some(h) && h < |s.recs| && s.recs[h].stage == Terminal
    requires t.worker == s.worker || (t.worker.Busy? && t.worker.item.Work? ==> Held(s) == Some(t.worker.item.h))
    ensures Settled(t, h, s.recs[h].ack)
  {
    assert SameCore(s.recs[h], t.recs[h]);
  }

  lemma TakenSettled(c: Config, s: State, h: Handle)
    requires Closed(s) && s.worker.Idle? && Held(s) == Some(h) && s.recs[h].stage == Terminal
    ensures Settled(Take(c, s), h, s.recs[h].ack)
  {
    hide Trimmed;
  }

  lemma ResumedSettled(c: Config, s: State, a: Answer, h: Handle)
    requires Inv(c, s) && Held(s) == Some(h) && s.recs[h].stage == Terminal && !AtProfileReport(s, h)
    ensures Settled(Resume(c, s, a), h, s.recs[h].ack)
  {
    if s.worker.Busy? {
      HeldPoints(c, s, h);
      hide Inv, Trimmed, ReplayCallbacks;
      if a == Stop || (a == Crash && AtHelper(s.worker.at)) {
      } else if s.worker.at == WakeReady {
        WokenSettled(c, s, a == Ok_, h);
      } else {
        WorkSettled(c, s, a == Ok_, h);
      }
    }
  }

  // Where the worker can be with a settled record.
  predicate LatePoint(at: Point) {
    at.Replaying? || at.FailureReport? || at.SendingFinal? || at.LateFailure? || at.WakeReport? || at.WakeReady?
  }

  lemma HeldPoints(c: Config, s: State, h: Handle)
    requires Inv(c, s) && s.worker.Busy? && Held(s) == Some(h) && s.recs[h].stage == Terminal && !AtProfileReport(s, h)
    ensures Closed(s) && LatePoint(s.worker.at)
  {
  }

  lemma WorkSettled(c: Config, s: State, ok: bool, h: Handle)
    requires Holding(s) && s.worker.item.h == h && s.recs[h].stage == Terminal
    requires LatePoint(s.worker.at) && s.worker.at != WakeReady
    ensures Settled(ResumeWork(c, s, ok), h, s.recs[h].ack)
  {
    hide Trimmed, ReplayCallbacks, AckReply, SupportReply, AcceptedReply, CommittedReply, ActionReply, Invoke, Woken;
    var last := if s.recs[h].ack == Some(Applied) then Applied else Failed;
    AckedSettled(s, last, ok, h);
    AckedSettled(s, if s.worker.at.Replaying? then s.worker.at.ack else last, ok, h);
  }

  lemma AckedSettled(s: State, a: Ack, ok: bool, h: Handle)
    requires Holding(s) && s.worker.item.h == h && s.recs[h].stage == Terminal
    ensures var t := AckReply(s, h, a, ok);
      && t.worker == s.worker && |t.recs| == |s.recs| && t.cache == s.cache
      && t.recs[h].stage == Terminal && t.recs[h].ack == s.recs[h].ack
  {
  }

  lemma WokenSettled(c: Config, s: State, ok: bool, h: Handle)
    requires Holding(s) && s.worker.item.h == h && s.recs[h].stage == Terminal
    ensures Settled(Woken(c, s, ok), h, s.recs[h].ack)
  {
    var u := if ok then ReadyDelivered(s) else ScheduleReady(s);
    ReplayHands(c, u);
    assert SameCore(u.recs[h], ReplayCallbacks(c, u).recs[h]);
  }

  // So a request settled untold stays untold, whatever comes.
  lemma {:induction false} UntoldForever(c: Config, states: seq<State>, labels: seq<Label>, i: nat, j: nat, h: Handle)
    requires IsRun(c, states, labels) && i <= j < |states| && Untold(states[i], h)
    ensures Untold(states[j], h) && !Decided(h, states[j].trace)
    decreases j
  {
    if i < j {
      UntoldForever(c, states, labels, i, j - 1, h);
      Invariant(c, states, labels, j - 1);
      SettledStays(c, states[j - 1], labels[j - 1], h);
      assert states[j - 1 + 1] == Step(c, states[j - 1], labels[j - 1]);
    }
    UntoldIsProfile(c, states, labels, j, h);
  }

  // A request becomes untold exactly when the link is lost, or the worker cancelled, while
  // the report of its applied profile is on the way.
  lemma UntoldExactly(c: Config, s: State, l: Label, h: Handle)
    requires Inv(c, s) && Says(s)
    ensures !Untold(s, h) && Untold(Next(c, s, l), h) <==> AtProfileReport(s, h) && l == DoResume(Stop)
  {
    var t := Next(c, s, l);
    if AtProfileReport(s, h) {
      CutOff(c, s, l, h);
    } else if h < |s.recs| && s.recs[h].stage == Terminal {
      SettledStays(c, s, l, h);
    } else if h < |s.recs| {
      BecomesSettled(c, s, l, h);
    } else if !l.DoTake? && !l.DoResume? {
      OthersAdd(c, s, l);
    } else {
      NoneAdded(c, s, l);
    }
  }

  lemma CutOff(c: Config, s: State, l: Label, h: Handle)
    requires Inv(c, s) && Says(s) && AtProfileReport(s, h)
    ensures Untold(Next(c, s, l), h) <==> l == DoResume(Stop)
  {
    HandHere(c, s);
    if !l.DoTake? && !l.DoResume? {
      OthersTouchNothing(c, s, l);
    }
  }

  lemma NoneAdded(c: Config, s: State, l: Label)
    requires Inv(c, s) && (l.DoTake? || l.DoResume?)
    ensures |Next(c, s, l).recs| == |s.recs|
  {
    InvCloses(c, s);
    hide Inv, Take, Resume;
    if l.DoTake? {
      TakeAddsNone(c, s);
    } else {
      ResumeAddsNone(c, s, l.a);
    }
  }

  lemma TakeAddsNone(c: Config, s: State)
    requires Closed(s)
    ensures |Take(c, s).recs| == |s.recs|
  {
    hide Trimmed;
  }

  lemma ResumeAddsNone(c: Config, s: State, a: Answer)
    requires Closed(s)
    ensures |Resume(c, s, a).recs| == |s.recs|
  {
    hide Trimmed, ResumeWork, Recover;
    if s.worker.Busy? && s.worker.item.Work? {
      RecoverTouches(c, s, s.worker.item.h);
      WorkAddsNone(c, s, a == Ok_);
    }
  }

  lemma WorkAddsNone(c: Config, s: State, ok: bool)
    requires Holding(s)
    ensures |ResumeWork(c, s, ok).recs| == |s.recs|
  {
    hide Trimmed, AckReply, Woken, CacheAck, ActionReply, SupportReply, ReplayReply, AcceptedReply, CommittedReply, FinalReply;
    RepliesAddNone(c, s, ok);
    WokenAddsNone(c, s, ok);
    ActionAddsNone(s, ok);
  }

  lemma RepliesAddNone(c: Config, s: State, ok: bool)
    requires Holding(s)
    ensures forall a :: |ReplayReply(c, s, a, ok).recs| == |s.recs|
    ensures |AcceptedReply(s, ok).recs| == |s.recs| && |CommittedReply(s, ok).recs| == |s.recs|
    ensures forall wake :: |FinalReply(c, s, wake, ok).recs| == |s.recs|
  {
    hide Trimmed, AckReply, CacheAck;
    AckedSame(s, ok);
  }

  lemma WokenAddsNone(c: Config, s: State, ok: bool)
    requires Holding(s)
    ensures |Woken(c, s, ok).recs| == |s.recs|
  {
    hide Trimmed, ReplayCallbacks;
    ReplayHands(c, if ok then ReadyDelivered(s) else ScheduleReady(s));
  }

  lemma ActionAddsNone(s: State, ok: bool)
    requires Holding(s)
    ensures |ActionReply(s, ok).recs| == |s.recs| && |SupportReply(s, ok).recs| == |s.recs|
  {
    hide Put;
    PutIs(s);
    PutIs(Note(s, HelperOk(s.worker.item.h)));
    PutIs(Note(s, SupportOk(s.worker.item.h)));
  }

  lemma PutIs(s: State)
    requires Holding(s)
    ensures forall r, at :: var t := Put(s, r, at);
      |t.recs| == |s.recs| && t.recs[s.worker.item.h] == r && t.worker == Busy(s.worker.item, at)
  {
  }

  // The answer to an ACK changes neither stage nor ACK of the record.
  lemma AckedSame(s: State, ok: bool)
    requires Holding(s)
    ensures forall a :: var h := s.worker.item.h; var t := AckReply(s, h, a, ok);
      && t.worker == s.worker && |t.recs| == |s.recs| && t.cache == s.cache
      && t.recs[h].stage == s.recs[h].stage && t.recs[h].ack == s.recs[h].ack && t.recs[h].request == s.recs[h].request
  {
  }

  // A record that is settled in this step has a verdict, or its profile report ahead.
  predicate Decides(t: State, h: Handle) {
    h < |t.recs| &&
    (t.recs[h].stage == Terminal ==> t.recs[h].ack == Some(Applied) || t.recs[h].ack == Some(Failed) || AtProfileReport(t, h))
  }

  lemma BecomesSettled(c: Config, s: State, l: Label, h: Handle)
    requires Inv(c, s) && h < |s.recs| && s.recs[h].stage != Terminal
    ensures Decides(Next(c, s, l), h)
  {
    if !l.DoTake? && !l.DoResume? {
      OthersTouchNothing(c, s, l);
      assert SameCore(s.recs[h], Next(c, s, l).recs[h]);
    } else if Held(s) != Some(h) {
      NextEffect(c, s, l);
      assert SameCore(s.recs[h], Next(c, s, l).recs[h]);
    } else if l.DoTake? {
      if s.worker.Idle? { TakenDecides(c, s, h); }
    } else {
      ResumedDecides(c, s, l.a, h);
    }
  }

  lemma TakenDecides(c: Config, s: State, h: Handle)
    requires Closed(s) && s.worker.Idle? && Held(s) == Some(h) && s.recs[h].stage != Terminal
    ensures Decides(Take(c, s), h)
  {
    hide Trimmed, Begin;
    if s.queue[0].replay || s.recs[h].stage != Queued {
      TakenAgain(c, s, h);
    } else {
      var u := s.(queue := s.queue[1..], worker := Busy(Work(h, false), SendingAccepted),
                  recs := s.recs[h := s.recs[h].(enqueued := false, stage := InFlight)]);
      BeginTouches(c, u);
      assert Take(c, s) == Begin(c, u);
    }
  }

  lemma TakenAgain(c: Config, s: State, h: Handle)
    requires Closed(s) && s.worker.Idle? && Held(s) == Some(h) && s.recs[h].stage != Terminal
    requires s.queue[0].replay || s.recs[h].stage != Queued
    ensures var t := Take(c, s); h < |t.recs| && t.recs[h].stage == s.recs[h].stage
  {
    hide Trimmed, Begin;
  }

  lemma ResumedDecides(c: Config, s: State, a: Answer, h: Handle)
    requires Inv(c, s) && Held(s) == Some(h) && h < |s.recs| && s.recs[h].stage != Terminal
    ensures Decides(Resume(c, s, a), h)
  {
    InvCloses(c, s);
    if s.worker.Busy? {
      NotLate(c, s, h);
      hide Inv, Trimmed, ResumeWork;
      if a == Stop || (a == Crash && AtHelper(s.worker.at)) {
      } else {
        WorkDecides(c, s, a == Ok_, h);
      }
    }
  }

  // Behind a verdict the record is settled.
  lemma NotLate(c: Config, s: State, h: Handle)
    requires Inv(c, s) && s.worker.Busy? && Held(s) == Some(h) && h < |s.recs| && s.recs[h].stage != Terminal
    ensures var at := s.worker.at;
      !at.SendingFinal? && !at.LateFailure? && !at.WakeReport? && !at.WakeReady? && !at.FailureReport? && !at.ProfileReport?
  {
  }

  lemma WorkDecides(c: Config, s: State, ok: bool, h: Handle)
    requires Holding(s) && s.worker.item.h == h && s.recs[h].stage != Terminal
    requires var at := s.worker.at;
      !at.SendingFinal? && !at.LateFailure? && !at.WakeReport? && !at.WakeReady? && !at.FailureReport? && !at.ProfileReport?
    ensures Decides(ResumeWork(c, s, ok), h)
  {
    hide Trimmed, Woken, FinalReply, FailureReported, ActionReply, ReplayReply, AcceptedReply, CommittedReply;
    hide Decides, SupportReply, Invoke, ExecutionReply, AckReply, Put, Done;
    RepliesDecide(c, s, ok, h);
    ActionDecides(s, ok, h);
    HelperDecides(c, s, ok, h);
  }

  lemma HelperDecides(c: Config, s: State, ok: bool, h: Handle)
    requires Holding(s) && s.worker.item.h == h && s.recs[h].stage != Terminal
    ensures Decides(s, h) && Decides(SupportReply(s, ok), h) && Decides(Invoke(s), h) && Decides(ExecutionReply(c, s, ok), h)
  {
    hide Trimmed, Put;
    PutIs(s);
    PutIs(Note(s, HelperOk(h)));
    PutIs(Note(s, SupportOk(h)));
  }

  lemma RepliesDecide(c: Config, s: State, ok: bool, h: Handle)
    requires Holding(s) && s.worker.item.h == h && s.recs[h].stage != Terminal
    ensures forall a :: Decides(ReplayReply(c, s, a, ok), h)
    ensures Decides(AcceptedReply(s, ok), h) && Decides(CommittedReply(s, ok), h)
  {
    hide Trimmed, AckReply;
    AckedSame(s, ok);
  }

  lemma ActionDecides(s: State, ok: bool, h: Handle)
    requires Holding(s) && s.worker.item.h == h && s.recs[h].stage != Terminal && !s.worker.at.ProfileReport?
    ensures Decides(ActionReply(s, ok), h)
  {
    hide Put;
    PutIs(s);
    PutIs(Note(s, HelperOk(h)));
  }
}
