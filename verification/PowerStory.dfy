// One request from beginning to end, when the link answers OK: what the device hears and
// what the helper does, for every action and every answer of the helper.

module PowerStory {
  import opened Bytes
  import opened Power
  import opened PowerSafety
  import opened PowerRuns
  import A = PowerAnswers

  // Whether the support check and the helper operation succeed.
  datatype Env = Env(support: bool, helper: bool)

  function Says(ok: bool): Answer {
    if ok then Ok_ else Refused
  }

  function Reply(env: Env, at: Point): Answer {
    match at
    case CheckingSupport => Says(env.support)
    case QueryingStatus => Says(env.helper)
    case ApplyingProfile => Says(env.helper)
    case Executing => Says(env.helper)
    case _ => Ok_
  }

  ghost function One(c: Config, s: State, env: Env): State
    requires Closed(s) && s.worker.Busy?
  {
    Next(c, s, DoResume(Reply(env, s.worker.at)))
  }

  // The worker goes on until it is idle, for n awaits at most.
  ghost function Drive(c: Config, s: State, env: Env, n: nat): State
    decreases n
  {
    if n == 0 || !Closed(s) || s.worker.Idle? then s else Drive(c, One(c, s, env), env, n - 1)
  }

  // No action takes more awaits than that.
  const MOST: nat := 10

  predicate Allowed(c: Config, a: Action, env: Env) {
    c.enabled && (a.Suspend? ==> c.allowSuspend) && (NeedsSupport(a) ==> env.support)
  }

  // What happens, in order: refused before it is accepted; accepted and done or refused;
  // or committed, started, and applied if the helper succeeded.
  function Told(c: Config, a: Action, h: Handle, env: Env): seq<Fact> {
    if !Allowed(c, a, env) then [AckOk(h, Failed)]
    else
      (if NeedsSupport(a) then [SupportOk(h)] else []) + [AckOk(h, Accepted)]
      + (if Destructive(a) then [AckOk(h, Committed), Invoked(h)] else [])
      + (if env.helper then [HelperOk(h), AckOk(h, Applied)] else if Destructive(a) then [] else [AckOk(h, Failed)])
  }

  // The record is settled and owes nothing; only a destructive helper that failed leaves
  // it committed and started, for an operator to look at.
  predicate Ended(c: Config, r: Rec, env: Env) {
    && !r.pending && r.timer.None?
    && if Allowed(c, r.request.action, env) && Destructive(r.request.action) && !env.helper
       then r.stage == CommittedStage && r.started && r.ack == Some(Committed)
       else r.stage == Terminal && r.ack == Some(if Allowed(c, r.request.action, env) && env.helper then Applied else Failed)
            && r.started == (Allowed(c, r.request.action, env) && Destructive(r.request.action))
  }

  // The worker holds h at this point, and this much has happened.
  ghost predicate Stands(s: State, h: Handle, at: Point, r: Rec, trace: seq<Fact>) {
    Closed(s) && s.worker == Busy(Work(h, false), at) && h < |s.recs| && s.recs[h] == r && s.trace == trace
  }

  // The story is over.
  ghost predicate Over(c: Config, s: State, h: Handle, env: Env, request: Request, trace: seq<Fact>) {
    s.worker.Idle? && s.trace == trace && h < |s.recs| && s.recs[h].request == request && Ended(c, s.recs[h], env)
  }

  lemma Steps(c: Config, s: State, env: Env, n: nat)
    requires n > 0 && Closed(s) && s.worker.Busy?
    ensures Drive(c, s, env, n) == Drive(c, One(c, s, env), env, n - 1)
  {
  }

  lemma Stops(c: Config, s: State, env: Env, n: nat)
    requires s.worker.Idle?
    ensures Drive(c, s, env, n) == s
  {
  }

  // ---- one await each ------------------------------------------------------------------------

  // An ACK line is OK'd.
  function Heard(r: Rec): Rec {
    r.(pending := false, retries := 0, timer := None)
  }

  lemma SupportStep(c: Config, s: State, env: Env, h: Handle, r: Rec, trace: seq<Fact>)
    requires Stands(s, h, CheckingSupport, r, trace)
    ensures if env.support
      then Stands(One(c, s, env), h, SendingAccepted, CacheAck(r, Accepted), trace + [SupportOk(h)])
      else Stands(One(c, s, env), h, FailureReport, CacheAck(r.(stage := Terminal), Failed), trace)
  {
  }

  lemma AcceptedStep(c: Config, s: State, env: Env, h: Handle, r: Rec, trace: seq<Fact>)
    requires Stands(s, h, SendingAccepted, r, trace) && r.ack == Some(Accepted)
    ensures var a := r.request.action;
      Stands(One(c, s, env), h,
             if a.Status? then QueryingStatus else if a.Profile? then ApplyingProfile else TransitionReport,
             Heard(r).(stage := AcceptedStage), trace + [AckOk(h, Accepted)])
  {
  }

  lemma HelperStep(c: Config, s: State, env: Env, h: Handle, r: Rec, trace: seq<Fact>)
    requires Stands(s, h, if r.request.action.Status? then QueryingStatus else ApplyingProfile, r, trace)
    ensures if env.helper
      then Stands(One(c, s, env), h, if r.request.action.Status? then StatusReport else ProfileReport,
                  if r.request.action.Status? then r else r.(stage := Terminal), trace + [HelperOk(h)])
      else Stands(One(c, s, env), h, FailureReport, CacheAck(r.(stage := Terminal), Failed), trace)
  {
  }

  lemma ReportStep(c: Config, s: State, env: Env, h: Handle, r: Rec, trace: seq<Fact>)
    requires Stands(s, h, StatusReport, r, trace) || (Stands(s, h, ProfileReport, r, trace) && r.stage == Terminal)
    ensures Stands(One(c, s, env), h, SendingFinal(false), CacheAck(r.(stage := Terminal), Applied), trace)
  {
  }

  lemma TransitionStep(c: Config, s: State, env: Env, h: Handle, r: Rec, trace: seq<Fact>)
    requires Stands(s, h, TransitionReport, r, trace)
    ensures Stands(One(c, s, env), h, SendingCommitted, CacheAck(r.(stage := CommittedStage), Committed), trace)
  {
  }

  lemma CommittedStep(c: Config, s: State, env: Env, h: Handle, r: Rec, trace: seq<Fact>)
    requires Stands(s, h, SendingCommitted, r, trace) && r.ack == Some(Committed)
    ensures Stands(One(c, s, env), h, WaitingForHelper, Heard(r), trace + [AckOk(h, Committed)])
  {
  }

  lemma InvokeStep(c: Config, s: State, env: Env, h: Handle, r: Rec, trace: seq<Fact>)
    requires Stands(s, h, WaitingForHelper, r, trace)
    ensures Stands(One(c, s, env), h, Executing, r.(started := true), trace + [Invoked(h)])
  {
  }

  lemma DoneStep(c: Config, s: State, h: Handle, trace: seq<Fact>)
    requires InRange(s.cache, |s.recs|) && s.trace == trace && h < |s.recs|
    ensures var t := Done(c, s); t.worker.Idle? && t.trace == trace && t.recs == s.recs
  {
  }

  lemma ExecutedStep(c: Config, s: State, env: Env, h: Handle, r: Rec, trace: seq<Fact>)
    requires Stands(s, h, Executing, r, trace)
    ensures var t := One(c, s, env);
      if env.helper
      then Stands(t, h, SendingFinal(r.request.action.Suspend?), CacheAck(r.(stage := Terminal), Applied), trace + [HelperOk(h)])
      else t.worker.Idle? && t.trace == trace && h < |t.recs| && t.recs[h] == r
  {
  }

  lemma FailureStep(c: Config, s: State, env: Env, h: Handle, r: Rec, trace: seq<Fact>)
    requires Stands(s, h, FailureReport, r, trace) && r.ack == Some(Failed)
    ensures Stands(One(c, s, env), h, Replaying(Failed), r.(pending := true), trace)
  {
  }

  lemma VerdictStep(c: Config, s: State, env: Env, h: Handle, a: Ack, r: Rec, trace: seq<Fact>)
    requires r.ack == Some(a) && r.stage == Terminal
    requires Stands(s, h, SendingFinal(false), r, trace) || Stands(s, h, Replaying(a), r, trace)
    requires a == Applied || a == Failed
    ensures var t := One(c, s, env);
      t.worker.Idle? && t.trace == trace + [AckOk(h, a)] && h < |t.recs| && t.recs[h] == Heard(r)
  {
  }

  lemma WakeStep(c: Config, s: State, env: Env, h: Handle, r: Rec, trace: seq<Fact>)
    requires Stands(s, h, SendingFinal(true), r, trace) && r.ack == Some(Applied)
    ensures Stands(One(c, s, env), h, WakeReport, Heard(r), trace + [AckOk(h, Applied)])
  {
  }

  lemma ReportReadyStep(c: Config, s: State, env: Env, h: Handle, r: Rec, trace: seq<Fact>)
    requires Stands(s, h, WakeReport, r, trace)
    ensures Stands(One(c, s, env), h, WakeReady, r, trace)
  {
  }

  lemma {:induction false} RequeueAllSpares(c: Config, s: State, cache: seq<Handle>, h: Handle)
    requires InRange(cache, |s.recs|) && h < |s.recs| && s.recs[h].stage != Queued
    ensures RequeueAll(c, s, cache).recs[h] == s.recs[h]
    decreases |cache|
  {
    if cache != [] {
      RequeueAllSpares(c, Requeue(c, s, cache[|cache| - 1]), cache[..|cache| - 1], h);
    }
  }

  lemma WakeReadyStep(c: Config, s: State, env: Env, h: Handle, r: Rec, trace: seq<Fact>)
    requires Stands(s, h, WakeReady, r, trace) && r.stage != Queued
    ensures var t := One(c, s, env); t.worker.Idle? && t.trace == trace && h < |t.recs| && t.recs[h] == r
  {
    var u := ReadyDelivered(s);
    RequeueAllSpares(c, u, u.cache, h);
    ReplayQuiet(c, u);
    DoneStep(c, ReplayCallbacks(c, u), h, trace);
  }

  // ---- the stretches of the story ---------------------------------------------------------------

  lemma FailureTold(c: Config, s: State, env: Env, h: Handle, r: Rec, trace: seq<Fact>, n: nat)
    requires Stands(s, h, FailureReport, r, trace) && r.ack == Some(Failed) && r.stage == Terminal && n >= 2
    requires !r.started && (Allowed(c, r.request.action, env) ==> !env.helper && !Destructive(r.request.action))
    ensures Over(c, Drive(c, s, env, n), h, env, r.request, trace + [AckOk(h, Failed)])
  {
    hide One, Ended;
    var t := One(c, s, env);
    Steps(c, s, env, n);
    FailureStep(c, s, env, h, r, trace);
    Steps(c, t, env, n - 1);
    VerdictStep(c, t, env, h, Failed, r.(pending := true), trace);
    Stops(c, One(c, t, env), env, n - 2);
    EndsFailed(c, Heard(r.(pending := true)), env);
  }

  lemma EndsFailed(c: Config, r: Rec, env: Env)
    requires r.ack == Some(Failed) && r.stage == Terminal && !r.started && !r.pending && r.timer.None?
    requires Allowed(c, r.request.action, env) ==> !env.helper && !Destructive(r.request.action)
    ensures Ended(c, r, env)
  {
  }

  lemma AppliedTold(c: Config, s: State, env: Env, h: Handle, r: Rec, trace: seq<Fact>, n: nat)
    requires Stands(s, h, SendingFinal(r.request.action.Suspend?), r, trace) && n >= 3
    requires r.ack == Some(Applied) && r.stage == Terminal && Allowed(c, r.request.action, env) && env.helper
    requires r.started == Destructive(r.request.action)
    ensures Over(c, Drive(c, s, env, n), h, env, r.request, trace + [AckOk(h, Applied)])
  {
    hide One;
    Steps(c, s, env, n);
    var t := One(c, s, env);
    if r.request.action.Suspend? {
      WakeStep(c, s, env, h, r, trace);
      Steps(c, t, env, n - 1);
      ReportReadyStep(c, t, env, h, Heard(r), trace + [AckOk(h, Applied)]);
      var u := One(c, t, env);
      Steps(c, u, env, n - 2);
      WakeReadyStep(c, u, env, h, Heard(r), trace + [AckOk(h, Applied)]);
      Stops(c, One(c, u, env), env, n - 3);
    } else {
      VerdictStep(c, s, env, h, Applied, r, trace);
      Stops(c, t, env, n - 1);
    }
  }

  // Status and profile, once accepted.
  lemma HelperTold(c: Config, s: State, env: Env, h: Handle, r: Rec, trace: seq<Fact>, n: nat)
    requires Stands(s, h, if r.request.action.Status? then QueryingStatus else ApplyingProfile, r, trace) && n >= 5
    requires !Destructive(r.request.action) && Allowed(c, r.request.action, env) && !r.started
    ensures Over(c, Drive(c, s, env, n), h, env, r.request,
                 trace + if env.helper then [HelperOk(h), AckOk(h, Applied)] else [AckOk(h, Failed)])
  {
    hide One;
    Steps(c, s, env, n);
    HelperStep(c, s, env, h, r, trace);
    var t := One(c, s, env);
    if env.helper {
      var q := if r.request.action.Status? then r else r.(stage := Terminal);
      Steps(c, t, env, n - 1);
      ReportStep(c, t, env, h, q, trace + [HelperOk(h)]);
      AppliedTold(c, One(c, t, env), env, h, CacheAck(q.(stage := Terminal), Applied), trace + [HelperOk(h)], n - 2);
      assert trace + [HelperOk(h)] + [AckOk(h, Applied)] == trace + [HelperOk(h), AckOk(h, Applied)];
    } else {
      FailureTold(c, t, env, h, CacheAck(r.(stage := Terminal), Failed), trace, n - 1);
    }
  }

  // A destructive action, once accepted: committed, then started.
  lemma CommittedTold(c: Config, s: State, env: Env, h: Handle, r: Rec, trace: seq<Fact>, n: nat)
    requires Stands(s, h, TransitionReport, r, trace) && n >= 7
    requires Destructive(r.request.action) && Allowed(c, r.request.action, env) && !r.started
    ensures Over(c, Drive(c, s, env, n), h, env, r.request,
                 trace + [AckOk(h, Committed), Invoked(h)] + if env.helper then [HelperOk(h), AckOk(h, Applied)] else [])
  {
    hide One;
    var q := CacheAck(r.(stage := CommittedStage), Committed);
    Steps(c, s, env, n);
    TransitionStep(c, s, env, h, r, trace);
    var t := One(c, s, env);
    Steps(c, t, env, n - 1);
    CommittedStep(c, t, env, h, q, trace);
    var u := One(c, t, env);
    Steps(c, u, env, n - 2);
    InvokeStep(c, u, env, h, Heard(q), trace + [AckOk(h, Committed)]);
    assert trace + [AckOk(h, Committed)] + [Invoked(h)] == trace + [AckOk(h, Committed), Invoked(h)];
    ExecutedTold(c, One(c, u, env), env, h, Heard(q).(started := true), trace + [AckOk(h, Committed), Invoked(h)], n - 3);
  }

  lemma ExecutedTold(c: Config, s: State, env: Env, h: Handle, r: Rec, trace: seq<Fact>, n: nat)
    requires Stands(s, h, Executing, r, trace) && n >= 4
    requires Destructive(r.request.action) && Allowed(c, r.request.action, env)
    requires r.started && r.stage == CommittedStage && r.ack == Some(Committed) && !r.pending && r.timer.None?
    ensures Over(c, Drive(c, s, env, n), h, env, r.request,
                 trace + if env.helper then [HelperOk(h), AckOk(h, Applied)] else [])
  {
    hide One;
    Steps(c, s, env, n);
    ExecutedStep(c, s, env, h, r, trace);
    var t := One(c, s, env);
    if env.helper {
      AppliedTold(c, t, env, h, CacheAck(r.(stage := Terminal), Applied), trace + [HelperOk(h)], n - 1);
      assert trace + [HelperOk(h)] + [AckOk(h, Applied)] == trace + [HelperOk(h), AckOk(h, Applied)];
    } else {
      Stops(c, t, env, n - 1);
      assert trace + [] == trace;
    }
  }

  lemma AcceptedTold(c: Config, s: State, env: Env, h: Handle, r: Rec, trace: seq<Fact>, n: nat)
    requires Stands(s, h, SendingAccepted, r, trace) && n >= 8
    requires Allowed(c, r.request.action, env) && r.ack == Some(Accepted) && !r.started
    ensures Over(c, Drive(c, s, env, n), h, env, r.request,
                 trace + [AckOk(h, Accepted)] + (if Destructive(r.request.action) then [AckOk(h, Committed), Invoked(h)] else [])
                 + if env.helper then [HelperOk(h), AckOk(h, Applied)]
                   else if Destructive(r.request.action) then [] else [AckOk(h, Failed)])
  {
    hide One;
    Steps(c, s, env, n);
    AcceptedStep(c, s, env, h, r, trace);
    var t, q, told := One(c, s, env), Heard(r).(stage := AcceptedStage), trace + [AckOk(h, Accepted)];
    if Destructive(r.request.action) {
      CommittedTold(c, t, env, h, q, told, n - 1);
    } else {
      HelperTold(c, t, env, h, q, told, n - 1);
      assert told + [] == told;
    }
  }

  // ---- the whole story -----------------------------------------------------------------------------

  // The event comes in and the worker takes it up.
  ghost function Handed(c: Config, s: State, e: Event): State {
    Step(c, Step(c, s, DoSubmit(e)), DoTake)
  }

  // The request is new, the worker idle and there is room.
  predicate Open(c: Config, s: State, request: Request)
    requires InRange(s.cache, |s.recs|)
  {
    s.worker.Idle? && s.queue == [] && c.queueSize > 0 && Find(s.recs, s.cache, request.id) == |s.cache|
  }

  lemma Enters(c: Config, s: State, request: Request)
    requires Closed(s) && Open(c, s, request)
    ensures var t, h := Submit(c, s, Parsed(request)), |s.recs|;
      && Closed(t) && t.worker.Idle? && t.queue == [Work(h, false)] && t.trace == s.trace
      && h < |t.recs| && t.recs[h] == NewRec(request).(enqueued := true)
  {
    hide Trimmed;
    var s1 := if RetiresReady(request.action) then ReadyDelivered(s) else s;
    assert Submit(c, s, Parsed(request)) == Fresh(c, s1, request);
  }

  lemma Taken(c: Config, s: State, h: Handle, request: Request)
    requires Closed(s) && s.worker.Idle? && s.queue == [Work(h, false)] && h < |s.recs|
    requires s.recs[h] == NewRec(request).(enqueued := true)
    ensures var u := Take(c, s);
      var r, a := NewRec(request).(stage := InFlight), request.action;
      if !c.enabled || (a.Suspend? && !c.allowSuspend)
      then Stands(u, h, FailureReport, CacheAck(r.(stage := Terminal), Failed), s.trace)
      else if NeedsSupport(a) then Stands(u, h, CheckingSupport, r, s.trace)
      else Stands(u, h, SendingAccepted, CacheAck(r, Accepted), s.trace)
  {
  }

  // Every new request is told exactly its story, and ends as it should.
  lemma WholeStory(c: Config, s: State, request: Request, env: Env, n: nat)
    requires Inv(c, s) && Open(c, s, request) && n >= MOST
    ensures Over(c, Drive(c, Handed(c, s, Parsed(request)), env, n), |s.recs|, env, request,
                 s.trace + Told(c, request.action, |s.recs|, env))
  {
    hide Submit, Open;
    var t := Submit(c, s, Parsed(request));
    Enters(c, s, request);
    Taken(c, t, |s.recs|, request);
    TakenTold(c, Take(c, t), |s.recs|, request, env, s.trace, n);
  }

  lemma TakenTold(c: Config, u: State, h: Handle, request: Request, env: Env, trace: seq<Fact>, n: nat)
    requires n >= MOST
    requires var r, a := NewRec(request).(stage := InFlight), request.action;
      if !c.enabled || (a.Suspend? && !c.allowSuspend)
      then Stands(u, h, FailureReport, CacheAck(r.(stage := Terminal), Failed), trace)
      else if NeedsSupport(a) then Stands(u, h, CheckingSupport, r, trace)
      else Stands(u, h, SendingAccepted, CacheAck(r, Accepted), trace)
    ensures Over(c, Drive(c, u, env, n), h, env, request, trace + Told(c, request.action, h, env))
  {
    hide Drive, Over;
    var r, a := NewRec(request).(stage := InFlight), request.action;
    if !c.enabled || (a.Suspend? && !c.allowSuspend) {
      FailureTold(c, u, env, h, CacheAck(r.(stage := Terminal), Failed), trace, n);
    } else if NeedsSupport(a) {
      CheckedTold(c, u, h, r, env, trace, n);
    } else {
      AcceptedTold(c, u, env, h, CacheAck(r, Accepted), trace, n);
      ToldFlat(trace, c, a, h, env);
      assert trace + [] == trace;
    }
  }

  lemma CheckedTold(c: Config, u: State, h: Handle, r: Rec, env: Env, trace: seq<Fact>, n: nat)
    requires n >= MOST && c.enabled && (r.request.action.Suspend? ==> c.allowSuspend) && NeedsSupport(r.request.action)
    requires Stands(u, h, CheckingSupport, r, trace) && r.stage == InFlight && !r.started
    ensures Over(c, Drive(c, u, env, n), h, env, r.request, trace + Told(c, r.request.action, h, env))
  {
    hide Over, One;
    Steps(c, u, env, n);
    SupportStep(c, u, env, h, r, trace);
    var t := One(c, u, env);
    if env.support {
      AcceptedTold(c, t, env, h, CacheAck(r, Accepted), trace + [SupportOk(h)], n - 1);
      ToldFlat(trace, c, r.request.action, h, env);
    } else {
      FailureTold(c, t, env, h, CacheAck(r.(stage := Terminal), Failed), trace, n - 1);
    }
  }

  lemma ToldFlat(trace: seq<Fact>, c: Config, a: Action, h: Handle, env: Env)
    requires Allowed(c, a, env)
    ensures trace + Told(c, a, h, env) ==
      trace + (if NeedsSupport(a) then [SupportOk(h)] else []) + [AckOk(h, Accepted)]
      + (if Destructive(a) then [AckOk(h, Committed), Invoked(h)] else [])
      + (if env.helper then [HelperOk(h), AckOk(h, Applied)] else if Destructive(a) then [] else [AckOk(h, Failed)])
  {
  }

  // ---- requests that are known, or cannot be read ------------------------------------------------

  // A duplicate finds its record at place i of the cache.
  predicate Repeats(c: Config, s: State, request: Request, h: Handle)
    requires InRange(s.cache, |s.recs|)
  {
    && s.worker.Idle? && s.queue == [] && c.queueSize > 0
    && var i := Find(s.recs, s.cache, request.id); i < |s.cache| && s.cache[i] == h
  }

  // The worker sends the cached ACK of h again.
  ghost predicate Repeating(s: State, h: Handle, a: Ack, r: Rec, trace: seq<Fact>) {
    Closed(s) && s.worker == Busy(Work(h, true), Replaying(a)) && h < |s.recs| && s.recs[h] == r && s.trace == trace
  }

  lemma DuplicateTaken(c: Config, s: State, request: Request, h: Handle)
    requires Closed(s) && h < |s.recs| && Repeats(c, s, request, h) && s.recs[h].stage != Queued && s.recs[h].ack.Some?
    ensures Repeating(Handed(c, s, Parsed(request)), h, s.recs[h].ack.value, s.recs[h].(pending := true), s.trace)
  {
    hide Trimmed;
    var s1 := if RetiresReady(request.action) then ReadyDelivered(s) else s;
    var i := Find(s.recs, s.cache, request.id);
    assert Submit(c, s, Parsed(request)) == Known(c, s1, i);
    var t := Known(c, s1, i);
    assert t.queue == [Work(h, true)] && t.recs == s.recs;
  }

  lemma RepeatStep(c: Config, s: State, env: Env, h: Handle, a: Ack, r: Rec, trace: seq<Fact>)
    requires Repeating(s, h, a, r, trace) && r.ack == Some(a)
    ensures var t := One(c, s, env);
      && t.trace == trace + [AckOk(h, a)] && h < |t.recs| && t.recs[h] == Heard(r)
      && if r.stage == CommittedStage && !r.started
         then Closed(t) && t.worker == Busy(Work(h, true), WaitingForHelper) else t.worker.Idle?
  {
  }

  lemma RepeatInvokes(c: Config, s: State, env: Env, h: Handle, r: Rec, trace: seq<Fact>)
    requires Closed(s) && s.worker == Busy(Work(h, true), WaitingForHelper) && h < |s.recs| && s.recs[h] == r && s.trace == trace
    ensures var t := One(c, s, env);
      && Closed(t) && t.worker == Busy(Work(h, true), Executing) && h < |t.recs| && t.recs[h] == r.(started := true)
      && t.trace == trace + [Invoked(h)]
  {
  }

  // A duplicate of a settled request, or of an uncertain one, has the cached ACK sent again
  // and starts nothing.
  lemma DuplicateStory(c: Config, s: State, request: Request, h: Handle, env: Env, n: nat)
    requires Inv(c, s) && h < |s.recs| && Repeats(c, s, request, h) && s.recs[h].ack.Some? && n > 0
    requires s.recs[h].stage == Terminal || (s.recs[h].stage == CommittedStage && s.recs[h].started)
    ensures var t := Drive(c, Handed(c, s, Parsed(request)), env, n);
      && t.worker.Idle? && t.trace == s.trace + [AckOk(h, s.recs[h].ack.value)]
      && h < |t.recs| && t.recs[h] == Heard(s.recs[h].(pending := true))
  {
    hide One, Handed;
    DuplicateTaken(c, s, request, h);
    var u := Handed(c, s, Parsed(request));
    RepeatStep(c, u, env, h, s.recs[h].ack.value, s.recs[h].(pending := true), s.trace);
    Steps(c, u, env, n);
    Stops(c, One(c, u, env), env, n - 1);
  }

  // A duplicate of a committed request that was not started repeats COMMITTED, and once
  // that is OK'd the helper is started.
  lemma CommittedDuplicate(c: Config, s: State, request: Request, h: Handle, env: Env)
    requires Inv(c, s) && h < |s.recs| && Repeats(c, s, request, h)
    requires s.recs[h].stage == CommittedStage && !s.recs[h].started && s.recs[h].ack == Some(Committed)
    ensures var t := Drive(c, Handed(c, s, Parsed(request)), env, 2);
      t.trace == s.trace + [AckOk(h, Committed), Invoked(h)] && t.worker == Busy(Work(h, true), Executing)
  {
    hide One, Handed;
    DuplicateTaken(c, s, request, h);
    var u := Handed(c, s, Parsed(request));
    var r := s.recs[h].(pending := true);
    RepeatStep(c, u, env, h, Committed, r, s.trace);
    RepeatInvokes(c, One(c, u, env), env, h, Heard(r), s.trace + [AckOk(h, Committed)]);
    Steps(c, u, env, 2);
    Steps(c, One(c, u, env), env, 1);
    assert s.trace + [AckOk(h, Committed)] + [Invoked(h)] == s.trace + [AckOk(h, Committed), Invoked(h)];
  }

  // A malformed event with a usable ID is told FAILED, by a record of its own.
  lemma MalformedStory(c: Config, s: State, id: Id, env: Env, n: nat)
    requires Inv(c, s) && s.worker.Idle? && s.queue == [] && c.queueSize > 0 && n > 0
    ensures var t := Drive(c, Handed(c, s, Malformed(Some(id))), env, n);
      t.worker.Idle? && t.trace == s.trace + [AckOk(|s.recs|, Failed)]
  {
    var h := |s.recs|;
    var r := Rec(Request(id, Status), Some(Failed), true, 0, None, false, Terminal, false);
    hide One, Handed;
    MalformedTaken(c, s, id);
    var u := Handed(c, s, Malformed(Some(id)));
    RepeatStep(c, u, env, h, Failed, r, s.trace);
    Steps(c, u, env, n);
    Stops(c, One(c, u, env), env, n - 1);
  }

  lemma MalformedTaken(c: Config, s: State, id: Id)
    requires Closed(s) && s.worker.Idle? && s.queue == [] && c.queueSize > 0
    ensures Repeating(Handed(c, s, Malformed(Some(id))), |s.recs|, Failed,
                      Rec(Request(id, Status), Some(Failed), true, 0, None, false, Terminal, false), s.trace)
  {
    hide Trimmed;
    var t := Submit(c, s, Malformed(Some(id)));
    assert t.queue == [Work(|s.recs|, true)] && t.queue[0] == Work(|s.recs|, true);
  }

  // ---- answers that do not come -------------------------------------------------------------------

  // A verdict that was not OK'd is planned again, up to the budget, and when its timer runs
  // out and there is room it is sent again.
  lemma RefusedVerdictIsRetried(c: Config, s: State, h: Handle, r: Rec, trace: seq<Fact>)
    requires Stands(s, h, SendingFinal(false), r, trace) && !s.closed && r.pending && r.timer.None? && r.retries < ACK_RETRIES
    requires r.ack == Some(Applied) || r.ack == Some(Failed)
    ensures var t := Next(c, s, DoResume(Refused));
      && Closed(t) && t.worker.Idle? && t.trace == trace && h < |t.recs|
      && t.recs[h] == r.(timer := r.ack, retries := r.retries + 1)
      && (!Full(c, t) ==> AckTimer(c, t, h).queue == t.queue + [Work(h, true)])
  {
    hide Trimmed;
  }

  lemma {:induction false} RequeueAllFlags(c: Config, s: State, cache: seq<Handle>)
    requires InRange(cache, |s.recs|)
    ensures RequeueAll(c, s, cache).readyPending == s.readyPending
    decreases |cache|
  {
    if cache != [] {
      RequeueAllFlags(c, Requeue(c, s, cache[|cache| - 1]), cache[..|cache| - 1]);
    }
  }

  lemma {:induction false} ReplayAllFlags(c: Config, s: State, cache: seq<Handle>)
    requires InRange(cache, |s.recs|)
    ensures ReplayAll(c, s, cache).readyPending == s.readyPending
    decreases |cache|
  {
    if cache != [] {
      var h := cache[|cache| - 1];
      ReplayAllFlags(c, if OwesCallback(s.recs[h]) then Enqueue(c, s, Work(h, true)) else s, cache[..|cache| - 1]);
    }
  }

  lemma ReplayFlags(c: Config, s: State)
    requires InRange(s.cache, |s.recs|)
    ensures ReplayCallbacks(c, s).readyPending == s.readyPending
  {
    RequeueAllFlags(c, s, s.cache);
    ReplayAllFlags(c, RequeueAll(c, s, s.cache), s.cache);
  }

  lemma SubmitFlags(c: Config, s: State, e: Event)
    requires Closed(s) && (e.Parsed? ==> !RetiresReady(e.request.action))
    ensures Submit(c, s, e).readyPending == s.readyPending
  {
    hide Trimmed, Find;
  }

  lemma TakeFlags(c: Config, s: State)
    requires Closed(s)
    ensures Take(c, s).readyPending == s.readyPending
  {
    hide Trimmed;
  }

  lemma WokenFlags(c: Config, s: State)
    requires Holding(s) && s.readyPending
    ensures Woken(c, s, false).readyPending
  {
    hide Trimmed, ReplayCallbacks;
    ReplayFlags(c, ScheduleReady(s));
  }

  lemma AckFlags(c: Config, s: State, a: Ack, ok: bool)
    requires Holding(s)
    ensures AckReply(s, s.worker.item.h, a, ok).readyPending == s.readyPending
    ensures ReplayReply(c, s, a, ok).readyPending == s.readyPending
    ensures AcceptedReply(s, ok).readyPending == s.readyPending
    ensures CommittedReply(s, ok).readyPending == s.readyPending
  {
    hide Trimmed;
  }

  lemma WorkFlags(c: Config, s: State, ok: bool)
    requires Holding(s) && s.readyPending
    ensures (s.worker.at == WakeReady && ok) || ResumeWork(c, s, ok).readyPending
  {
    hide Trimmed, ReplayCallbacks, AckReply, ReplayReply, AcceptedReply, CommittedReply, Woken;
    WokenFlags(c, s);
    match s.worker.at
    case Replaying(a) => AckFlags(c, s, a, ok);
    case SendingAccepted => AckFlags(c, s, Accepted, ok);
    case SendingCommitted => AckFlags(c, s, Committed, ok);
    case _ => AckFlags(c, s, if s.recs[s.worker.item.h].ack == Some(Applied) then Applied else Failed, ok);
  }

  lemma ResumeFlags(c: Config, s: State, a: Answer)
    requires Closed(s) && s.readyPending
    ensures (a == Ok_ && s.worker.Busy? && (s.worker.item.Ready? || s.worker.at == WakeReady))
      || Resume(c, s, a).readyPending
  {
    hide Trimmed, ResumeWork;
    if s.worker.Busy? && s.worker.item.Work? {
      WorkFlags(c, s, a == Ok_);
    }
  }

  // Readiness is pending until its report is OK'd or the device asks for such an action.
  lemma ReadyUntilHeard(c: Config, s: State, l: Label)
    requires Closed(s) && s.readyPending && !Next(c, s, l).readyPending
    ensures (l == DoResume(Ok_) && s.worker.Busy? && (s.worker.item.Ready? || s.worker.at == WakeReady))
      || l == DoReadyAnswer(true) || (l.DoSubmit? && l.e.Parsed? && RetiresReady(l.e.request.action))
  {
    hide Trimmed, ReplayCallbacks, Take, Submit, Resume;
    match l
    case DoSubmit(e) => if !(e.Parsed? && RetiresReady(e.request.action)) { SubmitFlags(c, s, e); }
    case DoTake => TakeFlags(c, s);
    case DoResume(a) => ResumeFlags(c, s, a);
    case _ =>
      ReplayFlags(c, QueueReadyNow(c, s));
      ReplayFlags(c, ScheduleReady(s));
  }

  // A profile request goes well until its report, and there the link is lost: the record is
  // settled with only ACCEPTED told, owes nothing, and nothing will ever repeat more.
  lemma ProfileVerdictLost(c: Config, s: State, request: Request, n: nat)
    requires Inv(c, s) && Open(c, s, request) && c.enabled && request.action.Profile? && n == 2
    ensures var h, u := |s.recs|, Drive(c, Handed(c, s, Parsed(request)), Env(true, true), n);
      var t := Step(c, u, DoResume(Stop));
      && t.worker.Idle? && t.trace == s.trace + [AckOk(h, Accepted), HelperOk(h)] && A.Untold(t, h)
      && !OwesCallback(t.recs[h]) && Evictable(t.recs[h])
  {
    var h, env := |s.recs|, Env(true, true);
    var r := CacheAck(NewRec(request).(stage := InFlight), Accepted);
    Enters(c, s, request);
    Taken(c, Submit(c, s, Parsed(request)), h, request);
    var u := Handed(c, s, Parsed(request));
    hide Handed, One;
    AcceptedStep(c, u, env, h, r, s.trace);
    Steps(c, u, env, n);
    var v := One(c, u, env);
    HelperStep(c, v, env, h, Heard(r).(stage := AcceptedStage), s.trace + [AckOk(h, Accepted)]);
    Steps(c, v, env, n - 1);
    assert s.trace + [AckOk(h, Accepted)] + [HelperOk(h)] == s.trace + [AckOk(h, Accepted), HelperOk(h)];
    LinkLost(c, One(c, v, env), h, Heard(r).(stage := Terminal), s.trace + [AckOk(h, Accepted), HelperOk(h)]);
  }

  lemma LinkLost(c: Config, s: State, h: Handle, r: Rec, trace: seq<Fact>)
    requires Stands(s, h, ProfileReport, r, trace) && r.stage == Terminal
    ensures var t := Step(c, s, DoResume(Stop));
      t.worker.Idle? && t.trace == trace && h < |t.recs| && t.recs[h] == r
  {
    hide Trimmed;
  }
}
