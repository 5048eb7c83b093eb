// The controller object itself: fields updated in place, one method per stretch
// between two awaits, each proved to perform the step of the protocol.

module PowerControl {
  import opened Bytes
  import opened Power

  class PowerController {
    const cfg: Config
    var recs: seq<Rec>            // every record object ever made
    var cache: seq<Handle>        // _records, in OrderedDict order
    var queue: seq<Item>
    var worker: Worker
    var readyPending: bool
    var readyEnqueued: bool
    var readyRetries: nat
    var readyTimer: bool
    var closed: bool
    ghost var trace: seq<Fact>

    ghost function View(): State
      reads this
    {
      State(recs, cache, queue, worker, readyPending, readyEnqueued, readyRetries, readyTimer, closed, trace)
    }

    ghost predicate Valid()
      reads this
    {
      Closed(View())
    }

    constructor (cfg: Config)
      ensures Valid() && View() == START && this.cfg == cfg
    {
      this.cfg := cfg;
      recs, cache, queue, worker := [], [], [], Idle;
      readyPending, readyEnqueued, readyRetries, readyTimer, closed := false, false, 0, false, false;
      trace := [];
    }

    // ---- queue and cache -----------------------------------------------------------

    method EnqueueItem(item: Item) returns (ok: bool)
      modifies this`queue
      ensures ok == (|old(queue)| < cfg.queueSize)
      ensures queue == if ok then old(queue) + [item] else old(queue)
    {
      ok := |queue| < cfg.queueSize;
      if ok {
        queue := queue + [item];
      }
    }

    method RequeueRecord(h: Handle)
      requires h < |recs|
      modifies this`queue, this`recs
      ensures View() == Requeue(cfg, old(View()), h)
    {
      if recs[h].stage != Queued || recs[h].enqueued {
        return;
      }
      var ok := EnqueueItem(Work(h, false));
      if ok {
        recs := recs[h := recs[h].(enqueued := true)];
      }
    }

    method FindRecord(id: Id) returns (i: nat)
      requires Valid()
      ensures i == Find(recs, cache, id)
    {
      i := 0;
      while i < |cache| && recs[cache[i]].request.id != id
        invariant i <= |cache|
        invariant Find(recs, cache, id) == i + Find(recs, cache[i..], id)
      {
        assert cache[i..][1..] == cache[i + 1..];
        i := i + 1;
      }
    }

    method TrimRecords()
      requires InRange(cache, |recs|)
      modifies this`cache
      ensures View() == Trim(cfg, old(View()))
    {
      ghost var before := cache;
      while |cache| > cfg.cacheSize
        invariant InRange(cache, |recs|)
        invariant Trimmed(recs, cache, cfg.cacheSize) == Trimmed(recs, before, cfg.cacheSize)
        decreases |cache|
      {
        var i := OldestDelivered();
        if i == |cache| {
          break;
        }
        cache := cache[..i] + cache[i + 1..];
      }
    }

    method OldestDelivered() returns (i: nat)
      requires InRange(cache, |recs|)
      ensures i == FirstEvictable(recs, cache)
    {
      i := 0;
      while i < |cache| && !Evictable(recs[cache[i]])
        invariant i <= |cache|
        invariant FirstEvictable(recs, cache) == i + FirstEvictable(recs, cache[i..])
      {
        assert cache[i..][1..] == cache[i + 1..];
        i := i + 1;
      }
    }

    // ---- session events ------------------------------------------------------------

    method ReadyWasDelivered()
      modifies this
      ensures View() == ReadyDelivered(old(View()))
    {
      readyPending, readyEnqueued, readyRetries, readyTimer := false, false, 0, false;
    }

    method SubmitEvent(e: Event) returns (consumed: bool)
      requires Valid()
      modifies this
      ensures View() == Submit(cfg, old(View()), e) && consumed == !e.NotPower?
    {
      if e.NotPower? {
        return false;
      }
      consumed := true;
      if e.Malformed? {
        if e.id.Some? {
          var rejected := Rec(Request(e.id.value, Status), Some(Failed), true, 0, None, false, Terminal, false);
          var ok := EnqueueItem(Work(|recs|, true));
          if ok {
            recs := recs + [rejected];
          }
        }
        return;
      }
      var req := e.request;
      if RetiresReady(req.action) {
        ReadyWasDelivered();
      }
      var i := FindRecord(req.id);
      if i < |cache| {
        SubmitKnown(i);
      } else {
        SubmitFresh(req);
      }
    }

    method SubmitKnown(i: nat)
      requires Valid() && i < |cache|
      modifies this
      ensures View() == Known(cfg, old(View()), i)
    {
      var h := cache[i];
      cache := cache[..i] + cache[i + 1..] + [h];
      if recs[h].stage == Queued {
        RequeueRecord(h);
      } else {
        var _ := EnqueueItem(Work(h, true));
      }
    }

    method SubmitFresh(req: Request)
      requires Valid()
      modifies this
      ensures View() == Fresh(cfg, old(View()), req)
    {
      var h := |recs|;
      ghost var recs0, cache0 := recs, cache;
      recs := recs + [NewRec(req)];
      cache := cache + [h];
      var ok := EnqueueItem(Work(h, false));
      if !ok {
        cache := cache[..|cache| - 1];
        recs := recs[..h];
        assert cache == cache0 && recs == recs0;
        return;
      }
      recs := recs[h := recs[h].(enqueued := true)];
      assert recs == recs0 + [NewRec(req).(enqueued := true)];
      TrimRecords();
    }

    // ---- retries and reconnect -------------------------------------------------------

    method ScheduleAckRetry(h: Handle)
      requires h < |recs|
      modifies this`recs
      ensures recs == old(recs)[h := ScheduleAck(closed, old(recs)[h])]
    {
      var r := recs[h];
      if closed || !r.pending || r.ack.None? || r.timer.Some? || r.retries >= ACK_RETRIES {
        return;
      }
      recs := recs[h := r.(timer := r.ack, retries := r.retries + 1)];
    }

    method ScheduleReadyRetry()
      modifies this
      ensures View() == ScheduleReady(old(View()))
    {
      if closed || !readyPending || readyEnqueued || readyTimer || readyRetries >= READY_RETRIES {
        return;
      }
      readyTimer, readyRetries := true, readyRetries + 1;
    }

    method AckTimerFires(h: Handle)
      requires h < |recs|
      modifies this
      ensures View() == AckTimer(cfg, old(View()), h)
    {
      var r := recs[h];
      if r.timer.None? {
        return;
      }
      recs := recs[h := r.(timer := None)];
      if closed || !r.pending || r.ack != r.timer {
        return;
      }
      var ok := EnqueueItem(Work(h, true));
      if !ok {
        ScheduleAckRetry(h);
      }
    }

    method ReadyTimerFires()
      modifies this
      ensures View() == ReadyTimer(cfg, old(View()))
    {
      if !readyTimer {
        return;
      }
      readyTimer := false;
      if closed || !readyPending || readyEnqueued {
        return;
      }
      var ok := EnqueueItem(Ready);
      if ok {
        readyEnqueued := true;
      } else {
        ScheduleReadyRetry();
      }
    }

    method ReplayRecordCallbacks()
      requires Valid()
      modifies this`queue, this`recs
      ensures View() == ReplayCallbacks(cfg, old(View()))
    {
      RequeueLost();
      RepeatOwed();
    }

    method RequeueLost()
      requires InRange(cache, |recs|)
      modifies this`queue, this`recs
      ensures View() == RequeueAll(cfg, old(View()), cache)
    {
      ghost var s := View();
      var i := |cache|;
      assert cache[..i] == cache;
      while i > 0
        invariant i <= |cache| && |recs| == |s.recs|
        invariant RequeueAll(cfg, View(), cache[..i]) == RequeueAll(cfg, s, s.cache)
      {
        i := i - 1;
        assert cache[..i + 1][..i] == cache[..i] && cache[..i + 1][i] == cache[i];
        RequeueRecord(cache[i]);
      }
    }

    method RepeatOwed()
      requires InRange(cache, |recs|)
      modifies this`queue
      ensures View() == ReplayAll(cfg, old(View()), cache)
    {
      ghost var s := View();
      var i := |cache|;
      assert cache[..i] == cache;
      while i > 0
        invariant i <= |cache|
        invariant ReplayAll(cfg, View(), cache[..i]) == ReplayAll(cfg, s, s.cache)
      {
        i := i - 1;
        assert cache[..i + 1][..i] == cache[..i] && cache[..i + 1][i] == cache[i];
        if OwesCallback(recs[cache[i]]) {
          var _ := EnqueueItem(Work(cache[i], true));
        }
      }
    }

    method ReplayPendingCallbacks()
      requires Valid()
      modifies this
      ensures View() == ReplayPending(cfg, old(View()))
    {
      if readyPending && !closed && !readyEnqueued {
        readyTimer := false;
        var ok := EnqueueItem(Ready);
        if ok {
          readyEnqueued := true;
        } else {
          ScheduleReadyRetry();
        }
      }
      assert View() == QueueReadyNow(cfg, old(View()));
      ReplayRecordCallbacks();
    }

    // report_ready up to its await.
    method ClaimReady()
      modifies this`readyPending, this`readyRetries, this`readyTimer
      ensures View() == ReadyClaim(old(View()))
    {
      readyTimer, readyPending, readyRetries := false, true, 0;
    }

    // report_ready when the answer to the report is there.
    method ReadyAnswered(ok: bool)
      requires Valid()
      modifies this
      ensures View() == ReadyAnswer(cfg, old(View()), ok)
    {
      if ok {
        ReadyWasDelivered();
      } else {
        ScheduleReadyRetry();
      }
      ReplayRecordCallbacks();
    }

    // close: no retry will be planned any more, and those of cached records are cancelled.
    method Close()
      requires Valid()
      modifies this`closed, this`readyTimer, this`recs
      ensures View() == Shutdown(old(View()))
    {
      ghost var before := recs;
      closed, readyTimer := true, false;
      for i := 0 to |cache|
        invariant |recs| == |before| && closed && !readyTimer
        invariant forall h :: 0 <= h < |recs| ==>
          recs[h] == if h in cache[..i] then before[h].(timer := None) else before[h]
      {
        assert cache[..i + 1] == cache[..i] + [cache[i]];
        recs := recs[cache[i] := recs[cache[i]].(timer := None)];
      }
      assert cache[..|cache|] == cache;
      assert recs == Shutdown(old(View())).recs;
    }

    // ---- the worker ---------------------------------------------------------------------

    // run(): the next queue item up to its first await.
    method TakeNext()
      requires Valid()
      modifies this
      ensures View() == Take(cfg, old(View()))
    {
      if worker.Busy? || queue == [] {
        return;
      }
      match queue[0] {
        case Ready =>
          queue := queue[1..];
          worker := Busy(Ready, ReadyReport);
          readyEnqueued := false;
          if !readyPending {
            FinishItem();
          }
        case Work(h, replay) =>
          TakeRecord(h, replay);
      }
    }

    method TakeRecord(h: Handle, replay: bool)
      requires Valid() && worker.Idle? && queue != [] && queue[0] == Work(h, replay)
      modifies this
      ensures View() == TakeWork(cfg, old(View()), h, replay)
    {
      queue := queue[1..];
      worker := Busy(Work(h, replay), ReadyReport);
      var r := if replay then recs[h] else recs[h].(enqueued := false);
      if !replay && r.stage == Queued {
        recs := recs[h := r.(stage := InFlight)];
        worker := worker.(at := SendingAccepted);
        ExecuteRecord();
      } else if r.ack.Some? {
        recs := recs[h := r.(pending := true)];
        worker := worker.(at := Replaying(r.ack.value));
      } else {
        recs := recs[h := r];
        FinishItem();
      }
    }

    // The finally clause of the loop body.
    method FinishItem()
      requires InRange(cache, |recs|)
      modifies this`cache, this`worker
      ensures View() == Done(cfg, old(View()))
    {
      TrimRecords();
      worker := Idle;
    }

    method SendRecordAck(h: Handle, a: Ack, at: Point)
      requires h < |recs| && worker.Busy?
      modifies this`recs, this`worker
      ensures recs == old(recs)[h := CacheAck(old(recs)[h], a)]
      ensures worker == old(worker).(at := at)
    {
      if recs[h].ack != Some(a) {
        recs := recs[h := recs[h].(timer := None, retries := 0)];
      }
      recs := recs[h := recs[h].(ack := Some(a), pending := true)];
      worker := worker.(at := at);
    }

    method FailRecord(h: Handle)
      requires h < |recs| && worker.Busy? && worker.item.Work? && worker.item.h == h
      modifies this`recs, this`worker
      ensures View() == Fail(old(View()))
    {
      recs := recs[h := recs[h].(stage := Terminal)];
      SendRecordAck(h, Failed, FailureReport);
    }

    // _execute_record up to its first await.
    method ExecuteRecord()
      requires worker.Busy? && worker.item.Work? && worker.item.h < |recs|
      modifies this`recs, this`worker
      ensures View() == Begin(cfg, old(View()))
    {
      var h := worker.item.h;
      var action := recs[h].request.action;
      if !cfg.enabled {
        FailRecord(h);
        return;
      }
      if action.Suspend? {
        if !cfg.allowSuspend {
          FailRecord(h);
          return;
        }
        worker := worker.(at := CheckingSupport);
        assert recs[h := recs[h]] == recs;
      } else if action.SleepFor? {
        worker := worker.(at := CheckingSupport);
        assert recs[h := recs[h]] == recs;
      } else {
        SendRecordAck(h, Accepted, SendingAccepted);
      }
    }

    // What follows the session's answer to an ACK line.
    method AckAnswered(h: Handle, a: Ack, ok: bool)
      requires h < |recs|
      modifies this`recs, this`trace
      ensures View() == AckReply(old(View()), h, a, ok)
    {
      if ok {
        if recs[h].ack == Some(a) {
          recs := recs[h := recs[h].(pending := false, retries := 0, timer := None)];
        } else {
          assert recs[h := recs[h]] == recs;
        }
        trace := trace + [AckOk(h, a)];
      } else {
        ScheduleAckRetry(h);
      }
    }

    method RecoverUnaccepted(h: Handle)
      requires h < |recs|
      modifies this`recs, this`queue
      ensures View() == Recover(cfg, old(View()), h)
    {
      if !recs[h].started && (recs[h].stage == InFlight || recs[h].stage == AcceptedStage) {
        recs := recs[h := recs[h].(stage := Queued)];
        RequeueRecord(h);
      }
    }

    // The worker's await returns with this answer.
    method ResumeWorker(a: Answer)
      requires Valid()
      modifies this
      ensures View() == Resume(cfg, old(View()), a)
    {
      if worker.Idle? {
        return;
      }
      if worker.item.Ready? {
        if a == Ok_ {
          ReadyWasDelivered();
        } else if a != Stop {
          ScheduleReadyRetry();
        }
        FinishItem();
        return;
      }
      var h, at := worker.item.h, worker.at;
      if a == Stop {
        if !worker.item.replay && at != LateFailure {
          RecoverUnaccepted(h);
        }
        FinishItem();
      } else if a == Crash && AtHelper(at) {
        if recs[h].stage == CommittedStage {
          FinishItem();
        } else {
          recs := recs[h := recs[h].(stage := Terminal)];
          SendRecordAck(h, Failed, LateFailure);
        }
      } else {
        Continue(a == Ok_);
      }
    }

    method Continue(ok: bool)
      requires Holding(View())
      modifies this
      ensures View() == ResumeWork(cfg, old(View()), ok)
    {
      var h := worker.item.h;
      match worker.at {
        case ReadyReport =>
        case Replaying(a) => ReplayAnswered(a, ok);
        case CheckingSupport => SupportAnswered(ok);
        case SendingAccepted => AcceptedAnswered(ok);
        case SendingCommitted => CommittedAnswered(ok);
        case WaitingForHelper =>
          recs := recs[h := recs[h].(started := true)];
          worker := worker.(at := Executing);
          trace := trace + [Invoked(h)];
        case Executing => ExecutionAnswered(ok);
        case FailureReport => FailureAnswered();
        case SendingFinal(wake) => FinalAnswered(wake, ok);
        case LateFailure => FinalAnswered(false, ok);
        case WakeReport =>
          readyTimer, readyPending, readyRetries := false, true, 0;
          worker := worker.(at := WakeReady);
        case WakeReady => WakeAnswered(ok);
        case _ => ActionAnswered(ok);
      }
    }

    method SupportAnswered(ok: bool)
      requires Holding(View()) && worker.at == CheckingSupport
      modifies this
      ensures View() == ResumeWork(cfg, old(View()), ok)
    {
      var h := worker.item.h;
      if ok {
        trace := trace + [SupportOk(h)];
        SendRecordAck(h, Accepted, SendingAccepted);
      } else {
        FailRecord(h);
      }
    }

    method CommittedAnswered(ok: bool)
      requires Holding(View())
      modifies this
      ensures View() == CommittedReply(old(View()), ok)
    {
      var h := worker.item.h;
      AckAnswered(h, Committed, ok);
      if ok {
        worker := worker.(at := WaitingForHelper);
      } else {
        FailRecord(h);
      }
    }

    method ExecutionAnswered(ok: bool)
      requires Holding(View())
      modifies this
      ensures View() == ExecutionReply(cfg, old(View()), ok)
    {
      var h := worker.item.h;
      if ok {
        trace := trace + [HelperOk(h)];
        recs := recs[h := recs[h].(stage := Terminal)];
        SendRecordAck(h, Applied, SendingFinal(recs[h].request.action.Suspend?));
      } else {
        FinishItem();
      }
    }

    method FailureAnswered()
      requires Holding(View())
      modifies this
      ensures View() == FailureReported(cfg, old(View()))
    {
      var h := worker.item.h;
      if recs[h].ack.Some? {
        recs := recs[h := recs[h].(pending := true)];
        worker := worker.(at := Replaying(recs[h].ack.value));
      } else {
        FinishItem();
      }
    }

    method WakeAnswered(ok: bool)
      requires Holding(View())
      modifies this
      ensures View() == Woken(cfg, old(View()), ok)
    {
      if ok {
        ReadyWasDelivered();
      } else {
        ScheduleReadyRetry();
      }
      ReplayRecordCallbacks();
      FinishItem();
    }

    method ReplayAnswered(a: Ack, ok: bool)
      requires Holding(View())
      modifies this
      ensures View() == ReplayReply(cfg, old(View()), a, ok)
    {
      var h := worker.item.h;
      AckAnswered(h, a, ok);
      if ok && worker.item.replay && recs[h].stage == CommittedStage && !recs[h].started {
        worker := worker.(at := WaitingForHelper);
      } else {
        FinishItem();
      }
    }

    method AcceptedAnswered(ok: bool)
      requires Holding(View())
      modifies this
      ensures View() == AcceptedReply(old(View()), ok)
    {
      var h := worker.item.h;
      var action := recs[h].request.action;
      AckAnswered(h, Accepted, ok);
      if !ok {
        recs := recs[h := recs[h].(stage := Terminal)];
        SendRecordAck(h, Failed, SendingFinal(false));
        return;
      }
      recs := recs[h := recs[h].(stage := AcceptedStage)];
      if action.Status? {
        worker := worker.(at := QueryingStatus);
      } else if action.Profile? {
        worker := worker.(at := ApplyingProfile);
      } else {
        worker := worker.(at := TransitionReport);
      }
    }

    method ActionAnswered(ok: bool)
      requires Holding(View())
      modifies this
      ensures View() == ActionReply(old(View()), ok)
    {
      var h := worker.item.h;
      assert recs[h := recs[h]] == recs;
      match worker.at {
        case QueryingStatus =>
          if ok {
            trace := trace + [HelperOk(h)];
            worker := worker.(at := StatusReport);
          } else {
            FailRecord(h);
          }
        case StatusReport =>
          recs := recs[h := recs[h].(stage := Terminal)];
          SendRecordAck(h, Applied, SendingFinal(false));
        case ApplyingProfile =>
          if ok {
            trace := trace + [HelperOk(h)];
            recs := recs[h := recs[h].(stage := Terminal)];
            worker := worker.(at := ProfileReport);
          } else {
            FailRecord(h);
          }
        case ProfileReport =>
          SendRecordAck(h, Applied, SendingFinal(false));
        case _ =>
          recs := recs[h := recs[h].(stage := CommittedStage)];
          SendRecordAck(h, Committed, SendingCommitted);
      }
    }

    method FinalAnswered(wake: bool, ok: bool)
      requires Holding(View())
      modifies this
      ensures View() == FinalReply(cfg, old(View()), wake, ok)
    {
      var h := worker.item.h;
      AckAnswered(h, if recs[h].ack == Some(Applied) then Applied else Failed, ok);
      if wake {
        worker := worker.(at := WakeReport);
      } else {
        FinishItem();
      }
    }
  }
}
