// Where exchanges come from: the wake registry with its tombstones, and one queue in
// which wakes go before manual jobs.  An exchange object is a handle into the table of
// all exchanges ever made.

module Jobs {
  import opened Bytes

  type Handle = nat

  datatype Exchange = Exchange(id: string, cancelled: bool, path: Option<string>)

  // seqNo is the arrival number; a wake has priority 0 and carries its exchange.
  datatype Entry = Entry(priority: nat, seqNo: nat, exchange: Option<Handle>)

  const TOMBSTONES := 64

  predicate Earlier(a: Entry, b: Entry) {
    a.priority < b.priority || (a.priority == b.priority && a.seqNo < b.seqNo)
  }

  // At most one exchange is live, and no live one is buried.
  ghost predicate OneLive(registry: map<string, Handle>, exs: seq<Exchange>, tombs: seq<string>) {
    && (forall id :: id in registry ==> registry[id] < |exs| && exs[registry[id]].id == id)
    && (forall a, b | a in registry && b in registry :: exs[registry[a]].cancelled || exs[registry[b]].cancelled || a == b)
    && forall id :: id in registry && id in tombs ==> exs[registry[id]].cancelled
  }

  ghost predicate Buried(tombs: seq<string>) {
    |tombs| <= TOMBSTONES && forall i, j :: 0 <= i < j < |tombs| ==> tombs[i] != tombs[j]
  }

  predicate Proper(e: Entry, n: nat) {
    if e.exchange.Some? then e.exchange.value < n && e.priority == 0 else e.priority == 1
  }

  ghost predicate Queued(queue: seq<Entry>, exs: seq<Exchange>, nextSeq: nat) {
    && (forall i :: 0 <= i < |queue| ==> Proper(queue[i], |exs|) && queue[i].seqNo < nextSeq)
    && forall i, j :: 0 <= i < j < |queue| ==> queue[i].seqNo != queue[j].seqNo
  }

  predicate Cancelled(e: Entry, exs: seq<Exchange>) {
    e.exchange.Some? && e.exchange.value < |exs| && exs[e.exchange.value].cancelled
  }

  // One of these entries is the wake of id.
  ghost predicate Has(id: string, entries: seq<Entry>, exs: seq<Exchange>) {
    exists e :: e in entries && e.exchange.Some? && e.exchange.value < |exs| && exs[e.exchange.value].id == id
  }

  // Whatever is registered or waiting was entered.
  ghost predicate Known(registry: map<string, Handle>, queue: seq<Entry>, entered: seq<Entry>, exs: seq<Exchange>) {
    && (forall id :: id in registry ==> Has(id, entered, exs))
    && forall e :: e in queue ==> e in entered
  }

  lemma HasLater(id: string, entries: seq<Entry>, exs: seq<Exchange>, entries': seq<Entry>, exs': seq<Exchange>)
    requires Has(id, entries, exs) && StillCancelled(exs, exs') && forall e :: e in entries ==> e in entries'
    ensures Has(id, entries', exs')
  {
    var e :| e in entries && e.exchange.Some? && e.exchange.value < |exs| && exs[e.exchange.value].id == id;
    assert e in entries' && exs'[e.exchange.value].id == id;
  }

  // Cancellation is for ever.
  predicate StillCancelled(before: seq<Exchange>, after: seq<Exchange>) {
    |before| <= |after| && forall h :: 0 <= h < |before| ==>
      after[h].id == before[h].id && (before[h].cancelled ==> after[h].cancelled)
  }

  function Drop<T>(s: seq<T>, i: nat): seq<T>
    requires i < |s|
  {
    s[..i] + s[i + 1..]
  }

  // move_to_end, then popitem(last=False) beyond the limit.
  function Bury(tombs: seq<string>, id: string): seq<string> {
    var i := Place(tombs, id);
    var rest := if i < |tombs| then Drop(tombs, i) else tombs;
    (if |rest| >= TOMBSTONES then rest[|rest| + 1 - TOMBSTONES..] else rest) + [id]
  }

  function Place(tombs: seq<string>, id: string): (i: nat)
    ensures i <= |tombs| && (i < |tombs| ==> tombs[i] == id)
    ensures i == |tombs| ==> id !in tombs
  {
    if tombs == [] || tombs[0] == id then 0 else 1 + Place(tombs[1..], id)
  }

  lemma BuryKeeps(tombs: seq<string>, id: string)
    requires Buried(tombs)
    ensures Buried(Bury(tombs, id)) && id in Bury(tombs, id)
    ensures forall k :: k in Bury(tombs, id) ==> k == id || k in tombs
    // Only the oldest tombstone of a full cache is lost.
    ensures forall k :: k in tombs && k !in Bury(tombs, id) ==> |tombs| == TOMBSTONES && k == tombs[0]
  {
    var i := Place(tombs, id);
    var b := Bury(tombs, id);
    assert b[|b| - 1] == id;
    if i < |tombs| {
      DropKeeps(tombs, i);
    } else if |tombs| >= TOMBSTONES {
      assert b == tombs[1..] + [id];
      assert forall k :: 0 < k < |tombs| ==> b[k - 1] == tombs[k];
    } else {
      assert forall k :: 0 <= k < |tombs| ==> b[k] == tombs[k];
    }
  }

  lemma DropKeeps(tombs: seq<string>, i: nat)
    requires Buried(tombs) && i < |tombs|
    ensures Buried(Drop(tombs, i)) && forall k :: k in Drop(tombs, i) <==> k in tombs && k != tombs[i]
  {
    var rest := Drop(tombs, i);
    assert forall k :: 0 <= k < |rest| ==> rest[k] == if k < i then tombs[k] else tombs[k + 1];
    forall k | 0 <= k < |tombs| && k != i
      ensures tombs[k] in rest
    {
      assert rest[if k < i then k else k - 1] == tombs[k];
    }
  }

  class ManualTrigger {
    var queue: seq<Entry>
    var nextSeq: nat
    var exs: seq<Exchange>
    var registry: map<string, Handle>
    var tombs: seq<string>
    // History: everything that was ever put into the queue.
    var entered: seq<Entry>

    constructor ()
      ensures Valid() && queue == [] && entered == [] && registry == map[] && tombs == []
    {
      queue, nextSeq, exs, registry, tombs, entered := [], 0, [], map[], [], [];
    }

    ghost predicate Valid()
      reads this
    {
      OneLive(registry, exs, tombs) && Buried(tombs) && Queued(queue, exs, nextSeq)
    }

    // _enqueue
    method Enqueue(priority: nat, exchange: Option<Handle>)
      requires Valid() && Proper(Entry(priority, nextSeq, exchange), |exs|)
      modifies this`queue, this`nextSeq, this`entered
      ensures Valid() && nextSeq == old(nextSeq) + 1
      ensures queue == old(queue) + [Entry(priority, old(nextSeq), exchange)]
      ensures entered == old(entered) + [Entry(priority, old(nextSeq), exchange)]
    {
      var e := Entry(priority, nextSeq, exchange);
      queue, entered, nextSeq := queue + [e], entered + [e], nextSeq + 1;
    }

    method Submit()
      requires Valid()
      modifies this`queue, this`nextSeq, this`entered
      ensures Valid() && nextSeq == old(nextSeq) + 1
      ensures queue == old(queue) + [Entry(1, old(nextSeq), None)]
      ensures entered == old(entered) + [Entry(1, old(nextSeq), None)]
    {
      Enqueue(1, None);
    }

    // submit_evenai: a buried wake stays buried, a duplicate changes nothing, and a new
    // one is the only live exchange afterwards.
    method SubmitEvenai(id: string) returns (exchange: Option<Handle>)
      requires Valid()
      modifies this
      ensures Valid() && StillCancelled(old(exs), exs)
      ensures id in old(tombs) ==> exchange == None
      ensures id in old(tombs) || id in old(registry) ==>
        exs == old(exs) && queue == old(queue) && registry == old(registry) && tombs == old(tombs)
        && nextSeq == old(nextSeq) && entered == old(entered)
      ensures id !in old(tombs) && id in old(registry) ==> exchange == Some(old(registry)[id])
      ensures id !in old(tombs) && id !in old(registry) ==>
        && exchange == Some(|exs| - 1) && |exs| == |old(exs)| + 1 && exs[|exs| - 1] == Exchange(id, false, None)
        && queue == old(queue) + [Entry(0, old(nextSeq), exchange)] && nextSeq == old(nextSeq) + 1
        && entered == old(entered) + [Entry(0, old(nextSeq), exchange)]
        && forall k :: k in registry && k != id ==> exs[registry[k]].cancelled
      ensures id in old(tombs) || id in registry
      ensures forall k :: k in registry ==> k in old(registry) || k == id
      ensures forall k :: k in tombs ==> k in old(tombs) || k in old(registry)
    {
      if id in tombs {
        return None;
      }
      if id in registry {
        return Some(registry[id]);
      }
      Supersede();
      exchange := Some(|exs|);
      exs, registry := exs + [Exchange(id, false, None)], registry[id := |exs|];
      Enqueue(0, exchange);
    }

    // A newer wake proves that the device has moved on.
    method Supersede()
      requires Valid()
      modifies this`exs, this`tombs
      ensures Valid() && StillCancelled(old(exs), exs) && |exs| == |old(exs)|
      ensures forall k :: k in registry ==> exs[registry[k]].cancelled
      ensures forall k :: k in tombs ==> k in old(tombs) || k in registry
    {
      hide Valid;
      RegisteredHere();
      var ids := registry.Keys;
      while ids != {}
        invariant Valid() && StillCancelled(old(exs), exs) && |exs| == |old(exs)| && ids <= registry.Keys
        invariant forall k :: k in registry && k !in ids ==> exs[registry[k]].cancelled
        invariant forall k :: k in tombs ==> k in old(tombs) || k in registry
        decreases |ids|
      {
        var id :| id in ids;
        ids := ids - {id};
        SupersedeOne(id);
      }
    }

    lemma RegisteredHere()
      requires Valid()
      ensures forall k :: k in registry ==> registry[k] < |exs|
    {
    }

    method SupersedeOne(id: string)
      requires Valid() && id in registry
      modifies this`exs, this`tombs
      ensures Valid() && StillCancelled(old(exs), exs) && |exs| == |old(exs)| && registry[id] < |exs|
      ensures exs[registry[id]].cancelled
      ensures forall k :: k in tombs ==> k in old(tombs) || k == id
    {
      if !exs[registry[id]].cancelled {
        Entomb(id);
      }
    }

    // Cancel the exchange registered under id, if any, and bury the id.
    method Entomb(id: string)
      requires Valid()
      modifies this`exs, this`tombs
      ensures Valid() && tombs == Bury(old(tombs), id) && id in tombs
      ensures forall k :: k in tombs ==> k == id || k in old(tombs)
      ensures exs == if id !in registry then old(exs)
        else old(exs)[registry[id] := old(exs)[registry[id]].(cancelled := true)]
    {
      BuryKeeps(tombs, id);
      tombs := Bury(tombs, id);
      if id in registry {
        exs := exs[registry[id] := exs[registry[id]].(cancelled := true)];
      }
    }

    // cancel_evenai, before or after the wake.
    method CancelEvenai(id: string)
      requires Valid()
      modifies this`exs, this`tombs
      ensures Valid() && StillCancelled(old(exs), exs) && id in tombs
      ensures id in registry ==> exs[registry[id]].cancelled
      ensures forall k :: k in tombs ==> k == id || k in old(tombs)
    {
      Entomb(id);
    }

    // recording_stopped
    method RecordingStopped(id: string, path: string)
      requires Valid()
      modifies this`exs
      ensures Valid() && StillCancelled(old(exs), exs)
      ensures exs == if id !in registry then old(exs)
        else old(exs)[registry[id] := old(exs)[registry[id]].(path := Some(path))]
    {
      if id in registry {
        exs := exs[registry[id] := exs[registry[id]].(path := Some(path))];
      }
    }

    // evenai_done
    method EvenaiDone(id: string)
      requires Valid()
      modifies this`registry, this`tombs
      ensures Valid() && registry == old(registry) - {id} && id in tombs
      ensures forall k :: k in tombs ==> k == id || k in old(tombs)
    {
      BuryKeeps(tombs, id);
      registry, tombs := registry - {id}, Bury(tombs, id);
    }

    // The entry the priority queue hands out first.
    method First() returns (i: nat)
      requires Valid() && queue != []
      ensures i < |queue| && forall k :: 0 <= k < |queue| && k != i ==> Earlier(queue[i], queue[k])
    {
      i := 0;
      for j := 1 to |queue|
        invariant i < j && forall k :: 0 <= k < j && k != i ==> Earlier(queue[i], queue[k])
      {
        if Earlier(queue[j], queue[i]) {
          i := j;
        }
      }
    }

    // next_job: the first live entry; the dead wakes in front of it are dropped.  None
    // stands for waiting on an empty queue.
    method NextJob() returns (job: Option<Entry>)
      requires Valid()
      modifies this`queue, this`registry, this`tombs
      ensures Valid() && forall e :: e in queue ==> e in old(queue)
      ensures job.None? ==> queue == []
      ensures job.Some? ==> job.value in old(queue) && !Cancelled(job.value, exs) && forall e :: e in queue ==> Earlier(job.value, e)
      ensures forall e :: e in old(queue) && e !in queue ==> Cancelled(e, exs) || job == Some(e)
      ensures forall id :: id in registry ==> id in old(registry)
      ensures forall id :: id in tombs ==> id in old(tombs) || Has(id, old(queue), exs)
    {
      while queue != []
        invariant Valid()
        invariant forall id :: id in registry ==> id in old(registry)
        invariant forall id :: id in tombs ==> id in old(tombs) || Has(id, old(queue), exs)
        invariant forall e :: e in queue ==> e in old(queue)
        invariant forall e :: e in old(queue) && e !in queue ==> Cancelled(e, exs)
        decreases |queue|
      {
        var e := Take();
        if Cancelled(e, exs) {
          EvenaiDone(exs[e.exchange.value].id);
        } else {
          return Some(e);
        }
      }
      return None;
    }

    method Take() returns (e: Entry)
      requires Valid() && queue != []
      modifies this`queue
      ensures Valid() && |queue| < |old(queue)| && e in old(queue) && Proper(e, |exs|)
      ensures forall k :: k in queue ==> k in old(queue) && Earlier(e, k)
      ensures forall k :: k in old(queue) ==> k == e || k in queue
    {
      var i := First();
      e := queue[i];
      DropElements(queue, i);
      queue := Drop(queue, i);
    }

    // One call of the run.
    method Do(call: Call) returns (job: Option<Entry>)
      requires Valid()
      modifies this
      ensures Valid() && StillCancelled(old(exs), exs) && old(nextSeq) <= nextSeq
      ensures old(entered) <= entered && forall e :: e in entered ==> e in old(entered) || e in queue
      ensures Manuals(entered) == Manuals(old(entered)) + if call == Manual then 1 else 0
      ensures forall e :: e in queue ==> e in old(queue) || e.seqNo >= old(nextSeq)
      ensures forall e :: e in old(queue) && e !in queue ==> Cancelled(e, exs) || job == Some(e)
      ensures job.Some? ==> job.value in old(queue) && job.value.seqNo < nextSeq
      ensures if call == Next then Fair(HandOut(job, queue, exs)) else job == None
      ensures call.Wake? ==> call.id in registry || call.id in tombs
      ensures call.Dismiss? ==> call.id in tombs && (call.id in registry ==> exs[registry[call.id]].cancelled)
      ensures call.Finish? ==> call.id in tombs && call.id !in registry
      ensures old(IsKnown()) ==> IsKnown()
      ensures forall id :: id in tombs ==> id in old(tombs) || Buries(call, id) || (old(IsKnown()) ==> Has(id, entered, exs))
    {
      job := None;
      ghost var before := entered;
      match call
      case Manual =>
        Submit();
        ManualsNext(before, entered[|before|]);
      case Wake(id) =>
        var x := SubmitEvenai(id);
        if |entered| > |before| {
          ManualsNext(before, entered[|before|]);
        }
      case Dismiss(id) => CancelEvenai(id);
      case Stopped(id, path) => RecordingStopped(id, path);
      case Finish(id) => EvenaiDone(id);
      case Next => job := NextJob();
    }

    ghost predicate IsKnown()
      reads this
    {
      Known(registry, queue, entered, exs)
    }
  }

  predicate Buries(call: Call, id: string) {
    call == Dismiss(id) || call == Finish(id)
  }

  lemma DropElements(queue: seq<Entry>, i: nat)
    requires i < |queue| && forall j, k :: 0 <= j < k < |queue| ==> queue[j].seqNo != queue[k].seqNo
    ensures forall k :: 0 <= k < |queue| - 1 ==> Drop(queue, i)[k] == queue[if k < i then k else k + 1]
    ensures forall e :: e in Drop(queue, i) <==> e in queue && e != queue[i]
  {
    var rest := Drop(queue, i);
    assert forall k :: 0 <= k < |rest| ==> rest[k] == queue[if k < i then k else k + 1] && rest[k] in queue;
    forall e | e in queue && e != queue[i]
      ensures e in rest
    {
      var k :| 0 <= k < |queue| && queue[k] == e;
      assert rest[if k < i then k else k - 1] == e;
    }
  }

  // ---- every run --------------------------------------------------------------------------

  datatype Call =
    | Manual
    | Wake(id: string)
    | Dismiss(id: string)
    | Stopped(id: string, path: string)
    | Finish(id: string)
    | Next

  // One hand-out, or none on an empty queue: what was left in the queue, and the exchanges at that moment.
  datatype HandOut = HandOut(job: Option<Entry>, left: seq<Entry>, exs: seq<Exchange>)

  // Nothing cancelled is handed out, a manual job only when no wake is waiting, and no job
  // only when none is waiting.
  ghost predicate Fair(o: HandOut) {
    match o.job
    case None => o.left == []
    case Some(job) => !Cancelled(job, o.exs) && forall e :: e in o.left ==> Earlier(job, e)
  }

  function Manuals(entered: seq<Entry>): nat {
    if entered == [] then 0
    else Manuals(entered[..|entered| - 1]) + if entered[|entered| - 1].priority == 1 then 1 else 0
  }

  lemma ManualsNext(entered: seq<Entry>, e: Entry)
    ensures Manuals(entered + [e]) == Manuals(entered) + if e.priority == 1 then 1 else 0
  {
    assert (entered + [e])[..|entered|] == entered;
  }

  function ManualCalls(calls: seq<Call>): nat {
    if calls == [] then 0
    else ManualCalls(calls[..|calls| - 1]) + if calls[|calls| - 1] == Manual then 1 else 0
  }

  predicate SameClass(a: Option<Entry>, b: Option<Entry>) {
    a.Some? && b.Some? && a.value.priority == b.value.priority
  }

  // Within a class first come, first served.
  ghost predicate InOrder(outs: seq<HandOut>) {
    && (forall i :: 0 <= i < |outs| ==> Fair(outs[i]))
    && forall i, j :: 0 <= i < j < |outs| && SameClass(outs[i].job, outs[j].job) ==>
         outs[i].job.value.seqNo < outs[j].job.value.seqNo
  }

  ghost predicate HandedOut(e: Entry, outs: seq<HandOut>) {
    exists i :: 0 <= i < |outs| && outs[i].job == Some(e)
  }

  // Every job ever entered was handed out, is waiting, or is a cancelled wake.
  ghost predicate Accounted(entered: seq<Entry>, outs: seq<HandOut>, queue: seq<Entry>, exs: seq<Exchange>) {
    forall e :: e in entered ==> HandedOut(e, outs) || e in queue || Cancelled(e, exs)
  }

  lemma StillAccounted(entered: seq<Entry>, outs: seq<HandOut>, queue: seq<Entry>, exs: seq<Exchange>,
                       more: seq<HandOut>, queue': seq<Entry>, exs': seq<Exchange>)
    requires Accounted(entered, outs, queue, exs) && StillCancelled(exs, exs')
    requires forall e :: e in queue && e !in queue' ==> Cancelled(e, exs') || HandedOut(e, more)
    ensures Accounted(entered, outs + more, queue', exs')
  {
    forall e | e in entered
      ensures HandedOut(e, outs + more) || e in queue' || Cancelled(e, exs')
    {
      if HandedOut(e, outs) {
        var i :| 0 <= i < |outs| && outs[i].job == Some(e);
        assert (outs + more)[i].job == Some(e);
      } else if HandedOut(e, more) {
        var i :| 0 <= i < |more| && more[i].job == Some(e);
        assert (outs + more)[|outs| + i].job == Some(e);
      }
    }
  }

  function Outs(call: Call, job: Option<Entry>, queue: seq<Entry>, exs: seq<Exchange>): seq<HandOut> {
    if call == Next then [HandOut(job, queue, exs)] else []
  }

  function NextCalls(calls: seq<Call>): nat {
    if calls == [] then 0
    else NextCalls(calls[..|calls| - 1]) + if calls[|calls| - 1] == Next then 1 else 0
  }

  // What has been handed out came before what is waiting in the same class.
  ghost predicate Ahead(outs: seq<HandOut>, queue: seq<Entry>, n: nat) {
    && (forall j, e :: 0 <= j < |outs| && e in queue && outs[j].job.Some? && outs[j].job.value.priority == e.priority ==>
          outs[j].job.value.seqNo < e.seqNo)
    && forall j :: 0 <= j < |outs| && outs[j].job.Some? ==> outs[j].job.value.seqNo < n
  }

  lemma OutNext(outs: seq<HandOut>, queue: seq<Entry>, n: nat, call: Call, job: Option<Entry>,
                queue': seq<Entry>, n': nat, exs: seq<Exchange>)
    requires InOrder(outs) && Ahead(outs, queue, n) && n <= n'
    requires forall e :: e in queue' ==> e in queue || e.seqNo >= n
    requires job.Some? ==> job.value in queue && job.value.seqNo < n'
    requires call == Next ==> Fair(HandOut(job, queue', exs))
    ensures InOrder(outs + Outs(call, job, queue', exs)) && Ahead(outs + Outs(call, job, queue', exs), queue', n')
  {
  }

  // Where an ID came from: its wake was entered, or it was dismissed or finished.
  ghost predicate Explained(id: string, calls: seq<Call>, entered: seq<Entry>, exs: seq<Exchange>) {
    Has(id, entered, exs) || Dismiss(id) in calls || Finish(id) in calls
  }

  ghost predicate AllExplained(calls: seq<Call>, tombs: seq<string>, entered: seq<Entry>, exs: seq<Exchange>) {
    && (forall id :: id in tombs ==> Explained(id, calls, entered, exs))
    && forall id :: Wake(id) in calls ==> Explained(id, calls, entered, exs)
  }

  lemma StillExplained(calls: seq<Call>, call: Call, tombs: seq<string>, entered: seq<Entry>, exs: seq<Exchange>,
                       tombs': seq<string>, entered': seq<Entry>, exs': seq<Exchange>)
    requires AllExplained(calls, tombs, entered, exs) && StillCancelled(exs, exs') && entered <= entered'
    requires forall id :: id in tombs' ==> id in tombs || Buries(call, id) || Has(id, entered', exs')
    requires call.Wake? ==> call.id in tombs' || Has(call.id, entered', exs')
    ensures AllExplained(calls + [call], tombs', entered', exs')
  {
    forall id | Explained(id, calls, entered, exs)
      ensures Explained(id, calls + [call], entered', exs')
    {
      if Has(id, entered, exs) {
        HasLater(id, entered, exs, entered', exs');
      }
    }
    assert call in calls + [call];
  }

  method Serve(calls: seq<Call>)
    returns (outs: seq<HandOut>, entered: seq<Entry>, queue: seq<Entry>, registry: map<string, Handle>,
             exs: seq<Exchange>, tombs: seq<string>)
    ensures InOrder(outs) && Accounted(entered, outs, queue, exs)
    ensures Manuals(entered) == ManualCalls(calls) && OneLive(registry, exs, tombs) && Buried(tombs)
    // One hand-out, if only of nothing, for each call that asks for a job.
    ensures |outs| == NextCalls(calls)
    // A wake is entered unless its exchange was dismissed or finished.
    ensures forall id :: Wake(id) in calls ==> Explained(id, calls, entered, exs)
  {
    var t := new ManualTrigger();
    outs := [];
    for i := 0 to |calls|
      invariant t.Valid() && fresh(t) && InOrder(outs) && Accounted(t.entered, outs, t.queue, t.exs)
      invariant Manuals(t.entered) == ManualCalls(calls[..i])
      invariant Ahead(outs, t.queue, t.nextSeq) && |outs| == NextCalls(calls[..i])
      invariant t.IsKnown() && AllExplained(calls[..i], t.tombs, t.entered, t.exs)
    {
      hide ManualTrigger.Valid, InOrder, Ahead, Accounted, AllExplained;
      ghost var was, queue0, exs0, n, tombs0 := t.entered, t.queue, t.exs, t.nextSeq, t.tombs;
      var job := t.Do(calls[i]);
      assert calls[..i + 1] == calls[..i] + [calls[i]] && calls[..i + 1][..i] == calls[..i];
      OutNext(outs, queue0, n, calls[i], job, t.queue, t.nextSeq, t.exs);
      StillExplained(calls[..i], calls[i], tombs0, was, exs0, t.tombs, t.entered, t.exs);
      var more := Outs(calls[i], job, t.queue, t.exs);
      assert job.Some? ==> more[0].job == job;
      StillAccounted(was, outs, queue0, exs0, more, t.queue, t.exs);
      outs := outs + more;
    }
    assert calls[..|calls|] == calls;
    entered, queue, registry, exs, tombs := t.entered, t.queue, t.registry, t.exs, t.tombs;
  }
}
