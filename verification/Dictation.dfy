// The dictation actor: one queued request at a time, fetched, transcribed and answered
// with one terminal line, fenced by request ID, login epoch and cancellation.

module DictationActor {
  import opened Bytes
  import opened LinkWorld
  import opened UartSession

  // The terminal line answers a request that is current at the moment of writing, and that
  // was never cancelled nor outlived its login, a reset or dictation itself.
  predicate Owed(wr: Write) {
    wr.line.Terminal? && Current(wr.seen.d, wr.line.request) && wr.line.request.serial !in wr.seen.d.over
  }

  // No request is answered twice: serials grow from one terminal line to the next.
  ghost predicate OncePerRequest(log: seq<Write>) {
    && (forall i :: 0 <= i < |log| ==> Owed(log[i]))
    && (forall i, j :: 0 <= i < j < |log| ==>
      log[i].line.Terminal? && log[j].line.Terminal? && log[i].line.request.serial < log[j].line.request.serial)
  }

  ghost predicate Before(log: seq<Write>, serial: nat) {
    forall i :: 0 <= i < |log| ==> log[i].line.Terminal? && log[i].line.request.serial < serial
  }

  // At most one more line, and this one.
  ghost predicate Answers(before: seq<Write>, after: seq<Write>, line: Line) {
    before <= after && |after| <= |before| + 1 && forall i :: |before| <= i < |after| ==> after[i].line == line
  }

  lemma OneMore(before: seq<Write>, after: seq<Write>, from: World, r: Request, result: bool)
    requires OncePerRequest(before) && Before(before, r.serial) && Handled(from.d, r)
    requires Wrote(before, after, from, Terminal(r, result), ForRequest(r), 1)
    requires forall i :: |before| <= i < |after| ==> after[i].line == Terminal(r, result)
    ensures OncePerRequest(after) && Before(after, r.serial + 1) && Answers(before, after, Terminal(r, result))
  {
    TerminalsCount(after[|before|..]);
    assert |after| <= |before| + 1;
    forall i | 0 <= i < |after|
      ensures Owed(after[i]) && after[i].line.request.serial <= r.serial
    {
      if i < |before| {
        assert after[i] == before[i];
      } else {
        assert Allowed(after[i], from, ForRequest(r)) && Handled(after[i].seen.d, r);
      }
    }
    forall i, j | 0 <= i < j < |after|
      ensures after[i].line.request.serial < after[j].line.request.serial
    {
      assert after[i] == before[i];
    }
  }

  lemma {:induction false} TerminalsCount(ws: seq<Write>)
    requires forall i :: 0 <= i < |ws| ==> ws[i].line.Terminal?
    ensures Count(ws) == |ws|
  {
    if ws != [] {
      TerminalsCount(ws[..|ws| - 1]);
    }
  }

  class DictationController {
    const session: Session

    constructor (session: Session)
      ensures this.session == session
    {
      this.session := session;
    }

    // Nothing has been answered that was queued at serial or later.
    ghost predicate Valid(serial: nat)
      reads this, session
    {
      && Sound(session.w) && OncePerRequest(session.log) && Before(session.log, serial) && serial <= session.w.d.serial
      && (session.w.d.queued.Some? ==> serial <= session.w.d.queued.value.serial)
    }

    // run: take requests until an exception ends the actor.
    method Run(ready: nat -> bool)
      requires Valid(0) && session.at <= |session.script|
      modifies session
      ensures OncePerRequest(session.log)
      ensures old(Asks()) && ready(0) ==> Answered()
    {
      var alive := true;
      ghost var serial: nat := 0;
      ghost var asks := Asks() && ready(0);
      while alive
        invariant Valid(serial) && session.at <= |session.script|
        invariant asks ==> alive && (Asks() || (Answered() && session.at == |session.script|))
        decreases |session.script| - session.at, alive
      {
        var m := session.Await();
        if m == END {
          return;
        }
        if session.w.d.queued.Some? {
          var request := session.w.d.queued.value;
          session.w := session.w.(d := session.w.d.(queued := None, active := Some(request.id)));
          serial := request.serial + 1;
          alive := Handle(request, ready(request.serial));
          Finish(request);
        }
      }
    }

    // The first request ever arrives, and from then on nothing goes wrong.
    ghost predicate Asks()
      reads session
    {
      && session.at == 0 && session.w == BOOT && session.log == [] && |session.script| == 6
      && (exists id :: session.script[0].events == [DictateRequest(id)]) && session.script[0] != END
      && GoodRun(1)
    }

    // Its transcript has been sent, and nothing else.
    ghost predicate Answered()
      reads session
    {
      |session.log| == 1 && session.script != [] && |session.script[0].events| == 1
      && session.script[0].events[0].DictateRequest?
      && session.log[0].line == Terminal(Request(session.script[0].events[0].id, BOOT.d.gen, 0), true)
    }

    predicate GoodRun(k: nat) {
      GoodStages(k) && session.Undisturbed(k + 2)
    }

    // Fetch and recognition succeed from suspension k on, and nothing else happens.
    predicate GoodStages(k: nat) {
      session.Silent(k) && session.Silent(k + 1) && session.script[k].job.Good? && session.script[k + 1].job.Good?
    }

    // The finally clause of run.
    method Finish(request: Request)
      modifies session`w
      ensures Sound(old(session.w)) ==> Sound(session.w)
      ensures session.w.d.queued == old(session.w.d.queued) && session.w.d.serial == old(session.w.d.serial)
    {
      var d := session.w.d;
      session.w := session.w.(d := d.(
        active := if d.active == Some(request.id) then None else d.active,
        latest := if d.latest == Some(request.id) then None else d.latest,
        recent := Remember(d.recent, request.id)));
    }

    // What recognition leaves to say, read from how the two stages ended.
    predicate Heard(at: nat, ready: bool) {
      ready && at + 1 < |session.script| && session.script[at].job.Good? && session.script[at + 1].job.Good?
    }

    // A stage found the request overtaken.
    predicate Overtaken(at: nat, ready: bool) {
      ready && at < |session.script|
      && (session.script[at].job.Superseded?
          || (session.script[at].job.Good? && at + 1 < |session.script| && session.script[at + 1].job.Superseded?))
    }

    // _handle: false when it raises LinkClosed.  A request that stays current is answered,
    // with its transcript exactly when fetch and recognition both delivered.
    method Handle(request: Request, ready: bool) returns (alive: bool)
      requires Valid(request.serial) && Handled(session.w.d, request) && session.at <= |session.script|
      requires session.w.d.queued.Some? ==> request.serial < session.w.d.queued.value.serial
      modifies session
      ensures Valid(request.serial + 1) && Onward(session.script, old(session.at), session.at)
      ensures Answers(old(session.log), session.log, Terminal(request, Heard(old(session.at), ready)))
      ensures alive && Current(session.w.d, request) && !Overtaken(old(session.at), ready) ==>
        |session.log| == |old(session.log)| + 1
      // Undisturbed, a current request gets its transcript.
      ensures ready && Current(old(session.w).d, request) && GoodRun(old(session.at)) ==>
        session.log == old(session.log) + [Write(Terminal(request, true), old(session.w))]
        && session.at == old(session.at) + 5 && alive
    {
      if !ready {
        alive := SendTerminal(request, false);
        return;
      }
      // Presence lease and fetch, then speech recognition, each with its own way to end.
      var fetched := session.Await();
      if Ended(fetched.job, request) {
        return !fetched.job.Unsynchronized?;
      }
      if !fetched.job.Good? {
        alive := SendTerminal(request, false);
        return;
      }
      var transcribed := session.Await();
      if Ended(transcribed.job, request) {
        return !transcribed.job.Unsynchronized?;
      }
      alive := SendTerminal(request, transcribed.job.Good?);
    }

    // A stage after which nothing is sent: the request was overtaken or the link is lost.
    predicate Ended(job: Job, request: Request)
      reads this, session
    {
      || job.Superseded? || job.Unsynchronized?
      || ((job.Good? || job.Nothing?) && !Current(session.w.d, request))
    }

    // _send_terminal: at most one write, never replayed; false when it raises LinkClosed.
    method SendTerminal(request: Request, result: bool) returns (alive: bool)
      requires Valid(request.serial) && Handled(session.w.d, request)
      requires session.w.d.queued.Some? ==> request.serial < session.w.d.queued.value.serial
      modifies session
      ensures Valid(request.serial + 1) && Onward(session.script, old(session.at), session.at)
      ensures Answers(old(session.log), session.log, Terminal(request, result))
      ensures alive && Current(session.w.d, request) ==> |session.log| == |old(session.log)| + 1
      ensures Current(old(session.w).d, request) && session.Undisturbed(old(session.at)) ==>
        session.log == old(session.log) + [Write(Terminal(request, result), old(session.w))]
        && session.at == old(session.at) + 3 && alive
    {
      if !Current(session.w.d, request) {
        return true;
      }
      ghost var before, from := session.log, session.w;
      var r := session.Command(Terminal(request, result), false, false, ForRequest(request));
      OneMore(before, session.log, from, request, result);
      alive := r.Reply? || r.Cancelled?;
    }
  }

  // Every run from start-up: at most one terminal line per request, each written while
  // the request is current.
  method Run(script: seq<Moment>, ready: nat -> bool) returns (log: seq<Write>)
    ensures OncePerRequest(log)
    // The first request, when nothing goes wrong, gets its transcript.
    ensures GoodScript(script) && ready(0) ==>
      |log| == 1 && log[0].line == Terminal(Request(script[0].events[0].id, BOOT.d.gen, 0), true)
  {
    var session := new Session(script, BOOT);
    var actor := new DictationController(session);
    assert GoodScript(script) ==> script[0].events == [DictateRequest(script[0].events[0].id)];
    actor.Run(ready);
    log := session.log;
  }

  // A request, two stages that deliver, and a line that is answered; nothing else.
  predicate GoodScript(script: seq<Moment>) {
    && |script| == 6 && |script[0].events| == 1 && script[0].events[0].DictateRequest?
    && (forall k :: 0 < k < 6 ==> script[k].events == []) && script[1].job.Good? && script[2].job.Good?
    && !script[4].closed && script[5].answer == Okay
  }
}
