// One command on the authenticated link: stale drain, cancel guard, write, reply, with
// the re-login and replay rules.  A script says what happens at every suspension point.

module UartSession {
  import opened Bytes
  import opened LinkWorld

  datatype Answer = Okay | Refused | UnknownVerb | DamagedVerb | AuthRequired | NoReply | Hangup

  datatype LoginAnswer = Welcome | NoLogin | Lockout | Rejected | LoginHangup

  // One suspension: the events seen meanwhile and how the wait ended, whichever kind of
  // wait it was.
  datatype Moment = Moment(events: seq<Event>, answer: Answer, login: LoginAnswer, closed: bool, due: bool, job: Job)

  // How a stage of a dictation between two link commands ended.
  datatype Job = Good | Nothing | FetchFailed | Faulted | Superseded | Unsynchronized

  const END := Moment([], Hangup, LoginHangup, true, true, Unsynchronized)

  // gen is the generation a heartbeat was composed for; it is not on the wire.
  datatype Line = LoginLine | Heartbeat(seqNo: nat, mode: Mode, gen: nat) | Terminal(request: Request, result: bool)

  datatype Write = Write(line: Line, seen: World)

  datatype Guard = Unguarded | ForHeartbeat(gen: nat, mode: Mode) | ForRequest(request: Request)

  predicate Fences(w: World, mode: Mode) {
    !mode.Starting? && w.reboot
  }

  predicate Stops(w: World, g: Guard) {
    match g
    case Unguarded => false
    case ForHeartbeat(gen, mode) => w.p.desiredGen != gen || Fences(w, mode)
    case ForRequest(request) => !Current(w.d, request)
  }

  datatype Done = Reply(answer: Answer) | Cancelled | TimedOut | Closed | LoginFailed

  // ---- what a command adds to the log of writes ------------------------------------------

  function Count(ws: seq<Write>): nat {
    if ws == [] then 0 else Count(ws[..|ws| - 1]) + if ws[|ws| - 1].line.LoginLine? then 0 else 1
  }

  // Every write is allowed by the guard at the moment it is made.
  ghost predicate Allowed(wr: Write, from: World, guard: Guard) {
    Evolves(from, wr.seen) && !Stops(wr.seen, guard)
  }

  // At most so many writes of the line, and nothing else but logins.
  ghost predicate Wrote(before: seq<Write>, after: seq<Write>, from: World, line: Line, guard: Guard, most: nat) {
    && before <= after && Count(after[|before|..]) <= most
    && forall i :: |before| <= i < |after| ==>
      Allowed(after[i], from, guard) && (after[i].line.LoginLine? || after[i].line == line)
  }

  ghost predicate LoginsOnly(before: seq<Write>, after: seq<Write>, from: World, guard: Guard) {
    before <= after && forall i :: |before| <= i < |after| ==> Allowed(after[i], from, guard) && after[i].line.LoginLine?
  }

  // At least so many writes that are not logins.
  predicate AtLeast(before: seq<Write>, after: seq<Write>, n: nat) {
    before <= after && Count(after[|before|..]) >= n
  }

  lemma AtLeastMore(a: seq<Write>, b: seq<Write>, c: seq<Write>, m: nat, n: nat)
    requires AtLeast(a, b, m) && AtLeast(b, c, n)
    ensures AtLeast(a, c, m + n)
  {
    JoinCounts(a, b, c);
  }

  lemma OneWritten(log: seq<Write>, wr: Write)
    requires !wr.line.LoginLine?
    ensures AtLeast(log, log + [wr], 1)
  {
    assert (log + [wr])[|log|..] == [wr] && [wr][..0] == [];
  }

  // A reply belongs to the write before it.
  predicate EndsWith(before: seq<Write>, after: seq<Write>, line: Line) {
    |before| < |after| && after[|after| - 1].line == line
  }

  lemma {:induction false} CountAppend(a: seq<Write>, b: seq<Write>)
    ensures Count(a + b) == Count(a) + Count(b)
    decreases |b|
  {
    if b == [] {
      assert a + b == a;
    } else {
      CountAppend(a, b[..|b| - 1]);
      assert (a + b)[..|a + b| - 1] == a + b[..|b| - 1];
    }
  }

  lemma {:induction false} LoginsDoNotCount(ws: seq<Write>)
    requires forall i :: 0 <= i < |ws| ==> ws[i].line.LoginLine?
    ensures Count(ws) == 0
  {
    if ws != [] {
      LoginsDoNotCount(ws[..|ws| - 1]);
    }
  }

  lemma WroteThenWrote(a: seq<Write>, b: seq<Write>, c: seq<Write>, u: World, v: World, line: Line, guard: Guard,
                       m: nat, n: nat)
    requires Wrote(a, b, u, line, guard, m) && Wrote(b, c, v, line, guard, n) && Evolves(u, v)
    ensures Wrote(a, c, u, line, guard, m + n)
  {
    JoinCounts(a, b, c);
    forall i | |a| <= i < |c|
      ensures Allowed(c[i], u, guard) && (c[i].line.LoginLine? || c[i].line == line)
    {
      if i < |b| {
        assert c[i] == b[i];
      } else {
        AllowedEarlier(c[i], u, v, guard);
      }
    }
  }

  lemma JoinCounts(a: seq<Write>, b: seq<Write>, c: seq<Write>)
    requires a <= b <= c
    ensures Count(c[|a|..]) == Count(b[|a|..]) + Count(c[|b|..])
  {
    assert c[|a|..] == b[|a|..] + c[|b|..];
    CountAppend(b[|a|..], c[|b|..]);
  }

  lemma AllowedEarlier(wr: Write, u: World, v: World, guard: Guard)
    requires Evolves(u, v) && Allowed(wr, v, guard)
    ensures Allowed(wr, u, guard)
  {
  }

  lemma WroteThenLogins(a: seq<Write>, b: seq<Write>, c: seq<Write>, u: World, v: World, line: Line, guard: Guard,
                        m: nat)
    requires Wrote(a, b, u, line, guard, m) && LoginsOnly(b, c, v, guard) && Evolves(u, v)
    ensures Wrote(a, c, u, line, guard, m)
  {
    LoginsDoNotCount(c[|b|..]);
    WroteThenWrote(a, b, c, u, v, line, guard, m, 0);
  }

  lemma WroteThenOne(a: seq<Write>, b: seq<Write>, u: World, w: World, line: Line, guard: Guard, m: nat)
    requires Wrote(a, b, u, line, guard, m) && Evolves(u, w) && !Stops(w, guard)
    ensures Wrote(a, b + [Write(line, w)], u, line, guard, m + 1)
  {
    var one := [Write(line, w)];
    assert (b + one)[|b|..] == one && one[..0] == [];
    WroteThenWrote(a, b, b + one, u, w, line, guard, m, 1);
  }

  lemma WroteNothing(a: seq<Write>, u: World, line: Line, guard: Guard)
    ensures Wrote(a, a, u, line, guard, 0)
  {
    assert a[|a|..] == [];
  }

  lemma MoreLogins(a: seq<Write>, b: seq<Write>, c: seq<Write>, u: World, v: World, w: World, guard: Guard)
    requires LoginsOnly(a, b, u, guard) && LoginsOnly(b, c, v, guard) && Evolves(u, v) && Evolves(v, w)
    ensures LoginsOnly(a, c, u, guard) && Evolves(u, w) && u.logins <= v.logins <= w.logins
  {
    forall i | |a| <= i < |c|
      ensures Allowed(c[i], u, guard) && c[i].line.LoginLine?
    {
      if i < |b| {
        assert c[i] == b[i];
      } else {
        AllowedEarlier(c[i], u, v, guard);
      }
    }
  }

  // What a call does to the shared state and to the script.
  ghost predicate Moved(script: seq<Moment>, at: nat, w: World, at': nat, w': World) {
    Evolves(w, w') && (Sound(w) ==> Sound(w')) && Onward(script, at, at')
  }

  predicate Onward(script: seq<Moment>, at: nat, at': nat) {
    at <= at' && (at <= |script| ==> at' <= |script|)
  }

  // ---- the session --------------------------------------------------------------------------

  class Session {
    const script: seq<Moment>
    var at: nat
    var w: World
    var log: seq<Write>

    constructor (script: seq<Moment>, w: World)
      ensures this.script == script && at == 0 && this.w == w && log == []
    {
      this.script, at, this.w, log := script, 0, w, [];
    }

    // A suspension point; the script running out closes the link.
    method Await() returns (m: Moment)
      modifies this
      ensures log == old(log) && Moved(script, old(at), old(w), at, w)
      ensures if old(at) < |script| then at == old(at) + 1 && m == script[old(at)] && w == HappenAll(old(w), m.events)
        else at == old(at) && m == END && w == old(w)
    {
      HappenAllEvolves(w, if at < |script| then script[at].events else []);
      if at < |script| {
        m := script[at];
        w, at := HappenAll(w, m.events), at + 1;
      } else {
        m := END;
      }
    }

    // Nothing happens during suspension k.
    predicate Silent(k: nat) {
      k < |script| && script[k].events == []
    }

    // So does a whole command.
    predicate Undisturbed(k: nat) {
      Silent(k) && GoodExchange(k + 1) && script[k + 2].answer != AuthRequired
    }

    predicate Says(r: Done, answer: Answer) {
      r == Reply(answer)
    }

    // From suspension k a line goes out undisturbed and is answered.
    predicate GoodExchange(k: nat) {
      && Silent(k) && !script[k].closed && Silent(k + 1)
      && script[k + 1].answer != NoReply && script[k + 1].answer != Hangup
    }

    // _drain_stale and the guard check behind it.
    method DrainAndCheck(guard: Guard) returns (stop: Option<Done>)
      modifies this
      ensures log == old(log) && Moved(script, old(at), old(w), at, w)
      ensures stop.None? ==> !Stops(w, guard)
      ensures at > old(at) || stop == Some(Closed)
      ensures stop.None? ==> at == old(at) + 1
      ensures stop == Some(Cancelled) ==> Stops(w, guard)
      ensures stop.Some? ==> !stop.value.LoginFailed?
      ensures Silent(old(at)) && !script[old(at)].closed && !Stops(old(w), guard) ==> stop.None? && w == old(w)
      ensures stop.Some? ==> !stop.value.Reply? && !stop.value.TimedOut?
    {
      var m := Await();
      if m.closed {
        return Some(Closed);
      }
      if Stops(w, guard) {
        return Some(Cancelled);
      }
      return None;
    }

    // Where in the script the k-th login of a call waits for its answer.
    function LoginWait(start: nat, k: int): int {
      start + 3 * k - 2
    }

    predicate Again(wait: int, k: nat) {
      0 <= wait < |script| && (script[wait].login.Lockout? || (script[wait].login.NoLogin? && k < 3))
    }

    predicate GaveUp(wait: int, k: nat) {
      0 <= wait < |script| && (script[wait].login.Rejected? || (script[wait].login.NoLogin? && k >= 3))
    }

    // _login_locked: only login lines are written, each behind a passed guard.
    method Login(guard: Guard) returns (stop: Option<Done>)
      modifies this
      ensures LoginsOnly(old(log), log, old(w), guard)
      ensures Moved(script, old(at), old(w), at, w)
      ensures stop.None? ==> w.logins > old(w).logins
      ensures stop == Some(Cancelled) ==> Stops(w, guard)
      ensures stop.Some? ==> !stop.value.Reply? && !stop.value.TimedOut?
      // Each further login follows a lockout, or one of the first two silences.
      ensures forall k: nat :: 1 <= k < |log| - |old(log)| ==> Again(LoginWait(old(at), k), k)
      ensures stop == Some(LoginFailed) ==> GaveUp(LoginWait(old(at), |log| - |old(log)|), |log| - |old(log)|)
    {
      hide Evolves, Stops;
      EvolvesSelf(w);
      var attempt := 0;
      ghost var log0, w0 := log, w;
      while true
        invariant LoginsOnly(log0, log, w0, guard)
        invariant Moved(script, old(at), w0, at, w) && w0.logins <= w.logins
        invariant |log| - |log0| == attempt && (at == old(at) + 3 * attempt || at >= |script|)
        invariant forall k: nat :: 1 <= k <= attempt ==> Again(LoginWait(old(at), k), k)
        decreases |script| - at
      {
        attempt := attempt + 1;
        ghost var log1, w1 := log, w;
        var over;
        over, stop := TryLogin(guard, attempt >= 3);
        MoreLogins(log0, log1, log, w0, w1, w, guard);
        if over {
          return;
        }
        ghost var w2 := w;
        var _ := Await();
        EvolvesThrough(w0, w2, w);
      }
    }

    // One attempt: over unless the device was silent or locked the login out.
    method TryLogin(guard: Guard, last: bool) returns (over: bool, stop: Option<Done>)
      modifies this
      ensures LoginsOnly(old(log), log, old(w), guard) && |log| <= |old(log)| + 1
      ensures Moved(script, old(at), old(w), at, w)
      ensures over && stop.None? ==> w.logins > old(w).logins
      ensures stop == Some(Cancelled) ==> Stops(w, guard)
      ensures stop.Some? ==> over && !stop.value.Reply? && !stop.value.TimedOut?
      ensures stop == Some(LoginFailed) ==> |log| == |old(log)| + 1 && GaveUp(old(at) + 1, if last then 3 else 2)
      ensures !over ==> |log| == |old(log)| + 1 && at == old(at) + 2 && Again(old(at) + 1, if last then 3 else 2)
    {
      over := true;
      if Stops(w, guard) {
        return true, Some(Cancelled);
      }
      stop := DrainAndCheck(guard);
      if stop.Some? {
        return;
      }
      log := log + [Write(LoginLine, w)];
      var m := Await();
      if m.login.LoginHangup? {
        return true, Some(Closed);
      }
      if m.login.Rejected? {
        return true, Some(LoginFailed);
      }
      if Stops(w, guard) {
        return true, Some(Cancelled);
      }
      if m.login.Welcome? {
        LoginEvolves(w);
        w := LoggedIn(w);
        return true, None;
      }
      if m.login.NoLogin? && last {
        return true, Some(LoginFailed);
      }
      over := false;
    }

    method Collect() returns (r: Done)
      modifies this
      ensures log == old(log) && Moved(script, old(at), old(w), at, w)
      ensures !r.Cancelled? && !r.LoginFailed?
      ensures Silent(old(at)) ==> w == old(w) && at == old(at) + 1
      ensures Silent(old(at)) && script[old(at)].answer != NoReply && script[old(at)].answer != Hangup ==>
        r == Reply(script[old(at)].answer)
    {
      var m := Await();
      r := match m.answer
        case NoReply => TimedOut
        case Hangup => Closed
        case a => Reply(a);
    }

    // _command_once
    method CommandOnce(line: Line, authReplay: bool, guard: Guard) returns (r: Done)
      requires !line.LoginLine?
      modifies this
      ensures Wrote(old(log), log, old(w), line, guard, if authReplay then 2 else 1)
      ensures Moved(script, old(at), old(w), at, w)
      ensures !authReplay ==> forall i :: |old(log)| <= i < |log| ==> log[i].line == line
      ensures r.Reply? ==> EndsWith(old(log), log, line)
      ensures r.Reply? || r.TimedOut? ==> AtLeast(old(log), log, if r.Reply? && r.answer.AuthRequired? then 2 else 1)
      ensures at > old(at) || r.Closed?
      ensures r.Cancelled? ==> Stops(w, guard)
      ensures GoodExchange(old(at)) && !Stops(old(w), guard) && script[old(at) + 1].answer != AuthRequired ==>
        Says(r, script[old(at) + 1].answer) && log == old(log) + [Write(line, old(w))] && w == old(w) && at == old(at) + 2
    {
      ghost var log0, w0 := log, w;
      WroteNothing(log, w, line, guard);
      r := Exchange(line, guard, log0, w0, 0);
      if r.Reply? && r.answer.AuthRequired? {
        w := MarkReboot(w);
        if !authReplay {
          return Closed;
        }
        ghost var log1 := log;
        r := AuthReplay(line, guard, log0, w0);
        if r.Reply? || r.TimedOut? {
          AtLeastMore(log0, log1, log, 1, 1);
        }
      }
    }

    // The command did not run: log in and send it again.
    method AuthReplay(line: Line, guard: Guard, ghost log0: seq<Write>, ghost w0: World) returns (r: Done)
      requires !line.LoginLine? && Wrote(log0, log, w0, line, guard, 1) && Evolves(w0, w)
      modifies this
      ensures Wrote(log0, log, w0, line, guard, 2)
      ensures Moved(script, old(at), old(w), at, w)
      ensures r.Reply? ==> EndsWith(old(log), log, line)
      ensures r.Reply? || r.TimedOut? ==> AtLeast(old(log), log, 1)
      ensures r.Cancelled? ==> Stops(w, guard)
    {
      if Stops(w, guard) {
        return Cancelled;
      }
      ghost var was := log;
      var stop := Relogin(line, guard, log0, w0, 1);
      if stop.Some? {
        return stop.value;
      }
      ghost var between := log;
      r := Exchange(line, guard, log0, w0, 1);
      if r.Reply? || r.TimedOut? {
        AtLeastMore(was, between, log, 0, 1);
      }
    }

    // Drain, check, write, collect.
    method Exchange(line: Line, guard: Guard, ghost log0: seq<Write>, ghost w0: World, ghost n: nat) returns (r: Done)
      requires !line.LoginLine? && Wrote(log0, log, w0, line, guard, n) && Evolves(w0, w)
      modifies this
      ensures Wrote(log0, log, w0, line, guard, n + 1)
      ensures Moved(script, old(at), old(w), at, w)
      ensures forall i :: |old(log)| <= i < |log| ==> log[i].line == line
      ensures r.Reply? ==> EndsWith(old(log), log, line)
      ensures r.Reply? || r.TimedOut? ==> AtLeast(old(log), log, 1)
      ensures at > old(at) || r.Closed?
      ensures r.Cancelled? ==> Stops(w, guard)
      ensures GoodExchange(old(at)) && !Stops(old(w), guard) ==>
        Says(r, script[old(at) + 1].answer) && log == old(log) + [Write(line, old(w))] && w == old(w) && at == old(at) + 2
    {
      var stop := DrainAndCheck(guard);
      if stop.Some? {
        return stop.value;
      }
      WroteThenOne(log0, log, w0, w, line, guard, n);
      OneWritten(log, Write(line, w));
      log := log + [Write(line, w)];
      r := Collect();
    }

    method Relogin(ghost line: Line, guard: Guard, ghost log0: seq<Write>, ghost w0: World, ghost n: nat)
      returns (stop: Option<Done>)
      requires Wrote(log0, log, w0, line, guard, n) && Evolves(w0, w)
      modifies this
      ensures Wrote(log0, log, w0, line, guard, n) && AtLeast(old(log), log, 0)
      ensures Moved(script, old(at), old(w), at, w)
      ensures stop.Some? ==> !stop.value.Reply? && !stop.value.TimedOut?
      ensures stop == Some(Cancelled) ==> Stops(w, guard)
    {
      ghost var was, from := log, w;
      stop := Login(guard);
      assert AtLeast(was, log, 0);
      WroteThenLogins(log0, was, log, w0, from, line, guard, n);
    }

    // Session.command: never more writes than the replay flags allow, each directly behind
    // a passed guard; a reply is returned only while the guard still allows it.
    method Command(line: Line, replay: bool, authReplay: bool, guard: Guard) returns (r: Done)
      requires !line.LoginLine?
      modifies this
      ensures Wrote(old(log), log, old(w), line, guard, Most(replay, authReplay))
      ensures Moved(script, old(at), old(w), at, w)
      ensures r.Reply? ==> !Stops(w, guard) && EndsWith(old(log), log, line)
      ensures r.Reply? || r.TimedOut? ==>
        AtLeast(old(log), log, if (r.TimedOut? && replay) || (r.Reply? && r.answer.AuthRequired?) then 2 else 1)
      ensures at > old(at) || r.Closed? || Stops(old(w), guard)
      ensures !replay && !authReplay ==> forall i :: |old(log)| <= i < |log| ==> log[i].line == line
      ensures r.Cancelled? ==> Stops(w, guard)
      // Undisturbed, the line is written once and its answer is returned.
      ensures Undisturbed(old(at)) && !Stops(old(w), guard) ==>
        && Says(r, script[old(at) + 2].answer) && log == old(log) + [Write(line, old(w))]
        && w == old(w) && at == old(at) + 3
    {
      ghost var log0, w0 := log, w;
      WroteNothing(log, w, line, guard);
      var _ := Await();
      if Stops(w, guard) {
        return Cancelled;
      }
      r := OnceMore(line, authReplay, guard, log0, w0, 0);
      if r.TimedOut? && replay {
        ghost var log1 := log;
        r := Replay(line, authReplay, guard, log0, w0);
        if r.Reply? || r.TimedOut? {
          AtLeastMore(log0, log1, log, 1, if r.Reply? && r.answer.AuthRequired? then 2 else 1);
        }
      }
      if r.Reply? && Stops(w, guard) {
        return Cancelled;
      }
    }

    // After a timeout: log in again and run the command once more.
    method Replay(line: Line, authReplay: bool, guard: Guard, ghost log0: seq<Write>, ghost w0: World)
      returns (r: Done)
      requires !line.LoginLine? && Wrote(log0, log, w0, line, guard, Most(false, authReplay)) && Evolves(w0, w)
      modifies this
      ensures Wrote(log0, log, w0, line, guard, Most(true, authReplay))
      ensures Moved(script, old(at), old(w), at, w)
      ensures r.Reply? ==> EndsWith(old(log), log, line)
      ensures r.Reply? || r.TimedOut? ==> AtLeast(old(log), log, if r.Reply? && r.answer.AuthRequired? then 2 else 1)
      ensures r.Cancelled? ==> Stops(w, guard)
    {
      if Stops(w, guard) {
        return Cancelled;
      }
      ghost var was := log;
      var stop := Relogin(line, guard, log0, w0, Most(false, authReplay));
      if stop.Some? {
        return stop.value;
      }
      if Stops(w, guard) {
        return Cancelled;
      }
      ghost var between := log;
      r := OnceMore(line, authReplay, guard, log0, w0, Most(false, authReplay));
      if r.Reply? || r.TimedOut? {
        AtLeastMore(was, between, log, 0, if r.Reply? && r.answer.AuthRequired? then 2 else 1);
      }
    }

    method OnceMore(line: Line, authReplay: bool, guard: Guard, ghost log0: seq<Write>, ghost w0: World, ghost n: nat)
      returns (r: Done)
      requires !line.LoginLine? && Wrote(log0, log, w0, line, guard, n) && Evolves(w0, w)
      modifies this
      ensures Wrote(log0, log, w0, line, guard, n + Most(false, authReplay))
      ensures Moved(script, old(at), old(w), at, w)
      ensures !authReplay ==> forall i :: |old(log)| <= i < |log| ==> log[i].line == line
      ensures r.Reply? ==> EndsWith(old(log), log, line)
      ensures r.Reply? || r.TimedOut? ==> AtLeast(old(log), log, if r.Reply? && r.answer.AuthRequired? then 2 else 1)
      ensures at > old(at) || r.Closed?
      ensures r.Cancelled? ==> Stops(w, guard)
      ensures GoodExchange(old(at)) && !Stops(old(w), guard) && script[old(at) + 1].answer != AuthRequired ==>
        Says(r, script[old(at) + 1].answer) && log == old(log) + [Write(line, old(w))] && w == old(w) && at == old(at) + 2
    {
      ghost var was, from := log, w;
      r := CommandOnce(line, authReplay, guard);
      WroteThenWrote(log0, was, log, w0, from, line, guard, n, Most(false, authReplay));
    }
  }

  // How often one command line may be written.
  function Most(replay: bool, authReplay: bool): nat {
    (if replay then 2 else 1) * (if authReplay then 2 else 1)
  }
}
