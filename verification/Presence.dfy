// The CM5 heartbeat actor: one writer of presence, fenced by mode generation and by the
// reboot suspicion.

module PresenceActor {
  import opened Bytes
  import opened LinkWorld
  import opened UartSession

  const SEQUENCES := 0x1_0000_0000
  const MAX_CORRUPT_HEARTBEATS := 3

  // _next_sequence: 32 bits, skipping zero.
  function NextSequence(n: nat): (next: nat)
    ensures 0 < next < SEQUENCES
    ensures n + 1 < SEQUENCES ==> next == n + 1
    ensures n + 1 == SEQUENCES ==> next == 1
  {
    var next := (n + 1) % SEQUENCES;
    if next == 0 then 1 else next
  }

  // A heartbeat speaks for the state at the moment it is written: the mode and the
  // generation wanted then, and STARTING if a reboot is suspected then.
  predicate Truthful(wr: Write) {
    && wr.line.Heartbeat? && 0 < wr.line.seqNo < SEQUENCES
    && wr.line.gen == wr.seen.p.desiredGen && wr.line.mode == wr.seen.p.desired
    && (wr.seen.reboot ==> wr.line.mode == Starting)
  }

  ghost predicate AllTruthful(log: seq<Write>) {
    forall i :: 0 <= i < |log| ==> log[i].line.LoginLine? || Truthful(log[i])
  }

  // An acknowledged generation was carried by a heartbeat that was written.
  ghost predicate AckedWasSent(log: seq<Write>, acked: nat) {
    acked > 0 ==> exists i :: 0 <= i < |log| && log[i].line.Heartbeat? && log[i].line.gen == acked
  }

  // The line was composed from the state as it was at from.
  predicate Snapshot(line: Line, from: World) {
    && line.Heartbeat? && 0 < line.seqNo < SEQUENCES
    && line.gen == from.p.desiredGen && line.mode == from.p.desired
  }

  lemma GuardedIsTruthful(before: seq<Write>, after: seq<Write>, from: World, line: Line, guard: Guard, most: nat)
    requires AllTruthful(before) && Wrote(before, after, from, line, guard, most)
    requires Snapshot(line, from) && guard == ForHeartbeat(line.gen, line.mode)
    ensures AllTruthful(after)
  {
    forall i | 0 <= i < |after|
      ensures after[i].line.LoginLine? || Truthful(after[i])
    {
      if i < |before| {
        assert after[i] == before[i];
      } else {
        assert Allowed(after[i], from, guard);
      }
    }
  }

  lemma AckedStaysSent(before: seq<Write>, after: seq<Write>, acked: nat)
    requires before <= after && AckedWasSent(before, acked)
    ensures AckedWasSent(after, acked)
  {
    if acked > 0 {
      var i :| 0 <= i < |before| && before[i].line.Heartbeat? && before[i].line.gen == acked;
      assert after[i] == before[i];
    }
  }

  class Cm5Presence {
    const session: Session
    var sequence: nat
    var lastSent: nat
    var corruptStreak: nat

    constructor (session: Session)
      ensures this.session == session && sequence == 0 && lastSent == 0 && corruptStreak == 0
    {
      this.session, sequence, lastSent, corruptStreak := session, 0, 0, 0;
    }

    ghost predicate Valid()
      reads this, session
    {
      Sound(session.w) && AllTruthful(session.log) && AckedWasSent(session.log, session.w.p.acked)
    }

    // The mode wanted has not been sent yet.
    predicate NewMode()
      reads this, session
    {
      session.w.p.desiredGen != lastSent
    }

    predicate Free()
      reads session
    {
      !Fences(session.w, session.w.p.desired)
    }

    // The deadline passes, and nothing else happens.
    predicate Elapses(k: nat) {
      session.Silent(k) && session.script[k].due
    }

    // One heartbeat more, for what is wanted; an OK makes it the acknowledged one.
    ghost predicate Sent(log: seq<Write>, number: nat, from: World, answer: Answer)
      reads this, session
    {
      && sequence == NextSequence(number)
      && session.log == log + [Write(Heartbeat(sequence, from.p.desired, from.p.desiredGen), from)]
      && (answer == Okay ==>
            lastSent == from.p.desiredGen && session.w.p.supported == Some(true) && session.w.p.acked >= from.p.desiredGen)
    }

    // One turn of the actor's loop; false when it raises.
    method Turn() returns (alive: bool)
      requires Valid()
      modifies this, session
      ensures Valid() && Onward(session.script, old(session.at), session.at)
      ensures alive ==> session.at > old(session.at)
      // A new mode, or a deadline that passes quietly, puts a heartbeat of its own number on
      // the wire; once answered it is the acknowledged one.
      ensures old(NewMode()) && old(Free()) && session.Undisturbed(old(session.at)) ==>
        Sent(old(session.log), old(sequence), old(session.w), session.script[old(session.at) + 2].answer)
      ensures !old(NewMode()) && old(Free()) && Elapses(old(session.at)) && session.Undisturbed(old(session.at) + 1) ==>
        Sent(old(session.log), old(sequence), old(session.w), session.script[old(session.at) + 3].answer)
      // Until then nothing is said.
      ensures !old(NewMode()) && old(session.at) < |session.script| && !session.script[old(session.at)].due ==>
        session.log == old(session.log) && sequence == old(sequence) && alive
    {
      ghost var from := session.w;
      var generation, mode := session.w.p.desiredGen, session.w.p.desired;
      if generation == lastSent {
        // Nothing new to say: sleep until the deadline or a state change.
        var m := session.Await();
        if !m.due {
          return true;
        }
      }
      sequence := NextSequence(sequence);
      if Fences(session.w, mode) {
        return false;
      }
      alive := Beat(Heartbeat(sequence, mode, generation), from);
    }

    method Beat(line: Line, ghost from: World) returns (alive: bool)
      requires Valid() && Snapshot(line, from) && Evolves(from, session.w) && !Fences(session.w, line.mode)
      modifies this, session
      ensures Valid() && Onward(session.script, old(session.at), session.at)
      ensures alive ==> session.at > old(session.at) || from != old(session.w)
      // Only an accepted beat counts as sent, and three damaged ones in a row end the actor.
      ensures lastSent == old(lastSent)
        || (lastSent == line.gen == session.w.p.acked && session.w.p.supported == Some(true) && corruptStreak == 0)
      ensures old(corruptStreak) < MAX_CORRUPT_HEARTBEATS && alive ==> corruptStreak < MAX_CORRUPT_HEARTBEATS
      ensures sequence == old(sequence)
      ensures session.Undisturbed(old(session.at)) && from == old(session.w) ==>
        && session.log == old(session.log) + [Write(line, from)]
        && (session.script[old(session.at) + 2].answer == Okay ==>
              lastSent == line.gen && session.w.p.supported == Some(true) && session.w.p.acked >= line.gen)
    {
      var guard := ForHeartbeat(line.gen, line.mode);
      ghost var before, now := session.log, session.w;
      var r := session.Command(line, false, true, guard);
      assert Evolves(from, now);
      GuardedIsTruthful(before, session.log, from, line, guard, 2);
      AckedStaysSent(before, session.log, session.w.p.acked);
      match r
      case Cancelled => return !Fences(session.w, line.mode);
      case TimedOut => return false;
      case Closed => return false;
      case LoginFailed => return false;
      case Reply(answer) =>
        match answer
        case Okay =>
          corruptStreak, lastSent := 0, line.gen;
          session.w := Acknowledge(session.w, Some(true), line.gen);
          return true;
        case UnknownVerb =>
          session.w := Acknowledge(session.w, Some(false), session.w.p.desiredGen);
          var _ := session.Await();
          session.w := session.w.(p := session.w.p.(supported := None));
          return true;
        case DamagedVerb =>
          corruptStreak := corruptStreak + 1;
          return corruptStreak < MAX_CORRUPT_HEARTBEATS;
        case _ => return false;
    }
  }

  function Acknowledge(w: World, supported: Option<bool>, generation: nat): World {
    w.(p := w.p.(supported := supported, acked := if generation > w.p.acked then generation else w.p.acked))
  }

  // Every run, whatever the link and the other tasks do: each heartbeat on the wire is
  // truthful, and an acknowledgement stands for one that was sent.
  method Run(script: seq<Moment>) returns (log: seq<Write>, w: World)
    ensures AllTruthful(log) && AckedWasSent(log, w.p.acked) && w.p.acked <= w.p.desiredGen
  {
    var session := new Session(script, BOOT);
    var actor := new Cm5Presence(session);
    var alive := true;
    while alive
      invariant actor.Valid() && actor.session == session && fresh(session) && fresh(actor)
      invariant session.at <= |session.script|
      decreases |session.script| - session.at, alive
    {
      alive := actor.Turn();
    }
    log, w := session.log, session.w;
  }
}
