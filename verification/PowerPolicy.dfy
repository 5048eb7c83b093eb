// Automatic power profile: a lease count, a debounced idle timer, and profile
// requests, serialized by one policy lock.  Each function below is the stretch of
// a coroutine between two awaits.

module PowerPolicy {
  import opened Bytes

  datatype Profile = Unknown | Eco | Balanced | Performance | Auto

  predicate Concrete(p: Profile) {
    p != Unknown && p != Auto
  }

  datatype Config = Config(active: Profile, idle: Profile, delay: nat)

  predicate ValidConfig(c: Config) {
    Concrete(c.active) && Concrete(c.idle)
  }

  // Who holds the policy lock, awaiting the helper.
  datatype Holder = Free | Starting | Finishing | Requesting(mode: Profile, target: Profile) | TimerApplying | Closing

  // The idle task: it carries the generation it was scheduled with.
  datatype Timer = NoTimer | Sleeping(gen: nat) | AwaitingLock(gen: nat) | Applying(gen: nat)

  datatype State = State(
    mode: Profile, applied: Profile, count: nat, gen: nat, timer: Timer, holder: Holder, closed: bool,
    leases: nat)   // starts that returned, minus finishes that took effect

  // The helper's answer, with the profile it reads back on failure.
  datatype Answer = Done | Failed(observed: Profile) | Cancelled

  function Target(c: Config, mode: Profile, count: nat): Profile {
    if mode != Auto then mode else if count > 0 then c.active else c.idle
  }

  // State after start() has applied the configured baseline.
  function Started(c: Config, mode: Profile): State {
    State(mode, Target(c, mode, 0), 0, 0, NoTimer, Free, false, 0)
  }

  function Invalidate(s: State): State {
    s.(gen := s.gen + 1, timer := NoTimer)
  }

  function ScheduleIdle(s: State): State {
    Invalidate(s).(timer := Sleeping(s.gen + 1))
  }

  datatype Step =
    | ActivityBegin | ActivityEnd(a: Answer)
    | FinishBegin | FinishEnd(a: Answer)
    | RequestBegin(mode: Profile) | RequestEnd(a: Answer)
    | TimerExpires | TimerLocks | TimerEnd(a: Answer)
    | CloseBegin | CloseLocks | CloseEnd(a: Answer)

  predicate Enabled(s: State, x: Step) {
    match x
    case ActivityBegin => s.holder == Free
    case ActivityEnd(_) => s.holder == Starting
    case FinishBegin => s.holder == Free
    case FinishEnd(_) => s.holder == Finishing
    case RequestBegin(m) => s.holder == Free && m != Unknown
    case RequestEnd(_) => s.holder.Requesting?
    case TimerExpires => s.timer.Sleeping?
    case TimerLocks => s.timer.AwaitingLock? && s.holder == Free
    case TimerEnd(a) => s.holder == TimerApplying && a != Cancelled
    case CloseBegin => !s.closed
    case CloseLocks => s.closed && s.holder == Free
    case CloseEnd(_) => s.holder == Closing
  }

  function ReadBack(s: State, target: Profile, a: Answer): State {
    match a
    case Done => s.(applied := target)
    case Failed(observed) => s.(applied := observed)
    case Cancelled => s
  }

  predicate IdleStillWanted(s: State, gen: nat) {
    gen == s.gen && s.count == 0 && s.mode == Auto
  }

  function Next(c: Config, s: State, x: Step): State
    requires Enabled(s, x)
  {
    match x
    case ActivityBegin =>
      var s1 := Invalidate(s.(count := s.count + 1));
      if s1.mode == Auto && s1.count == 1 then s1.(holder := Starting) else s1.(leases := s.leases + 1)
    case ActivityEnd(a) =>
      if a == Cancelled then
        var s1 := s.(holder := Free, count := if s.count == 0 then 0 else s.count - 1);
        if s1.count == 0 && s1.mode == Auto then ScheduleIdle(s1) else s1
      else ReadBack(s, c.active, a).(holder := Free, leases := s.leases + 1)
    case FinishBegin =>
      if s.count == 0 then s
      else
        var s1 := s.(count := s.count - 1, leases := if s.leases == 0 then 0 else s.leases - 1);
        if s1.count == 0 && s1.mode == Auto then
          if c.delay == 0 then s1.(holder := Finishing) else ScheduleIdle(s1)
        else s1
    case FinishEnd(a) => ReadBack(s, c.idle, a).(holder := Free)
    case RequestBegin(m) => Invalidate(s).(holder := Requesting(m, Target(c, m, s.count)))
    case RequestEnd(a) =>
      var s1 := ReadBack(s, s.holder.target, a).(holder := Free);
      if a == Done then s1.(mode := s.holder.mode)
      else if a.Failed? && s1.mode == Auto && s1.count == 0 then ScheduleIdle(s1)
      else s1
    case TimerExpires =>
      if IdleStillWanted(s, s.timer.gen) then s.(timer := AwaitingLock(s.timer.gen)) else s.(timer := NoTimer)
    case TimerLocks =>
      if IdleStillWanted(s, s.timer.gen) then s.(timer := Applying(s.timer.gen), holder := TimerApplying)
      else s.(timer := NoTimer)
    case TimerEnd(a) => ReadBack(s, c.idle, a).(timer := NoTimer, holder := Free)
    case CloseBegin =>
      // Cancels the idle task even while it holds the lock.
      Invalidate(s).(closed := true, holder := if s.holder == TimerApplying then Free else s.holder)
    case CloseLocks => if s.mode == Auto then s.(holder := Closing) else s
    case CloseEnd(a) => ReadBack(s, c.idle, a).(holder := Free)
  }

  // ---- the policy -------------------------------------------------------------------

  // What should hold whenever nobody is in the middle of a change: a profile that was
  // asked for is applied as it is; on auto, the active one while a lease is held, and
  // otherwise the idle one or a timer that is about to apply it.
  predicate Settled(c: Config, s: State) {
    if s.mode != Auto then s.applied == s.mode
    else if s.count > 0 then s.applied == c.active
    else s.applied == c.idle || (s.timer != NoTimer && s.timer.gen == s.gen)
  }

  // The profile that a request for m is to apply.
  predicate Meant(c: Config, m: Profile, count: nat, p: Profile) {
    && (m != Auto ==> p == m)
    && (m == Auto && count > 0 ==> p == c.active)
    && (m == Auto && count == 0 ==> p == c.idle)
  }

  predicate TimerOk(s: State) {
    s.timer != NoTimer ==> s.timer.gen == s.gen && s.count == 0 && s.mode == Auto
  }

  predicate Inv(c: Config, s: State) {
    && TimerOk(s)
    && s.mode != Unknown
    && s.count == s.leases + (if s.holder == Starting then 1 else 0)
    && (s.timer.Applying? <==> s.holder == TimerApplying)
    && match s.holder
       case Free => Settled(c, s) || s.closed
       case Starting => s.mode == Auto && s.count == 1 && s.timer == NoTimer
       case Finishing => s.mode == Auto && s.count == 0 && s.timer == NoTimer
       case Requesting(m, t) =>
         m != Unknown && Meant(c, m, s.count, t) && s.timer == NoTimer
         && (s.mode == Auto && s.count > 0 ==> s.applied == c.active || s.closed)
         && (s.mode != Auto ==> s.applied == s.mode || s.closed)
       case TimerApplying => true
       case Closing => s.closed
  }

  // Whether a helper answer leaves the policy settled.  A success always does; so
  // does cancelling a start, because its increment is rolled back.
  predicate Harmless(c: Config, s: State, x: Step) {
    match x
    case ActivityEnd(a) => a.Failed? ==> a.observed == c.active
    case FinishEnd(a) => (a.Failed? ==> a.observed == c.idle) && (a == Cancelled ==> s.applied == c.idle)
    case RequestEnd(a) =>
      && (a.Failed? && s.mode == Auto && s.count > 0 ==> a.observed == c.active)
      && (a.Failed? && s.mode != Auto ==> a.observed == s.mode)
      && (a == Cancelled && s.mode == Auto && s.count == 0 ==> s.applied == c.idle)
    case TimerEnd(a) => a.Failed? ==> a.observed == c.idle
    case _ => true
  }

  // A step keeps the policy exactly when its answer is harmless.
  lemma KeptExactlyWhenHarmless(c: Config, s: State, x: Step)
    requires ValidConfig(c) && Inv(c, s) && Enabled(s, x) && !s.closed
    ensures Inv(c, Next(c, s, x)) <==> Harmless(c, s, x)
  {
  }

  ghost predicate IsRun(c: Config, mode: Profile, states: seq<State>, steps: seq<Step>) {
    && |states| == |steps| + 1 && states[0] == Started(c, mode)
    && forall i :: 0 <= i < |steps| ==> Enabled(states[i], steps[i]) && states[i + 1] == Next(c, states[i], steps[i])
  }

  predicate Succeeds(x: Step) {
    match x
    case ActivityEnd(a) => a == Done || a == Cancelled
    case FinishEnd(a) => a == Done
    case RequestEnd(a) => a == Done
    case TimerEnd(a) => a == Done
    case CloseEnd(a) => a == Done
    case _ => true
  }

  lemma {:induction false} PolicyInvariant(c: Config, mode: Profile, states: seq<State>, steps: seq<Step>, i: nat)
    requires ValidConfig(c) && mode != Unknown && IsRun(c, mode, states, steps) && i < |states|
    requires forall k :: 0 <= k < i ==> !states[k].closed && Harmless(c, states[k], steps[k])
    ensures Inv(c, states[i])
  {
    if i > 0 {
      PolicyInvariant(c, mode, states, steps, i - 1);
      KeptExactlyWhenHarmless(c, states[i - 1], steps[i - 1]);
      assert states[i - 1 + 1] == Next(c, states[i - 1], steps[i - 1]);
    }
  }

  // Until close, in runs whose helper calls succeed (starts may be cancelled): with
  // the lock free, the profile that was asked for is applied; auto mode runs the active
  // profile while any lease is held, and otherwise the idle one or has a current timer
  // pending.  No lease is ever lost or counted twice.
  lemma PolicyHolds(c: Config, mode: Profile, states: seq<State>, steps: seq<Step>, i: nat)
    requires ValidConfig(c) && mode != Unknown && IsRun(c, mode, states, steps) && i < |states|
    requires forall k :: 0 <= k < i ==> Succeeds(steps[k])
    requires forall k :: 0 <= k <= i ==> !states[k].closed
    ensures states[i].holder == Free ==> Settled(c, states[i]) && states[i].count == states[i].leases
  {
    PolicyInvariant(c, mode, states, steps, i);
  }

  // From a request to its answer the lock is held for it, whatever else happens.
  lemma {:induction false} RequestHolds(c: Config, mode: Profile, states: seq<State>, steps: seq<Step>, i: nat, j: nat)
    requires IsRun(c, mode, states, steps) && i < j < |states| && steps[i].RequestBegin?
    requires forall k :: i < k < j ==> !steps[k].RequestEnd?
    ensures states[j].holder.Requesting? && states[j].holder.mode == steps[i].mode
    ensures Meant(c, steps[i].mode, states[j].count, states[j].holder.target)
    decreases j
  {
    assert states[j - 1 + 1] == Next(c, states[j - 1], steps[j - 1]) && Enabled(states[j - 1], steps[j - 1]);
    if i + 1 < j {
      RequestHolds(c, mode, states, steps, i, j - 1);
    }
  }

  // A request that the helper carries out gets the profile it asked for, and the mode.
  lemma RequestTakesEffect(c: Config, mode: Profile, states: seq<State>, steps: seq<Step>, i: nat, j: nat)
    requires IsRun(c, mode, states, steps) && i < j < |steps| && steps[i].RequestBegin? && steps[j] == RequestEnd(Done)
    requires forall k :: i < k < j ==> !steps[k].RequestEnd?
    ensures states[j + 1].mode == steps[i].mode && states[j + 1].holder == Free
    ensures Meant(c, steps[i].mode, states[j + 1].count, states[j + 1].applied)
  {
    RequestHolds(c, mode, states, steps, i, j);
    assert states[j + 1] == Next(c, states[j], steps[j]);
  }

  // The idle timer, once it has run out undisturbed, applies the idle profile; a first
  // lease on auto applies the active one.
  lemma TimersAndLeasesApply(c: Config, s: State)
    requires ValidConfig(c) && Inv(c, s) && s.holder == Free && !s.closed && s.mode == Auto
    ensures s.count == 0 && s.timer.Sleeping? ==>
      var t := Next(c, Next(c, Next(c, s, TimerExpires), TimerLocks), TimerEnd(Done));
      t.applied == c.idle && t.timer == NoTimer && t.holder == Free
    ensures s.count == 0 ==>
      var t := Next(c, Next(c, s, ActivityBegin), ActivityEnd(Done));
      t.applied == c.active && t.count == 1 && t.leases == s.leases + 1 && t.holder == Free
    ensures s.count == 1 && c.delay == 0 ==>
      var t := Next(c, Next(c, s, FinishBegin), FinishEnd(Done));
      t.applied == c.idle && t.count == 0 && t.holder == Free
    ensures s.count == 1 && c.delay > 0 ==> Next(c, s, FinishBegin).timer.Sleeping?
  {
  }

  // Nothing else changes the mode.
  lemma ModeIsAskedFor(c: Config, s: State, x: Step)
    requires Enabled(s, x) && x != RequestEnd(Done)
    ensures Next(c, s, x).mode == s.mode
  {
  }

  // A cancelled profile request is not harmless: it has already cancelled the
  // pending idle timer, and only the failure branch schedules a new one.  The last
  // lease is over, no timer is left, and the active profile stays until the request is
  // run again or something else changes the profile.
  lemma CancelledRequestPinsActive(c: Config)
    requires ValidConfig(c) && c.delay > 0 && c.active != c.idle
    ensures var s := Next(c, Next(c, Started(c, Auto), ActivityBegin), ActivityEnd(Done));
      var pending := Next(c, s, FinishBegin);
      var after := Next(c, Next(c, pending, RequestBegin(Eco)), RequestEnd(Cancelled));
      && Inv(c, pending) && after.holder == Free && after.mode == Auto && after.count == 0
      && after.timer == NoTimer && after.applied == c.active && !Settled(c, after)
  {
    var s := Next(c, Next(c, Started(c, Auto), ActivityBegin), ActivityEnd(Done));
    assert s == State(Auto, c.active, 1, 1, NoTimer, Free, false, 1);
    var pending := Next(c, s, FinishBegin);
    assert pending == State(Auto, c.active, 0, 2, Sleeping(2), Free, false, 0);
    var asked := Next(c, pending, RequestBegin(Eco));
    assert asked == State(Auto, c.active, 0, 3, NoTimer, Requesting(Eco, Eco), false, 0);
  }

  // Closing in auto mode ends on the idle profile whatever was going on.
  lemma CloseEndsIdle(c: Config, s: State)
    requires s.holder == Closing
    ensures Next(c, s, CloseEnd(Done)).applied == c.idle && Next(c, s, CloseEnd(Done)).holder == Free
  {
  }

  // ---- the object -------------------------------------------------------------------------

  class ProfilePolicy {
    const cfg: Config
    var mode: Profile
    var applied: Profile
    var activityCount: nat
    var idleGeneration: nat
    var idleTask: Timer
    var lock: Holder
    var closed: bool
    ghost var leases: nat

    ghost function View(): State
      reads this
    {
      State(mode, applied, activityCount, idleGeneration, idleTask, lock, closed, leases)
    }

    // Built by start(), once the baseline profile has been applied.
    constructor (cfg: Config, initial: Profile)
      ensures View() == Started(cfg, initial) && this.cfg == cfg
    {
      this.cfg := cfg;
      mode, applied := initial, Target(cfg, initial, 0);
      activityCount, idleGeneration, idleTask, lock, closed, leases := 0, 0, NoTimer, Free, false, 0;
    }

    method InvalidateIdleTimer()
      modifies this`idleGeneration, this`idleTask
      ensures View() == Invalidate(old(View()))
    {
      idleGeneration := idleGeneration + 1;
      idleTask := NoTimer;
    }

    method ScheduleIdleTimer()
      modifies this`idleGeneration, this`idleTask
      ensures View() == ScheduleIdle(old(View()))
    {
      InvalidateIdleTimer();
      idleTask := Sleeping(idleGeneration);
    }

    method HelperReturned(target: Profile, a: Answer)
      modifies this`applied
      ensures View() == ReadBack(old(View()), target, a)
    {
      if a == Done {
        applied := target;
      } else if a.Failed? {
        applied := a.observed;
      }
    }

    method ActivityStarted()
      requires lock == Free
      modifies this
      ensures View() == Next(cfg, old(View()), ActivityBegin)
    {
      activityCount := activityCount + 1;
      InvalidateIdleTimer();
      if mode == Auto && activityCount == 1 {
        lock := Starting;
      } else {
        leases := leases + 1;
      }
    }

    method ActivityStartedReturns(a: Answer)
      requires lock == Starting && activityCount > 0
      modifies this
      ensures View() == Next(cfg, old(View()), ActivityEnd(a))
    {
      HelperReturned(cfg.active, a);
      if a == Cancelled {
        activityCount := activityCount - 1;
        if activityCount == 0 && mode == Auto {
          ScheduleIdleTimer();
        }
      } else {
        leases := leases + 1;
      }
      lock := Free;
    }

    method ActivityFinished()
      requires lock == Free
      modifies this
      ensures View() == Next(cfg, old(View()), FinishBegin)
    {
      if activityCount == 0 {
        return;
      }
      activityCount := activityCount - 1;
      leases := if leases == 0 then 0 else leases - 1;
      if activityCount == 0 && mode == Auto {
        if cfg.delay == 0 {
          lock := Finishing;
        } else {
          ScheduleIdleTimer();
        }
      }
    }

    method ActivityFinishedReturns(a: Answer)
      requires lock == Finishing
      modifies this
      ensures View() == Next(cfg, old(View()), FinishEnd(a))
    {
      HelperReturned(cfg.idle, a);
      lock := Free;
    }

    method ApplyRequestedProfile(requested: Profile)
      requires lock == Free && requested != Unknown
      modifies this
      ensures View() == Next(cfg, old(View()), RequestBegin(requested))
    {
      InvalidateIdleTimer();
      lock := Requesting(requested, Target(cfg, requested, activityCount));
    }

    method ApplyRequestedReturns(a: Answer)
      requires lock.Requesting?
      modifies this
      ensures View() == Next(cfg, old(View()), RequestEnd(a))
    {
      HelperReturned(lock.target, a);
      if a == Done {
        mode := lock.mode;
      } else if a.Failed? && mode == Auto && activityCount == 0 {
        ScheduleIdleTimer();
      }
      lock := Free;
    }

    // later(): after the sleep, and again once the lock is granted.
    method IdleTaskWakes()
      requires idleTask.Sleeping?
      modifies this
      ensures View() == Next(cfg, old(View()), TimerExpires)
    {
      if idleTask.gen != idleGeneration || activityCount != 0 || mode != Auto {
        idleTask := NoTimer;
      } else {
        idleTask := AwaitingLock(idleTask.gen);
      }
    }

    method IdleTaskLocks()
      requires idleTask.AwaitingLock? && lock == Free
      modifies this
      ensures View() == Next(cfg, old(View()), TimerLocks)
    {
      if idleTask.gen != idleGeneration || activityCount != 0 || mode != Auto {
        idleTask := NoTimer;
      } else {
        idleTask, lock := Applying(idleTask.gen), TimerApplying;
      }
    }

    method IdleTaskReturns(a: Answer)
      requires lock == TimerApplying && a != Cancelled
      modifies this
      ensures View() == Next(cfg, old(View()), TimerEnd(a))
    {
      HelperReturned(cfg.idle, a);
      idleTask, lock := NoTimer, Free;
    }

    // close, which cancels the idle task even while it holds the lock.
    method CloseStarts()
      requires !closed
      modifies this
      ensures View() == Next(cfg, old(View()), CloseBegin)
    {
      closed := true;
      InvalidateIdleTimer();
      if lock == TimerApplying {
        lock := Free;
      }
    }

    method CloseTakesLock()
      requires closed && lock == Free
      modifies this
      ensures View() == Next(cfg, old(View()), CloseLocks)
    {
      if mode == Auto {
        lock := Closing;
      }
    }

    method CloseReturns(a: Answer)
      requires lock == Closing
      modifies this
      ensures View() == Next(cfg, old(View()), CloseEnd(a))
    {
      HelperReturned(cfg.idle, a);
      lock := Free;
    }
  }

  // Whatever comes next, the object takes the step; until close it keeps the policy
  // exactly when the helper's answer is harmless.
  method Act(p: ProfilePolicy, x: Step)
    requires ValidConfig(p.cfg) && Enabled(p.View(), x)
    requires Inv(p.cfg, p.View()) || p.closed
    requires p.closed && x.ActivityEnd? ==> p.activityCount > 0
    modifies p
    ensures p.View() == Next(p.cfg, old(p.View()), x)
    ensures !old(p.closed) ==> (Inv(p.cfg, p.View()) <==> Harmless(p.cfg, old(p.View()), x))
  {
    if !p.closed {
      KeptExactlyWhenHarmless(p.cfg, p.View(), x);
    }
    match x
    case ActivityBegin => p.ActivityStarted();
    case ActivityEnd(a) => p.ActivityStartedReturns(a);
    case FinishBegin => p.ActivityFinished();
    case FinishEnd(a) => p.ActivityFinishedReturns(a);
    case RequestBegin(m) => p.ApplyRequestedProfile(m);
    case RequestEnd(a) => p.ApplyRequestedReturns(a);
    case TimerExpires => p.IdleTaskWakes();
    case TimerLocks => p.IdleTaskLocks();
    case TimerEnd(a) => p.IdleTaskReturns(a);
    case CloseBegin => p.CloseStarts();
    case CloseLocks => p.CloseTakesLock();
    case CloseEnd(a) => p.CloseReturns(a);
  }
}
