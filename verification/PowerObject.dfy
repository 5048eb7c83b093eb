// The controller object driven by whatever comes: it takes the steps of the protocol, so
// every claim about runs holds of it.

module PowerObject {
  import opened Bytes
  import opened Power
  import opened PowerSafety
  import opened PowerRuns
  import opened PowerControl

  // Whatever comes next, the object takes the step of the protocol and stays safe.
  method Do(p: PowerController, l: Label)
    requires Inv(p.cfg, p.View())
    modifies p
    ensures p.View() == Next(p.cfg, old(p.View()), l) && Inv(p.cfg, p.View())
  {
    ghost var s := p.View();
    ghost var t := Next(p.cfg, s, l);
    NextKeeps(p.cfg, s, l);
    Act(p, l);
    assert p.View() == t;
  }

  method Act(p: PowerController, l: Label)
    requires p.Valid()
    modifies p
    ensures p.View() == Next(p.cfg, old(p.View()), l)
  {
    match l
    case DoSubmit(e) => var _ := p.SubmitEvent(e);
    case DoTake => p.TakeNext();
    case DoResume(a) => p.ResumeWorker(a);
    case DoAckTimer(h) =>
      if h < |p.recs| {
        p.AckTimerFires(h);
      }
    case DoReadyTimer => p.ReadyTimerFires();
    case DoReplayPending => p.ReplayPendingCallbacks();
    case DoReadyClaim => p.ClaimReady();
    case DoReadyAnswer(ok) => p.ReadyAnswered(ok);
    case DoClose => p.Close();
  }

  // A controller driven through any steps ends where the protocol's run ends; what
  // follows for its helper calls is spelled out.
  method Operate(cfg: Config, labels: seq<Label>) returns (p: PowerController, ghost states: seq<State>)
    ensures fresh(p) && IsRun(cfg, states, labels) && p.View() == states[|labels|]
    ensures Inv(cfg, p.View()) && forall h :: Invocations(p.trace, h) <= 1
  {
    hide Inv;
    p := new PowerController(cfg);
    states := [START];
    Invariant(cfg, states, [], 0);
    for i := 0 to |labels|
      invariant fresh(p) && p.cfg == cfg && Inv(cfg, p.View())
      invariant IsRun(cfg, states, labels[..i]) && p.View() == states[i]
    {
      InvCloses(cfg, p.View());
      Do(p, labels[i]);
      RunGoesOn(cfg, states, labels, i, p.View());
      states := states + [p.View()];
    }
    assert labels[..|labels|] == labels;
    forall h
      ensures Invocations(p.trace, h) <= 1
    {
      AtMostOnce(cfg, states, labels, |labels|, h);
    }
  }

  lemma InvCloses(cfg: Config, s: State)
    requires Inv(cfg, s)
    ensures Closed(s)
  {
  }

  lemma RunGoesOn(cfg: Config, states: seq<State>, labels: seq<Label>, i: nat, t: State)
    requires i < |labels| && IsRun(cfg, states, labels[..i]) && t == Step(cfg, states[i], labels[i])
    ensures IsRun(cfg, states + [t], labels[..i + 1])
  {
  }
}
