/** Sequences of enabled steps from any state, and how they extend a run. */
module OperatorRuns {
  import opened Kube
  import opened Discovery
  import opened Health
  import opened Operator
  import opened OperatorTheorems

  /** Taking the steps one after the other, each enabled when its turn comes, leads from `s` to `s'`. */
  ghost predicate Leads(cfg: Config, s: State, steps: seq<Step>, s': State)
    decreases |steps|
  {
    if steps == [] then s' == s
    else Enabled(cfg, s, steps[0]) && Leads(cfg, Apply(cfg, s, steps[0]), steps[1..], s')
  }

  lemma {:induction false} LeadsOn(cfg: Config, s: State, steps: seq<Step>, s': State, more: seq<Step>, s'': State)
    requires Leads(cfg, s, steps, s') && Leads(cfg, s', more, s'')
    ensures Leads(cfg, s, steps + more, s'')
    decreases |steps|
  {
    if steps == [] {
      assert steps + more == more;
    } else {
      LeadsOn(cfg, Apply(cfg, s, steps[0]), steps[1..], s', more, s'');
      assert (steps + more)[1..] == steps[1..] + more;
    }
  }

  lemma LeadsFirst(cfg: Config, s: State, step: Step, more: seq<Step>, s': State)
    requires Enabled(cfg, s, step) && Leads(cfg, Apply(cfg, s, step), more, s')
    ensures Leads(cfg, s, [step] + more, s')
  {
    assert ([step] + more)[1..] == more;
  }

  lemma LeadsOnce(cfg: Config, s: State, step: Step)
    requires Enabled(cfg, s, step)
    ensures Leads(cfg, s, [step], Apply(cfg, s, step))
  {
    assert [step][1..] == [];
  }

  lemma {:induction false} InvariantLeads(cfg: Config, s: State, steps: seq<Step>, s': State)
    requires Invariant(cfg, s) && Leads(cfg, s, steps, s')
    ensures Invariant(cfg, s')
    decreases |steps|
  {
    if steps != [] {
      InvariantStep(cfg, s, steps[0]);
      InvariantLeads(cfg, Apply(cfg, s, steps[0]), steps[1..], s');
    }
  }

  lemma OneStepLonger(cfg: Config, states: seq<State>, steps: seq<Step>, step: Step)
    requires IsRun(cfg, states, steps) && Enabled(cfg, states[|steps|], step)
    ensures IsRun(cfg, states + [Apply(cfg, states[|steps|], step)], steps + [step])
  {
    var states' := states + [Apply(cfg, states[|steps|], step)];
    forall i | 0 <= i < |steps + [step]| ensures Moves(cfg, states', steps + [step], i) {
      if i < |steps| {
        assert Moves(cfg, states, steps, i);
      }
    }
  }

  /** A run can be continued by any steps that lead on from its last state. */
  lemma {:induction false} RunGoesOn(
    cfg: Config, states: seq<State>, steps: seq<Step>, more: seq<Step>, s': State) returns (all: seq<State>)
    requires IsRun(cfg, states, steps) && Leads(cfg, states[|steps|], more, s')
    ensures IsRun(cfg, all, steps + more) && all[|steps + more|] == s' && states <= all
    decreases |more|
  {
    if more == [] {
      assert steps + more == steps;
      all := states;
    } else {
      OneStepLonger(cfg, states, steps, more[0]);
      var next := states + [Apply(cfg, states[|steps|], more[0])];
      all := RunGoesOn(cfg, next, steps + [more[0]], more[1..], s');
      assert steps + [more[0]] + more[1..] == steps + more;
    }
  }
}
