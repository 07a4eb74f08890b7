// Runs from the initial state: extending one by a step, and taking its last step off.

module Runs {
  import opened Session

  ghost predicate Reaches(c: Config, steps: seq<Step>, s: State) {
    CanRun(c, Initial(), steps) && Run(c, Initial(), steps) == s
  }

  lemma {:induction false} RunThen(c: Config, s: State, first: seq<Step>, more: seq<Step>)
    requires CanRun(c, s, first) && CanRun(c, Run(c, s, first), more)
    ensures CanRun(c, s, first + more) && Run(c, s, first + more) == Run(c, Run(c, s, first), more)
    decreases |first|
  {
    hide Apply, Enabled;
    if first == [] {
      assert first + more == more;
    } else {
      assert (first + more)[1..] == first[1..] + more;
      RunThen(c, Apply(c, s, first[0]), first[1..], more);
    }
  }

  lemma {:induction false} RunSplits(c: Config, s: State, first: seq<Step>, more: seq<Step>)
    requires CanRun(c, s, first + more)
    ensures CanRun(c, s, first) && CanRun(c, Run(c, s, first), more)
    decreases |first|
  {
    hide Apply, Enabled;
    if first == [] {
      assert first + more == more;
    } else {
      assert (first + more)[1..] == first[1..] + more;
      RunSplits(c, Apply(c, s, first[0]), first[1..], more);
    }
  }

  lemma ReachesNext(c: Config, steps: seq<Step>, s: State, step: Step)
    requires Reaches(c, steps, s) && Enabled(c, s, step)
    ensures Reaches(c, steps + [step], Apply(c, s, step))
  {
    hide Apply, Enabled;
    assert [step][1..] == [];
    RunThen(c, Initial(), steps, [step]);
  }

  /** Every run but the empty one is a shorter run and a step. */
  lemma LastStep(c: Config, steps: seq<Step>, s: State) returns (s0: State)
    requires Reaches(c, steps, s) && steps != []
    ensures var n := |steps| - 1;
            Reaches(c, steps[..n], s0) && Enabled(c, s0, steps[n]) && s == Apply(c, s0, steps[n])
  {
    hide Apply, Enabled;
    var n := |steps| - 1;
    assert steps == steps[..n] + [steps[n]];
    assert [steps[n]][1..] == [];
    RunSplits(c, Initial(), steps[..n], [steps[n]]);
    s0 := Run(c, Initial(), steps[..n]);
    RunThen(c, Initial(), steps[..n], [steps[n]]);
  }
}
