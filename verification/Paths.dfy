/** One state reached from another, step by step. */
module Paths {
  import opened Common
  import opened Runtime

  ghost predicate Path(s: State, t: State) { exists acts :: Run(s, acts) == Some(t) }

  lemma {:induction false} RunConcat(s: State, first: seq<Action>, second: seq<Action>)
    requires Run(s, first).Some?
    ensures Run(s, first + second) == Run(Run(s, first).value, second)
    decreases |first|
  {
    if first == [] {
      assert first + second == second;
    } else {
      assert (first + second)[1..] == first[1..] + second;
      RunConcat(Step(s, first[0]).value, first[1..], second);
    }
  }

  lemma PathStep(s: State, t: State, a: Action)
    requires Path(s, t) && Step(t, a).Some?
    ensures Path(s, Step(t, a).value)
  {
    var acts :| Run(s, acts) == Some(t);
    RunConcat(s, acts, [a]);
    assert Run(t, [a]) == Run(Step(t, a).value, [a][1..]);
    assert Run(s, acts + [a]) == Step(t, a);
  }

  lemma PathSelf(s: State)
    ensures Path(s, s)
  {
    assert Run(s, []) == Some(s);
  }

  lemma PathTrans(s: State, t: State, u: State)
    requires Path(s, t) && Path(t, u)
    ensures Path(s, u)
  {
    var first :| Run(s, first) == Some(t);
    var second :| Run(t, second) == Some(u);
    RunConcat(s, first, second);
    assert Run(s, first + second) == Some(u);
  }
}
