/**
 * A freshly started scheduler can fail on its first job. For every first job with more than a second to
 * spare there is a run in which the only resource is taken out of the pool before the job can claim it.
 */
module FailingRound {
  import opened Sequences
  import opened Jobs
  import opened Policies
  import opened Winner
  import opened Elasticity
  import opened Threads

  /** The bounds and the window of the original. */
  const ORIGINAL := Config(1, 4, 5)

  function First(priority: int, predicted: real, target: real): Job {
    Job(1, 1, 4, priority, predicted, target)
  }

  /** What each policy makes of the first job and the first resource. */
  function FirstPlan(j: Job, i: nat): Plan {
    if i == 1 || i == 2 then [Pair(j, [1])] else []
  }

  function FirstTrials(j: Job, n: nat): seq<Trial>
    requires n <= 5
  {
    seq(n, i requires 0 <= i < n => Trial([j], [1], FirstPlan(j, i)))
  }

  lemma FirstTrialIsValid(j: Job, i: nat)
    requires j.min == 1 && j.max == 4 && i < 5
    ensures OrderFor(PolicyAt(i), [j], [j])
    ensures PlanFor(PolicyAt(i), [j], [1]) == FirstPlan(j, i)
    ensures Resources(FirstPlan(j, i)) == if i == 1 || i == 2 then [1] else []
  {
    assert PolicyAt(0) == FcfsMax && PolicyAt(1) == FcfsMin && PolicyAt(2) == FcfsAmap && PolicyAt(3) == Sjtf
           && PolicyAt(4) == Priority;
    assert [j][1..] == [] && Reverse([1]) == [1];
    if i == 1 || i == 2 {
      var list, rest := PlanUnfold(PolicyAt(i), [j], [1]);
      assert list == [1] && rest == [];
      assert Resources([Pair(j, [1])]) == [1] + Resources([]);
    }
  }

  /** The third policy wins. */
  lemma FirstWinner(j: Job)
    requires j.min == 1 && j.max == 4 && j.predicted > 0.0
    ensures var trials := FirstTrials(j, 5);
            (forall t :: t in trials ==> Positive(JobsOf(t.plan))) && IsWinner(1, trials, 2)
  {
    var trials := FirstTrials(j, 5);
    FloorMonotone(0, 1, j.predicted);
    forall i | 0 <= i < 5
      ensures Positive(JobsOf(trials[i].plan))
      ensures Score(1, trials[i].plan) == LoneScore(j, if i == 1 || i == 2 then 1 else 0)
    {
      FirstTrialIsValid(j, i);
      ScoreOfOne(j, [1]);
    }
  }

  lemma FirstDecision(j: Job)
    requires j.target - j.predicted > 1.0
    ensures Decide([Pair(j, [1])]) == Deprovision
  {
    DecideOne([Pair(j, [1])]);
  }

  /** The state while the policies are tried on the first job. */
  function During(j: Job, n: nat, back: seq<Rid>): State
    requires n <= 5
  {
    START.(nextJid := 2, ready := [j], pool := if back == [] then [1] else [], phase := Trying(FirstTrials(j, n), back))
  }

  /** One trial, and the return of what it took. */
  lemma TrialRun(j: Job, n: nat, es: seq<Event>, end: State) returns (all: seq<Event>)
    requires n < 5 && j.min == 1 && j.max == 4
    requires CanRun(ORIGINAL, During(j, n + 1, []), es) && After(ORIGINAL, During(j, n + 1, []), es) == end
    ensures CanRun(ORIGINAL, During(j, n, []), all) && After(ORIGINAL, During(j, n, []), all) == end
  {
    hide CanRun, After, PlanFor, OrderFor;
    FirstTrialIsValid(j, n);
    var s := During(j, n, []);
    var back := Resources(FirstPlan(j, n));
    assert FirstTrials(j, n + 1) == FirstTrials(j, n) + [Trial([j], [1], FirstPlan(j, n))];
    assert Window(s.ready, 5) == [j];
    var s' := Apply(ORIGINAL, s, Take([j]));
    assert s' == During(j, n + 1, back);
    if back == [] {
      RunCons(ORIGINAL, s, Take([j]), s', es);
      all := [Take([j])] + es;
    } else {
      assert [1][1..] == [] && [] + [1] == [1];
      RunCons(ORIGINAL, s', PutBack, During(j, n + 1, []), es);
      RunCons(ORIGINAL, s, Take([j]), s', [PutBack] + es);
      all := [Take([j])] + ([PutBack] + es);
    }
  }

  /** The claim of the lost resource. */
  lemma ClaimFails(s: State, plan: Plan) returns (es: seq<Event>)
    requires s.phase == Serving(plan, false, 0, [1]) && s.pool == [] && plan != [] && plan[0].res == [1]
    ensures CanRun(ORIGINAL, s, es) && After(ORIGINAL, s, es).phase.Crashed?
  {
    hide CanRun, After;
    var c := ORIGINAL;
    var s' := Apply(c, s, Remove);
    var s'' := Apply(c, s', ClaimOne);
    NoSteps(c, s'');
    RunCons(c, s', ClaimOne, s'', []);
    RunCons(c, s, Remove, s', [ClaimOne] + []);
    es := [Remove] + ([ClaimOne] + []);
  }

  /** From the choice of the plan to the failed claim. */
  lemma RoundFails(j: Job) returns (es: seq<Event>)
    requires j == First(j.priority, j.predicted, j.target) && j.predicted > 0.0 && j.target - j.predicted > 1.0
    ensures CanRun(ORIGINAL, During(j, 5, []), es) && After(ORIGINAL, During(j, 5, []), es).phase.Crashed?
  {
    hide CanRun, After, IsWinner, Decide;
    var c, plan, s := ORIGINAL, [Pair(j, [1])], During(j, 5, []);
    FirstWinner(j);
    FirstDecision(j);
    assert s.phase.trials[2].plan == plan && NoJobs(plan) == 1 + NoJobs(plan[1..]);
    var s' := s.(phase := Chosen(plan));
    assert Apply(c, s, Choose(2)) == s';
    var s'' := Apply(c, s', Adjust);
    es := ClaimFails(s'', plan);
    RunCons(c, s', Adjust, s'', es);
    RunCons(c, s, Choose(2), s', [Adjust] + es);
    es := [Choose(2)] + ([Adjust] + es);
  }

  lemma NoSteps(c: Config, s: State)
    ensures CanRun(c, s, []) && After(c, s, []) == s
  {
  }

  /** For every first job with more than a second of slack on one resource, a run fails. */
  lemma FirstJobCanFail(priority: int, predicted: real, target: real) returns (es: seq<Event>)
    requires predicted > 0.0 && target - predicted > 1.0
    ensures CanRun(ORIGINAL, START, es) && After(ORIGINAL, START, es).phase.Crashed?
    ensures es[0] == Issue(priority, predicted, target)
  {
    hide CanRun, After;
    var c, j := ORIGINAL, First(priority, predicted, target);
    es := RoundFails(j);
    var end := After(c, During(j, 5, []), es);
    es := TrialRun(j, 4, es, end);
    es := TrialRun(j, 3, es, end);
    es := TrialRun(j, 2, es, end);
    es := TrialRun(j, 1, es, end);
    es := TrialRun(j, 0, es, end);
    var issue := Issue(priority, predicted, target);
    var s1 := Apply(c, START, issue);
    var s2 := Apply(c, s1, Push(0));
    assert s1.arriving == [j] && s2.arriving == [] && s2.ready == [j];
    assert FirstTrials(j, 0) == [];
    assert Apply(c, s2, Begin) == During(j, 0, []);
    RunCons(c, s2, Begin, During(j, 0, []), es);
    RunCons(c, s1, Push(0), s2, [Begin] + es);
    RunCons(c, START, issue, s1, [Push(0)] + ([Begin] + es));
    es := [issue] + ([Push(0)] + ([Begin] + es));
  }
}
