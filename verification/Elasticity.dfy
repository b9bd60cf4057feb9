/**
 * The metric that decides whether the pool grows or shrinks. Every served job contributes its slack,
 * the target time less the predicted time on its resources; missed targets and met targets are
 * summed apart, and the first sum hides the second.
 */
module Elasticity {
  import opened Jobs

  /** A time that may be minus infinity: a job without resources never meets its target. */
  datatype Amount = Exact(seconds: real) | MinusInfinity {
    predicate Below(bound: real) {
      MinusInfinity? || seconds < bound
    }

    predicate AtMost(other: Amount) {
      MinusInfinity? || (other.Exact? && seconds <= other.seconds)
    }

    function Plus(other: Amount): Amount {
      if Exact? && other.Exact? then Exact(seconds + other.seconds) else MinusInfinity
    }
  }

  const NOTHING := Exact(0.0)

  function Slack(p: Pair): Amount {
    if p.res == [] then MinusInfinity else Exact(p.job.target - p.job.predicted / |p.res| as real)
  }

  /** What a job contributes to the sum of the missed targets. */
  function Shortfall(p: Pair): Amount {
    if Slack(p).Below(0.0) then Slack(p) else NOTHING
  }

  /** What a job contributes to the sum of the met targets. */
  function Surplus(p: Pair): Amount {
    if Slack(p).Below(0.0) then NOTHING else Slack(p)
  }

  function Missed(plan: Plan): Amount {
    if plan == [] then NOTHING else Shortfall(plan[0]).Plus(Missed(plan[1..]))
  }

  function Met(plan: Plan): Amount {
    if plan == [] then NOTHING else Surplus(plan[0]).Plus(Met(plan[1..]))
  }

  function Metric(plan: Plan): Amount {
    if Missed(plan).Below(0.0) then Missed(plan) else Met(plan)
  }

  datatype Decision = Provision | Deprovision | Keep

  /** Grow when a target is missed, shrink when the slack exceeds one second. */
  function Decide(plan: Plan): Decision {
    if Metric(plan).Below(0.0) then Provision else if Metric(plan).AtMost(Exact(1.0)) then Keep else Deprovision
  }

  /** The pool after a decision, if a new resource would get the given id. */
  function AdjustPool(d: Decision, pool: seq<Rid>, id: Rid): seq<Rid> {
    match d
    case Provision => pool + [id]
    case Deprovision => if pool == [] then [] else pool[..|pool| - 1]
    case Keep => pool
  }

  /** What a decision takes away: the back of the pool, or nothing. */
  function LostBy(d: Decision, pool: seq<Rid>): seq<Rid> {
    if d == Deprovision && pool != [] then [pool[|pool| - 1]] else []
  }

  /** By how much a decision changes the number of resources. */
  function Growth(d: Decision): int {
    match d
    case Provision => 1
    case Deprovision => -1
    case Keep => 0
  }

  /** On its resources, or for want of any, the job misses its target. */
  predicate Late(p: Pair) {
    p.res == [] || p.job.predicted > p.job.target * |p.res| as real
  }

  lemma LateSlack(p: Pair)
    ensures Slack(p).Below(0.0) <==> Late(p)
  {
    if p.res != [] {
      SlackSign(p.job.predicted, p.job.target, |p.res| as real);
    }
  }

  lemma LateInRest(plan: Plan)
    requires plan != []
    ensures (exists p :: p in plan && Late(p)) <==> Late(plan[0]) || exists p :: p in plan[1..] && Late(p)
  {
    hide Late;
    assert plan[0] in plan;
    forall p | p in plan[1..] ensures p in plan {}
    if p :| p in plan && Late(p) && p != plan[0] {
      assert p in plan[1..];
    }
  }

  lemma ZeroAtMost()
    ensures NOTHING.AtMost(NOTHING)
  {
  }

  lemma OneSigns(p: Pair)
    ensures Shortfall(p).AtMost(NOTHING) && (Shortfall(p).Below(0.0) <==> Slack(p).Below(0.0))
    ensures Surplus(p).Exact? && !Surplus(p).Below(0.0)
  {
    hide Slack;
  }

  lemma PlusNegative(x: Amount, y: Amount)
    requires x.AtMost(NOTHING) && y.AtMost(NOTHING)
    ensures x.Plus(y).AtMost(NOTHING) && (x.Plus(y).Below(0.0) <==> x.Below(0.0) || y.Below(0.0))
  {
  }

  lemma PlusPositive(x: Amount, y: Amount)
    requires x.Exact? && y.Exact? && !x.Below(0.0) && !y.Below(0.0)
    ensures x.Plus(y).Exact? && !x.Plus(y).Below(0.0)
  {
  }

  lemma {:induction false} SumSigns(plan: Plan)
    ensures Missed(plan).AtMost(NOTHING) && Met(plan).Exact? && !Met(plan).Below(0.0)
    ensures Missed(plan).Below(0.0) <==> exists p :: p in plan && Late(p)
  {
    hide Slack, Late, Amount.Plus, Amount.AtMost;
    if plan == [] {
      assert NOTHING.AtMost(NOTHING) by { ZeroAtMost(); }
    } else {
      SumSigns(plan[1..]);
      LateSlack(plan[0]);
      LateInRest(plan);
      OneSigns(plan[0]);
      PlusNegative(Shortfall(plan[0]), Missed(plan[1..]));
      PlusPositive(Surplus(plan[0]), Met(plan[1..]));
      hide Shortfall, Surplus;
    }
  }

  /**
   * The metric is negative, and the pool grows, exactly when some job of the plan has no resource or
   * misses its target on those it has.
   */
  lemma MetricSign(plan: Plan)
    ensures Metric(plan).Below(0.0) <==> exists p :: p in plan && Late(p)
    ensures Decide(plan) == Provision <==> exists p :: p in plan && Late(p)
  {
    hide Late, Missed, Met;
    SumSigns(plan);
  }

  lemma SlackSign(x: real, t: real, k: real)
    requires k > 0.0
    ensures t - x / k < 0.0 <==> x > t * k
  {
    var r := x / k;
    assert r * k == x;
    assert (r - t) * k == x - t * k;
  }

  /** The same jobs, each with at least as many resources. */
  ghost predicate Enlarges(a: Plan, b: Plan) {
    && |a| == |b|
    && forall i :: 0 <= i < |a| ==> a[i].job == b[i].job && |a[i].res| <= |b[i].res|
  }

  lemma SlackGrows(a: Pair, b: Pair)
    requires a.job == b.job && |a.res| <= |b.res| && a.job.predicted >= 0.0
    ensures Slack(a).AtMost(Slack(b))
  {
    if a.res != [] {
      var x, k, l := a.job.predicted, |a.res| as real, |b.res| as real;
      var r, s := x / k, x / l;
      assert r * k == x == s * l;
      MulAtMost(r, k, l);
      MulCancel(s, r, l);
    }
  }

  lemma MulCancel(s: real, r: real, l: real)
    requires s * l <= r * l && l > 0.0
    ensures s <= r
  {
    assert (r - s) * l >= 0.0;
  }

  lemma MulAtMost(r: real, k: real, l: real)
    requires r >= 0.0 && k <= l
    ensures r * k <= r * l
  {
    assert r * (l - k) >= 0.0;
  }

  lemma {:induction false} SumsGrow(a: Plan, b: Plan)
    requires Enlarges(a, b) && forall p :: p in a ==> p.job.predicted >= 0.0
    ensures Missed(a).AtMost(Missed(b))
    ensures !Missed(a).Below(0.0) ==> Met(a).AtMost(Met(b))
  {
    if a != [] {
      hide Slack;
      assert a[0] in a;
      forall p | p in a[1..] ensures p in a {}
      SlackGrows(a[0], b[0]);
      SumsGrow(a[1..], b[1..]);
      SumSigns(a[1..]);
      SumSigns(b[1..]);
    }
  }

  /**
   * Although the metric switches between two sums, giving jobs more resources never lowers it, so
   * it never turns another decision into one to provision, nor gives up one to deprovision.
   */
  lemma MetricMonotone(a: Plan, b: Plan)
    requires Enlarges(a, b) && forall p :: p in a ==> p.job.predicted >= 0.0
    ensures Metric(a).AtMost(Metric(b))
    ensures Decide(b) == Provision ==> Decide(a) == Provision
    ensures Decide(a) == Deprovision ==> Decide(b) == Deprovision
  {
    SumsGrow(a, b);
    SumSigns(a);
    SumSigns(b);
  }

  lemma NoSums(neg: Amount, pos: Amount)
    ensures neg.Plus(Missed([])) == neg && pos.Plus(Met([])) == pos
  {
  }

  /** Adding one more job to the sums. */
  lemma SumsStep(plan: Plan, i: nat, neg: Amount, pos: Amount)
    requires i < |plan|
    ensures neg.Plus(Missed(plan[i..])) == neg.Plus(Shortfall(plan[i])).Plus(Missed(plan[i + 1..]))
    ensures pos.Plus(Met(plan[i..])) == pos.Plus(Surplus(plan[i])).Plus(Met(plan[i + 1..]))
  {
    hide Shortfall, Surplus;
    var rest := plan[i..];
    assert rest[0] == plan[i] && rest[1..] == plan[i + 1..];
    assert Missed(rest) == Shortfall(plan[i]).Plus(Missed(plan[i + 1..]));
    assert Met(rest) == Surplus(plan[i]).Plus(Met(plan[i + 1..]));
  }

  /** The decision for a plan of one job with resources. */
  lemma DecideOne(plan: Plan)
    requires |plan| == 1 && plan[0].res != []
    ensures Decide(plan) == Deprovision <==> Slack(plan[0]).seconds > 1.0
  {
    assert plan[1..] == [];
    var x := Slack(plan[0]);
    assert Missed(plan) == Shortfall(plan[0]).Plus(Missed([])) && Met(plan) == Surplus(plan[0]).Plus(Met([]));
  }

  // ---------- the metric as a sum ----------

  function Sum(xs: seq<real>): real {
    if xs == [] then 0.0 else xs[0] + Sum(xs[1..])
  }

  /** The numbers below zero, and zero in place of the others. */
  function Negatives(xs: seq<real>): (ys: seq<real>)
    ensures |ys| == |xs| && forall i :: 0 <= i < |xs| ==> ys[i] == if xs[i] < 0.0 then xs[i] else 0.0
  {
    seq(|xs|, i requires 0 <= i < |xs| => if xs[i] < 0.0 then xs[i] else 0.0)
  }

  /** `x` is the slack of a job: multiplied by its resources, its target times them less its predicted time. */
  predicate IsSlack(p: Pair, x: real) {
    p.res != [] && x * |p.res| as real == p.job.target * |p.res| as real - p.job.predicted
  }

  ghost predicate AreSlacks(plan: Plan, xs: seq<real>) {
    |xs| == |plan| && forall i :: 0 <= i < |plan| ==> IsSlack(plan[i], xs[i])
  }

  lemma SlackIs(p: Pair, x: real)
    requires IsSlack(p, x)
    ensures Slack(p) == Exact(x)
  {
    var k := |p.res| as real;
    var y := p.job.predicted / k;
    assert y * k == p.job.predicted;
    assert (x - (p.job.target - y)) * k == 0.0;
    ZeroFactor(x - (p.job.target - y), k);
  }

  lemma ZeroFactor(x: real, k: real)
    requires x * k == 0.0 && k > 0.0
    ensures x == 0.0
  {
  }

  lemma {:induction false} MissedIs(plan: Plan, xs: seq<real>)
    requires AreSlacks(plan, xs)
    ensures Missed(plan) == Exact(Sum(Negatives(xs)))
  {
    hide Slack, IsSlack;
    if plan != [] {
      SlackIs(plan[0], xs[0]);
      MissedIs(plan[1..], xs[1..]);
      NegativesCons(xs);
    }
  }

  lemma {:induction false} MetIs(plan: Plan, xs: seq<real>)
    requires AreSlacks(plan, xs) && forall i :: 0 <= i < |xs| ==> xs[i] >= 0.0
    ensures Met(plan) == Exact(Sum(xs))
  {
    hide Slack, IsSlack;
    if plan != [] {
      SlackIs(plan[0], xs[0]);
      MetIs(plan[1..], xs[1..]);
    }
  }

  /**
   * What the metric is and what is decided, in terms of the slacks of the jobs: if none is negative their sum,
   * and the pool shrinks exactly if it exceeds one; otherwise the sum of the negative ones.
   */
  lemma MetricIsSum(plan: Plan, xs: seq<real>)
    requires AreSlacks(plan, xs)
    ensures (forall i :: 0 <= i < |xs| ==> xs[i] >= 0.0) ==>
              Metric(plan) == Exact(Sum(xs)) && (Decide(plan) == Deprovision <==> Sum(xs) > 1.0)
    ensures (exists i :: 0 <= i < |xs| && xs[i] < 0.0) ==>
              Metric(plan) == Exact(Sum(Negatives(xs))) && Decide(plan) == Provision
  {
    if i :| 0 <= i < |xs| && xs[i] < 0.0 {
      SomeMissed(plan, xs, i);
    } else {
      AllMet(plan, xs);
    }
  }

  lemma SomeMissed(plan: Plan, xs: seq<real>, i: nat)
    requires AreSlacks(plan, xs) && i < |xs| && xs[i] < 0.0
    ensures Metric(plan) == Exact(Sum(Negatives(xs))) && Decide(plan) == Provision
  {
    hide AreSlacks, Missed, Met, Sum, Negatives;
    MissedIs(plan, xs);
    NegativeSum(xs);
  }

  lemma AllMet(plan: Plan, xs: seq<real>)
    requires AreSlacks(plan, xs) && forall i :: 0 <= i < |xs| ==> xs[i] >= 0.0
    ensures Metric(plan) == Exact(Sum(xs)) && (Decide(plan) == Deprovision <==> Sum(xs) > 1.0)
  {
    hide AreSlacks, Missed, Met, Sum;
    MissedIs(plan, xs);
    NoNegatives(Negatives(xs));
    MetIs(plan, xs);
    SumSigns(plan);
  }

  lemma NegativesCons(xs: seq<real>)
    requires xs != []
    ensures Sum(Negatives(xs)) == (if xs[0] < 0.0 then xs[0] else 0.0) + Sum(Negatives(xs[1..]))
  {
    assert Negatives(xs)[1..] == Negatives(xs[1..]);
  }

  lemma {:induction false} NegativeSum(xs: seq<real>)
    ensures Sum(Negatives(xs)) <= 0.0
    ensures (exists i :: 0 <= i < |xs| && xs[i] < 0.0) ==> Sum(Negatives(xs)) < 0.0
  {
    if xs != [] {
      NegativeSum(xs[1..]);
      assert Negatives(xs)[1..] == Negatives(xs[1..]);
      if i :| 0 <= i < |xs| && xs[i] < 0.0 && i > 0 {
        assert xs[1..][i - 1] == xs[i];
      }
    }
  }

  lemma {:induction false} NoNegatives(xs: seq<real>)
    requires forall i :: 0 <= i < |xs| ==> xs[i] == 0.0
    ensures Sum(xs) == 0.0
  {
    if xs != [] {
      NoNegatives(xs[1..]);
    }
  }
}
