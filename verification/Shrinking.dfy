/**
 * When shrinking the pool spoils a round. Every trial puts back what it took, in reverse, and the
 * elasticity manager pops the back of the pool as the last trial has left it. Whether the winner counts
 * on that resource depends on nothing but the sizes of the window and the pool and the bounds of the jobs.
 */
module Shrinking {
  import opened Sequences
  import opened Jobs
  import opened Policies
  import opened Winner
  import opened Elasticity
  import opened Scheduling

  // ---------- how much each policy takes ----------

  /** How many resources a policy hands out in all. */
  function Used(p: Policy, w: nat, n: nat, m: nat, M: nat): (u: nat)
    ensures u <= n
    decreases w
  {
    if w == 0 || Stops(p, Sample(m, M), n) then 0
    else
      var k := Takes(p, n, m, M);
      k + Used(p, w - 1, n - k, m, M)
  }

  lemma {:induction false} PlanUses(p: Policy, order: seq<Job>, pool: seq<Rid>, m: nat, M: nat)
    requires Uniform(order, m, M)
    ensures |Resources(PlanFor(p, order, pool))| == Used(p, |order|, |pool|, m, M)
  {
    hide Stops, PlanFor, Resources, Used, Ask, Need, Takes;
    if order == [] {
      NothingPlanned(p, order, pool, m, M);
    } else {
      UniformTail(order, m, M);
      SameStep(p, order[0], |pool|, m, M);
      if Stops(p, order[0], |pool|) {
        NothingPlanned(p, order, pool, m, M);
      } else {
        var list, rest := PlanUnfold(p, order, pool);
        PlanUses(p, order[1..], pool[..|pool| - |list|], m, M);
        ResourcesFirst(Pair(order[0], list), rest);
        UsedStep(p, |order|, |pool|, m, M);
      }
    }
  }

  lemma NothingPlanned(p: Policy, order: seq<Job>, pool: seq<Rid>, m: nat, M: nat)
    requires order == [] || (Stops(p, order[0], |pool|) && Stops(p, Sample(m, M), |pool|))
    ensures |Resources(PlanFor(p, order, pool))| == 0 == Used(p, |order|, |pool|, m, M)
  {
    hide Stops;
  }

  lemma UsedStep(p: Policy, w: nat, n: nat, m: nat, M: nat)
    requires w > 0 && !Stops(p, Sample(m, M), n)
    ensures var k := Takes(p, n, m, M); k <= n && Used(p, w, n, m, M) == k + Used(p, w - 1, n - k, m, M)
  {
  }

  lemma SameStep(p: Policy, j: Job, n: nat, m: nat, M: nat)
    requires j.min == m && j.max == M
    ensures Stops(p, j, n) == Stops(p, Sample(m, M), n) && TakeCount(n, Ask(p, j), Need(p, j)) == Takes(p, n, m, M)
  {
  }

  lemma TrialUses(window: seq<Job>, trials: seq<Trial>, i: nat, m: nat, M: nat)
    requires ValidTrials(window, trials) && i < |trials| && Uniform(window, m, M)
    ensures |Resources(trials[i].plan)| == Used(PolicyAt(i), |window|, |trials[i].pool|, m, M)
  {
    OrderFacts(PolicyAt(i), window, trials[i].order);
    PlanUses(PolicyAt(i), trials[i].order, trials[i].pool, m, M);
  }

  /** What a policy other than FCFS AMAP gives to each job it serves. */
  function Share(p: Policy, m: nat, M: nat): nat {
    if p.FcfsMin? then m else M
  }

  lemma {:induction false} UsedIsShared(p: Policy, w: nat, n: nat, m: nat, M: nat)
    requires 1 <= m <= M && !p.FcfsAmap?
    ensures Used(p, w, n, m, M) == Share(p, m, M) * Served(p, w, n, m, M)
    decreases w
  {
    if w == 0 {
      NoneServed(p, n, m, M);
    } else {
      ServedStep(p, w, n, m, M);
      if !Stops(p, Sample(m, M), n) {
        TakesShare(p, n, m, M);
        hide Served, Stops, Takes;
        var k := Takes(p, n, m, M);
        UsedStep(p, w, n, m, M);
        UsedIsShared(p, w - 1, n - k, m, M);
        OneMore(Share(p, m, M), Served(p, w - 1, n - k, m, M));
      }
    }
  }

  lemma TakesShare(p: Policy, n: nat, m: nat, M: nat)
    requires 1 <= m <= M && !p.FcfsAmap?
    ensures Takes(p, n, m, M) == 0 || Takes(p, n, m, M) == Share(p, m, M)
  {
  }

  lemma OneMore(d: nat, k: nat)
    ensures d * (1 + k) == d + d * k
  {
  }

  /** What FCFS AMAP hands out: as many maxima as fit, and the rest if a further job can use it. */
  function AmapUses(w: nat, n: nat, m: nat, M: nat): nat
    requires M > 0
  {
    if w <= Quotient(n, M) then M * w else M * Quotient(n, M) + if Remainder(n, M) >= m then Remainder(n, M) else 0
  }

  lemma {:induction false} UsedByAmap(w: nat, n: nat, m: nat, M: nat)
    requires 1 <= m <= M
    ensures Used(FcfsAmap, w, n, m, M) == AmapUses(w, n, m, M)
    decreases w
  {
    DivStep(n, M);
    if w > 0 && n >= M {
      UsedStep(FcfsAmap, w, n, m, M);
      UsedByAmap(w - 1, n - M, m, M);
      OneMore(M, w - 1);
      OneMore(M, Quotient(n - M, M));
    }
  }

  // ---------- where the back of the pool comes from ----------

  /** Reversing the last `u` places of a pool: the place at distance `d` from the back is filled from here. */
  function Mirror(u: nat, d: nat): nat {
    if d < u then u - 1 - d else d
  }

  /**
   * How far from the back, right after the i-th trial has been undone, the resource is that is at the
   * back after all trials.
   */
  function Depth(i: nat, w: nat, n: nat, m: nat, M: nat): (d: nat)
    requires i < 5
    ensures n > 0 ==> d < n
    decreases 5 - i
  {
    if i == 4 then 0 else Mirror(Used(PolicyAt(i + 1), w, n, m, M), Depth(i + 1, w, n, m, M))
  }

  lemma TrialMirrors(p: Policy, window: seq<Job>, t: Trial, d: nat)
    requires ValidTrial(p, window, t) && d < |t.pool|
    ensures |Resources(t.plan)| <= |t.pool| == |GivenBack(t)|
    ensures Mirror(|Resources(t.plan)|, d) < |t.pool|
    ensures GivenBack(t)[|t.pool| - 1 - d] == t.pool[|t.pool| - 1 - Mirror(|Resources(t.plan)|, d)]
  {
    hide PlanFor, OrderFor;
    var n, taken := |t.pool|, Resources(t.plan);
    PlanResources(p, t.order, t.pool);
    var cut := n - |taken|;
    assert GivenBack(t) == t.pool[..cut] + taken;
    var i := n - 1 - d;
    if i >= cut {
      assert taken[i - cut] == Reverse(t.pool)[i - cut];
    }
  }

  /** The back of the pool after all trials, traced to the pool after the i-th one. */
  lemma {:induction false} BackComesFrom(
    window: seq<Job>, trials: seq<Trial>, start: seq<Rid>, end: seq<Rid>, i: nat, m: nat, M: nat)
    requires ValidTrials(window, trials) && |trials| == 5 && Chained(start, trials, end) && start != []
    requires Uniform(window, m, M) && i < 5
    ensures |end| == |start| == |GivenBack(trials[i])| == |trials[i].pool|
    ensures Depth(i, |window|, |start|, m, M) < |start|
    ensures end[|end| - 1] == GivenBack(trials[i])[|start| - 1 - Depth(i, |window|, |start|, m, M)]
    decreases 5 - i
  {
    hide GivenBack, ValidTrial, Resources, Mirror, Used;
    SameLength(start, trials, end, window, i);
    assert ValidTrial(PolicyAt(i), window, trials[i]);
    TrialMirrors(PolicyAt(i), window, trials[i], 0);
    if i < 4 {
      var next := trials[i + 1];
      BackComesFrom(window, trials, start, end, i + 1, m, M);
      assert ValidTrial(PolicyAt(i + 1), window, next);
      TrialMirrors(PolicyAt(i + 1), window, next, Depth(i + 1, |window|, |start|, m, M));
      TrialUses(window, trials, i + 1, m, M);
    }
  }

  lemma {:induction false} SameResources(window: seq<Job>, trials: seq<Trial>, start: seq<Rid>, end: seq<Rid>, i: nat)
    requires ValidTrials(window, trials) && Chained(start, trials, end) && i < |trials|
    ensures multiset(trials[i].pool) == multiset(start)
  {
    hide PlanFor, OrderFor, Reverse;
    if i > 0 {
      SameResources(window, trials, start, end, i - 1);
      var t := trials[i - 1];
      TrialThenReturn(PolicyAt(i - 1), t.order, t.pool);
    }
  }

  /** Right after a trial, its plan names just what it took: the last places of the pool. */
  lemma NamedByPlace(p: Policy, window: seq<Job>, t: Trial, d: nat)
    requires ValidTrial(p, window, t) && Distinct(t.pool) && d < |t.pool| == |GivenBack(t)|
    ensures GivenBack(t)[|t.pool| - 1 - d] in Resources(t.plan) <==> d < |Resources(t.plan)|
  {
    hide PlanFor, OrderFor;
    var taken := Resources(t.plan);
    PlanResources(p, t.order, t.pool);
    GiveBack(t.pool, taken);
    var cut, i := |t.pool| - |taken|, |t.pool| - 1 - d;
    assert GivenBack(t) == t.pool[..cut] + taken;
    if i >= cut {
      assert GivenBack(t)[i] == taken[i - cut];
    }
  }

  /** The back of the pool after all trials is named by the i-th plan exactly if its depth is small enough. */
  lemma BackIsNamed(
    window: seq<Job>, trials: seq<Trial>, start: seq<Rid>, end: seq<Rid>, k: nat, m: nat, M: nat)
    requires ValidTrials(window, trials) && |trials| == 5 && Chained(start, trials, end)
    requires start != [] && Distinct(start) && 1 <= m <= M && Uniform(window, m, M) && k < 5
    requires NoJobs(trials[k].plan) > 0
    ensures |end| == |start|
    ensures end[|end| - 1] in Resources(trials[k].plan) <==> Spoils(k, |window|, |start|, m, M)
  {
    hide GivenBack, ValidTrial, Resources, Used, Depth, Distinct, Spoils;
    SomethingUsed(trials[k].plan);
    BackComesFrom(window, trials, start, end, k, m, M);
    SameResources(window, trials, start, end, k);
    DistinctPermutation(start, trials[k].pool);
    assert ValidTrial(PolicyAt(k), window, trials[k]);
    TrialUses(window, trials, k, m, M);
    NamedByPlace(PolicyAt(k), window, trials[k], Depth(k, |window|, |start|, m, M));
    SpoilsIff(k, |window|, |start|, m, M);
  }

  lemma {:induction false} SomethingUsed(plan: Plan)
    requires NoJobs(plan) > 0
    ensures Resources(plan) != []
  {
    if plan[0].res == [] {
      SomethingUsed(plan[1..]);
    }
  }

  // ---------- the condition in numbers ----------

  /**
   * Whether the k-th policy, as the winner for `w` jobs in the window and a pool of `n`, counts on the
   * resource at the back of the pool. The last three policies always do. FCFS Min does if it has handed
   * out as much as FCFS AMAP, or, if the pool is used up in whole maxima, all but one maximum. FCFS Max
   * does unless FCFS AMAP could serve a further job and FCFS Min would not use up the pool.
   */
  predicate Spoils(k: nat, w: nat, n: nat, m: nat, M: nat)
    requires 1 <= m <= M
  {
    var byMin := m * Min(w, Quotient(n, m));
    if k == 0 then w > Quotient(n, M) && Remainder(n, M) >= m ==> byMin == n
    else if k == 1 then
      if Remainder(n, M) == 0 && Quotient(n, M) <= w then n - M <= byMin else AmapUses(w, n, m, M) <= byMin
    else true
  }

  /** What the five policies hand out: FCFS Max, FCFS Min, FCFS AMAP, SJTF and Priority. */
  datatype Amounts = Amounts(max: nat, min: nat, amap: nat, sjtf: nat, priority: nat) {
    function At(k: nat): nat {
      if k == 0 then max else if k == 1 then min else if k == 2 then amap else if k == 3 then sjtf else priority
    }

    function DepthAt(k: nat): nat
      decreases 4 - k
    {
      if k == 0 then Mirror(min, DepthAt(1))
      else if k == 1 then Mirror(amap, DepthAt(2))
      else if k == 2 then Mirror(sjtf, DepthAt(3))
      else if k == 3 then Mirror(priority, 0)
      else 0
    }
  }

  function AmountsOf(w: nat, n: nat, m: nat, M: nat): Amounts {
    Amounts(Used(FcfsMax, w, n, m, M), Used(FcfsMin, w, n, m, M), Used(FcfsAmap, w, n, m, M), Used(Sjtf, w, n, m, M),
            Used(Priority, w, n, m, M))
  }

  lemma AmountsDefine(k: nat, w: nat, n: nat, m: nat, M: nat)
    requires k < 5
    ensures Used(PolicyAt(k), w, n, m, M) == AmountsOf(w, n, m, M).At(k)
    ensures Depth(k, w, n, m, M) == AmountsOf(w, n, m, M).DepthAt(k)
    decreases 5 - k
  {
    hide Used, Mirror;
    assert PolicyAt(k) == [FcfsMax, FcfsMin, FcfsAmap, Sjtf, Priority][k];
    if k < 4 {
      AmountsDefine(k + 1, w, n, m, M);
    }
  }

  lemma AmountsAre(w: nat, n: nat, m: nat, M: nat)
    requires 1 <= m <= M
    ensures var u := AmountsOf(w, n, m, M);
            && u.max == M * Min(w, Quotient(n, M))
            && u.min == m * Min(w, Quotient(n, m)) <= n
            && u.amap == AmapUses(w, n, m, M) <= n
            && u.priority == M * Min(w, if n > 0 then Quotient(n - 1, M) else 0)
            && u.sjtf == if m < M then u.max else u.priority
  {
    UsedIsShared(FcfsMax, w, n, m, M);
    UsedIsShared(FcfsMin, w, n, m, M);
    UsedIsShared(Sjtf, w, n, m, M);
    UsedIsShared(Priority, w, n, m, M);
    UsedByAmap(w, n, m, M);
    hide Used, AmapUses, Quotient, Min;
  }

  /** The window is too small to use up the pool, even with maxima. */
  lemma SmallWindow(w: nat, n: nat, m: nat, M: nat)
    requires 1 <= m <= M && w > 0 && (w < Quotient(n, M) || (w == Quotient(n, M) && Remainder(n, M) > 0))
    ensures var u := AmountsOf(w, n, m, M);
            u.max == u.amap == u.sjtf == u.priority > 0 && u.min <= u.amap
  {
    hide AmountsOf, Quotient, Remainder;
    AmountsAre(w, n, m, M);
    QuotientBefore(n, M);
    assert Min(w, Quotient(n, M)) == w == Min(w, Quotient(n - 1, M));
    MulMonotone(M, 1, w);
    MulMonotone(m, Min(w, Quotient(n, m)), w);
    MulMonotone(w, m, M);
  }

  /** One resource less makes one maximum less exactly if nothing was left over. */
  lemma QuotientBefore(n: nat, d: nat)
    requires d > 0 && (Quotient(n, d) > 0 || Remainder(n, d) > 0)
    ensures n > 0 && Quotient(n - 1, d) == if Remainder(n, d) > 0 then Quotient(n, d) else Quotient(n, d) - 1
  {
    if Remainder(n, d) > 0 {
      NextMultiple(n, d);
    } else {
      QuotientRemainder(n, d);
      OneMore(d, Quotient(n, d) - 1);
      QuotientUnique(n - 1, d, Quotient(n, d) - 1, d - 1);
    }
  }

  /** The pool is used up in whole maxima. */
  lemma WholeMaxima(w: nat, n: nat, m: nat, M: nat)
    requires 1 <= m <= M && n > 0 && Remainder(n, M) == 0 && Quotient(n, M) <= w
    ensures var u := AmountsOf(w, n, m, M);
            && u.max == u.amap == n >= M && u.priority == n - M && u.sjtf == (if m < M then n else n - M)
            && (m == M ==> u.min == n)
  {
    hide AmountsOf, Quotient, Remainder;
    AmountsAre(w, n, m, M);
    QuotientRemainder(n, M);
    var q := Quotient(n, M);
    assert q > 0;
    QuotientBefore(n, M);
    OneMore(M, q - 1);
    assert Min(w, q) == q && Min(w, Quotient(n - 1, M)) == q - 1;
  }

  /** The window is large enough and some resources are left over after all maxima. */
  lemma Leftover(w: nat, n: nat, m: nat, M: nat)
    requires 1 <= m <= M && Remainder(n, M) > 0 && w > Quotient(n, M)
    ensures var u := AmountsOf(w, n, m, M);
            && u.max == u.sjtf == u.priority == n - Remainder(n, M) && (u.max > 0 ==> u.max >= M)
            && u.amap == n - Remainder(n, M) + if Remainder(n, M) >= m then Remainder(n, M) else 0
  {
    hide AmountsOf, Quotient, Remainder;
    AmountsAre(w, n, m, M);
    QuotientRemainder(n, M);
    var q := Quotient(n, M);
    QuotientBefore(n, M);
    assert Min(w, q) == q == Min(w, Quotient(n - 1, M));
    if q > 0 {
      MulMonotone(M, 1, q);
    }
  }

  lemma SmallWindowSpoils(u: Amounts, k: nat)
    requires u.max == u.amap == u.sjtf == u.priority > 0 && u.min <= u.amap && u.At(k) > 0
    ensures u.DepthAt(k) < u.At(k) <==> (k == 1 ==> u.amap <= u.min)
  {
    assert u.DepthAt(3) == u.priority - 1;
    assert u.DepthAt(2) == 0;
    assert u.DepthAt(1) == u.amap - 1;
  }

  lemma WholeMaximaSpoil(u: Amounts, k: nat, n: nat, m: nat, M: nat)
    requires u.max == u.amap == n >= M >= m > 0 && u.priority == n - M && u.sjtf == (if m < M then n else n - M)
    requires (m == M ==> u.min == n) && u.min <= n && u.At(k) > 0
    ensures u.DepthAt(k) < u.At(k) <==> (k == 1 ==> n - M <= u.min)
  {
    assert u.DepthAt(3) == if n > M then n - M - 1 else 0;
    if m < M {
      assert u.DepthAt(2) == if n > M then M else n - 1;
    } else {
      assert u.DepthAt(2) == 0;
    }
  }

  lemma LeftoverSpoils(u: Amounts, k: nat, n: nat, r: nat, m: nat, M: nat)
    requires 0 < r < M && r <= n && u.max == u.sjtf == u.priority == n - r && (u.max > 0 ==> u.max >= M)
    requires u.amap == n - r + (if r >= m then r else 0) && u.min <= n && u.At(k) > 0
    requires u.min > 0 ==> u.amap > 0
    ensures u.DepthAt(k) < u.At(k) <==> (k == 1 ==> u.amap <= u.min) && (k == 0 && r >= m ==> u.min == n)
  {
    assert u.DepthAt(2) == 0;
    assert u.DepthAt(1) == if u.amap > 0 then u.amap - 1 else 0;
  }

  /** Who can serve a job with its minimum can serve one with as many as there are. */
  lemma MinThenAmap(w: nat, n: nat, m: nat, M: nat)
    requires 1 <= m <= M && AmountsOf(w, n, m, M).min > 0
    ensures AmountsOf(w, n, m, M).amap > 0
  {
    assert w > 0 && n >= m;
    UsedStep(FcfsAmap, w, n, m, M);
    assert Takes(FcfsAmap, n, m, M) > 0;
  }

  /** The condition on the depth, in numbers. */
  lemma SpoilsIff(k: nat, w: nat, n: nat, m: nat, M: nat)
    requires 1 <= m <= M && k < 5 && Used(PolicyAt(k), w, n, m, M) > 0
    ensures Depth(k, w, n, m, M) < Used(PolicyAt(k), w, n, m, M) <==> Spoils(k, w, n, m, M)
  {
    assert w > 0 && n > 0;
    hide Used, AmapUses, Depth, AmountsOf, Quotient, Remainder, Amounts.DepthAt, Amounts.At, Mirror;
    AmountsDefine(k, w, n, m, M);
    AmountsAre(w, n, m, M);
    QuotientRemainder(n, M);
    var u, r := AmountsOf(w, n, m, M), Remainder(n, M);
    if r == 0 && Quotient(n, M) <= w {
      WholeMaxima(w, n, m, M);
      WholeMaximaSpoil(u, k, n, m, M);
    } else if w > Quotient(n, M) {
      Leftover(w, n, m, M);
      RemainderAtMost(n, M);
      if u.min > 0 {
        MinThenAmap(w, n, m, M);
      }
      LeftoverSpoils(u, k, n, r, m, M);
    } else {
      SmallWindow(w, n, m, M);
      SmallWindowSpoils(u, k);
    }
  }

  lemma RemainderAtMost(n: nat, d: nat)
    requires d > 0
    ensures Remainder(n, d) <= n
  {
    DivStep(n, d);
  }

  // ---------- rounds ----------

  /**
   * An undisturbed round, with the exact condition under which it fails: the pool is to shrink, and the
   * sizes are such that the winner counts on the back of the pool.
   */
  method ShrinkingRound(s: Scheduler, ghost m: nat, ghost M: nat) returns (ok: bool, ghost r: Round)
    requires s.Ready(m, M) && s.window > 0 && s.readyQ != [] && |s.resPool| >= m
    requires Distinct(s.resPool) && s.provisionedResources > 0
    modifies s
    ensures RoundOf(old(s.Now()), r, ok, s.Now()) && r.plan != [] && NoEmptyList(r.plan)
    ensures !ok <==>
      Decide(r.plan) == Deprovision && Spoils(r.k, Min(s.window, |old(s.readyQ)|), |old(s.resPool)|, m, M)
    ensures r.k >= 2 ==> (ok <==> Decide(r.plan) != Deprovision)
  {
    hide ValidTrials, Chained, IsWinner, Decide, Resources, JobsOf, Positive, Outcome, Spoils;
    ghost var ready, pool, w := s.readyQ, s.resPool, s.window;
    ok, r := s.SchedRound(m, M);
    WinnerBelow(|ready|, r.trials, r.k);
    UniformWindow(ready, w, m, M);
    BackIsNamed(Window(ready, w), r.trials, pool, r.pool, r.k, m, M);
    LossSpoils(Decide(r.plan), r.pool, Resources(r.plan));
    LateSpoils(r.k, Min(w, |ready|), |pool|, m, M);
  }

  lemma LateSpoils(k: nat, w: nat, n: nat, m: nat, M: nat)
    requires 1 <= m <= M
    ensures k >= 2 ==> Spoils(k, w, n, m, M)
  {
  }

  lemma UniformWindow(ready: seq<Job>, w: nat, m: nat, M: nat)
    requires Uniform(ready, m, M)
    ensures Uniform(Window(ready, w), m, M)
  {
    forall j | j in Window(ready, w) ensures j in ready {}
  }

  lemma LossSpoils(d: Decision, pool: seq<Rid>, named: seq<Rid>)
    requires pool != []
    ensures (forall x :: x in LostBy(d, pool) ==> x !in named) <==> d != Deprovision || pool[|pool| - 1] !in named
  {
    var last := pool[|pool| - 1];
    assert d == Deprovision ==> LostBy(d, pool)[0] == last;
    assert d == Deprovision ==> last in LostBy(d, pool);
    assert d != Deprovision ==> LostBy(d, pool) == [];
  }

  /**
   * A job that waits alone is served on as many resources as it can use, and an undisturbed round
   * fails for it exactly when its target leaves it more than a second on those.
   */
  method LoneRound(s: Scheduler, ghost m: nat, ghost M: nat) returns (ok: bool, ghost r: Round)
    requires s.Ready(m, M) && s.window > 0 && |s.readyQ| == 1 && |s.resPool| >= m
    requires Distinct(s.resPool) && s.provisionedResources > 0
    modifies s
    ensures RoundOf(old(s.Now()), r, ok, s.Now())
    ensures |r.plan| == 1 && r.plan[0].job == old(s.readyQ[0]) && |r.plan[0].res| == Min(M, |old(s.resPool)|) > 0
    ensures ok <==> old(s.readyQ[0].target - s.readyQ[0].predicted / Min(M, |s.resPool|) as real) <= 1.0
  {
    hide ValidTrials, Chained, IsWinner, Decide, Resources, JobsOf, Positive, Outcome, Spoils;
    ghost var ready, pool, w := s.readyQ, s.resPool, s.window;
    ok, r := ShrinkingRound(s, m, M);
    LoneWinner(ready, w, pool, r.pool, r.trials, r.k, m, M);
    DecideOne(r.plan);
    assert Slack(r.plan[0]) == Exact(ready[0].target - ready[0].predicted / Min(M, |pool|) as real);
  }

  lemma LoneWinner(
    ready: seq<Job>, w: nat, pool: seq<Rid>, end: seq<Rid>, trials: seq<Trial>, k: nat, m: nat, M: nat)
    requires 1 <= m <= M && Uniform(ready, m, M) && Positive(ready) && |ready| == 1 && w > 0 && |pool| >= m
    requires ValidTrials(Window(ready, w), trials) && |trials| == 5 && Chained(pool, trials, end)
    requires (forall t :: t in trials ==> Positive(JobsOf(t.plan))) && IsWinner(1, trials, k)
    ensures 2 <= k < 5
    ensures |trials[k].plan| == 1 && trials[k].plan[0].job == ready[0]
    ensures |trials[k].plan[0].res| == Min(M, |pool|) > 0
  {
    hide ValidTrials, Chained, Resources;
    var job := ready[0];
    assert job in ready;
    assert Window(ready, w) == [job];
    forall i | 0 <= i < 5 ensures |trials[i].pool| == |pool| {
      SameLength(pool, trials, end, [job], i);
    }
    LoneJobGetsAll(job, trials, k, |pool|);
  }
}
