/**
 * The scheduler's state and the operations of its scheduling thread, without interference from
 * other threads. Each operation is tied to the functions of the other modules.
 */
module Scheduling {
  import opened Sequences
  import opened Jobs
  import opened Policies
  import opened Sorting
  import opened Winner
  import opened Service
  import opened Elasticity

  /** The plan one policy makes, with its score. */
  class Allocations {
    var jobs: Plan
    var score: int

    constructor ()
      ensures jobs == [] && score == 0
    {
      jobs, score := [], 0;
    }

    method AddJobResourcePair(j: Job, r: seq<Rid>)
      modifies this`jobs
      ensures jobs == old(jobs) + [Pair(j, r)]
    {
      jobs := jobs + [Pair(j, r)];
    }

    /** The accumulated cost of all jobs is the makespan of the plan. */
    method TotalCost() returns (sum: Time)
      requires Positive(JobsOf(jobs))
      ensures sum == Makespan(jobs)
    {
      sum := Finite(0.0);
      for i := 0 to |jobs|
        invariant Positive(JobsOf(jobs[i..])) && sum.Plus(Makespan(jobs[i..])) == Makespan(jobs)
      {
        PositiveSplit(jobs[i..]);
        assert jobs[i..][0] == jobs[i] && jobs[i..][1..] == jobs[i + 1..];
        sum := sum.Plus(Cost(jobs[i]));
      }
      assert jobs[|jobs|..] == [];
    }

    method CountJobs() returns (count: nat)
      ensures count == NoJobs(jobs)
    {
      count := 0;
      for i := 0 to |jobs|
        invariant count + NoJobs(jobs[i..]) == NoJobs(jobs)
      {
        assert jobs[i..][0] == jobs[i] && jobs[i..][1..] == jobs[i + 1..];
        if |jobs[i].res| > 0 {
          count := count + 1;
        }
      }
      assert jobs[|jobs|..] == [];
    }

    /**
     * Two accumulators, of which the negative one takes precedence. With positive predicted times a job
     * without resources contributes minus infinity.
     */
    method JloMetric() returns (metric: Amount)
      requires Positive(JobsOf(jobs))
      ensures metric == Metric(jobs)
    {
      hide Missed, Met, Slack;
      var neg, pos := NOTHING, NOTHING;
      assert jobs[0..] == jobs && NOTHING.Plus(Missed(jobs)) == Missed(jobs) && NOTHING.Plus(Met(jobs)) == Met(jobs);
      for i := 0 to |jobs|
        invariant neg.Plus(Missed(jobs[i..])) == Missed(jobs) && pos.Plus(Met(jobs[i..])) == Met(jobs)
      {
        SumsStep(jobs, i, neg, pos);
        var jlo := Slack(jobs[i]);
        if jlo.Below(0.0) {
          neg := neg.Plus(jlo);
        } else {
          pos := pos.Plus(jlo);
        }
      }
      assert jobs[|jobs|..] == [];
      NoSums(neg, pos);
      metric := if neg.Below(0.0) then neg else pos;
    }

    /** Scores the plan when `q` jobs are waiting. */
    method SetScore(q: nat)
      requires Positive(JobsOf(jobs))
      modifies this`score
      ensures score == Score(q, jobs)
    {
      var n := CountJobs();
      var span := TotalCost();
      if n == 0 || (span.Finite? && span.seconds <= 0.0) {
        score := 0;
      } else {
        var q' := if q > 0 then q else 1;
        score := if span.Infinite? then q' * n else ((q' * n) as real + n as real / span.seconds).Floor;
      }
    }
  }

  ghost function ScoresOf(a: seq<Allocations>): (scores: seq<int>)
    reads a
    ensures |scores| == |a|
    ensures forall i :: 0 <= i < |a| ==> scores[i] == a[i].score
  {
    if a == [] then [] else ScoresOf(a[..|a| - 1]) + [a[|a| - 1].score]
  }

  /** The index of the best score, the last one if there are several. */
  method SelectMaxScore(a: seq<Allocations>) returns (index: nat)
    requires a != []
    ensures IsLastMax(ScoresOf(a), index)
  {
    var maxScore := a[0].score;
    index := 0;
    var i := 0;
    while i < |a|
      invariant 0 <= i <= |a| && index < |a| && maxScore == a[index].score
      invariant index <= i && (i == 0 ==> index == 0)
      invariant i > 0 ==> index < i
      invariant forall k :: 0 <= k < i ==> a[k].score <= maxScore
      invariant forall k :: index < k < i ==> a[k].score < maxScore
    {
      if a[i].score >= maxScore {
        maxScore := a[i].score;
        index := i;
      }
      i := i + 1;
    }
  }

  /** `max_element` and `min_element`: the first of the best among the first `n` jobs. */
  method BestElement(p: Policy, w: array<Job>, n: nat) returns (best: nat)
    requires 0 < n <= w.Length
    ensures best == FirstBest(p, w[..n])
  {
    best := 0;
    assert w[..1] == [w[0]];
    for i := 1 to n
      invariant best == FirstBest(p, w[..i])
    {
      assert w[..i + 1][..i] == w[..i];
      assert w[..i + 1][i] == w[i] && w[..i + 1][best] == w[best];
      if Key(p, w[i]) < Key(p, w[best]) {
        best := i;
      }
    }
  }

  /**
   * `remove` with a reference to one of the elements as the value to remove. The reference changes
   * its meaning after the first move, yet exactly one job goes, because all jobs are different.
   */
  method RemoveElement(w: array<Job>, n: nat, k: nat) returns (nend: nat)
    requires k < n <= w.Length && Distinct(w[..n])
    modifies w
    ensures nend == n - 1 && w[..nend] == Without(old(w[..n]), k) && Distinct(w[..nend])
  {
    ghost var s := w[..n];
    var i := 0;
    while w[i] != w[k]
      invariant i <= k
      decreases k - i
    {
      i := i + 1;
    }
    assert i == k by { assert s[i] == s[k]; }
    nend := i;
    i := i + 1;
    while i < n
      invariant k < i <= n && nend == i - 1
      invariant forall x :: 0 <= x < k ==> w[x] == s[x]
      invariant forall x :: k <= x < nend ==> w[x] == s[x + 1]
      invariant forall x :: nend <= x < n ==> w[x] == s[x]
    {
      assert w[k] == if nend == k then s[k] else s[k + 1];
      if w[i] != w[k] {
        w[nend] := w[i];
        nend := nend + 1;
      }
      i := i + 1;
    }
    assert w[..nend] == Without(s, k);
    assert forall x :: 0 <= x < nend ==> w[x] == if x < k then s[x] else s[x + 1];
  }

  /**
   * Where a policy's loop stands: `made` is what it has added so far, `live` the jobs it has yet to
   * meet, and `pool` what is left of the pool `all`. Together they amount to `plan`.
   */
  ghost predicate Underway(p: Policy, plan: Plan, made: Plan, live: seq<Job>, pool: seq<Rid>, all: seq<Rid>) {
    made + PlanFor(p, live, pool) == plan && |pool| + |Resources(made)| == |all| && pool == all[..|pool|]
  }

  lemma UnderwayStep(p: Policy, plan: Plan, made: Plan, live: seq<Job>, pool: seq<Rid>, all: seq<Rid>)
    requires Underway(p, plan, made, live, pool, all) && live != [] && !Stops(p, live[0], |pool|)
    ensures var list := Taken(pool, Ask(p, live[0]), Need(p, live[0]));
            Underway(p, plan, made + [Pair(live[0], list)], live[1..], pool[..|pool| - |list|], all)
  {
    var list, rest := PlanUnfold(p, live, pool);
    var pair := Pair(live[0], list);
    assert Resources(made + [pair]) == Resources(made) + list by {
      ResourcesConcat(made, [pair]);
      assert Resources([pair]) == list + Resources([]);
    }
    ConcatAssociative(made, [pair], rest);
  }

  lemma UnderwayStop(p: Policy, plan: Plan, made: Plan, live: seq<Job>, pool: seq<Rid>, all: seq<Rid>)
    requires Underway(p, plan, made, live, pool, all) && (live == [] || Stops(p, live[0], |pool|))
    ensures made == plan && |pool| + |Resources(plan)| == |all| && pool == all[..|pool|]
  {
  }

  lemma UnderwayStart(p: Policy, order: seq<Job>, pool: seq<Rid>)
    ensures Underway(p, PlanFor(p, order, pool), [], order, pool, pool)
  {
  }

  lemma PicksHead(p: Policy, live: seq<Job>)
    requires live != []
    ensures Picks(p, live)[0] == live[FirstBest(p, live)]
    ensures Picks(p, live)[1..] == Picks(p, Without(live, FirstBest(p, live)))
  {
  }

  /** The fields of a scheduler at one moment. */
  datatype Fields = Fields(
    pool: seq<Rid>, ready: seq<Job>, runQ: Plan, window: nat, nextJid: int, nextRid: int, provisioned: int)

  /** The record of a round: its trials, the winner, the pool after the trials and the plan served. */
  datatype Round = Round(trials: seq<Trial>, k: nat, pool: seq<Rid>, plan: Plan)

  /**
   * `r` is the record of an undisturbed round that leads from one state to another. Five trials, each on
   * the pool the one before has left, a winner among them, and, if it serves anyone, the claim of its
   * resources from the adjusted pool. If the claim fails, what the state is afterwards is left open.
   */
  ghost predicate RoundOf(before: Fields, r: Round, ok: bool, after: Fields) {
    && |r.trials| == 5 && ValidTrials(Window(before.ready, before.window), r.trials)
    && Chained(before.pool, r.trials, r.pool)
    && (forall t :: t in r.trials ==> Positive(JobsOf(t.plan)))
    && IsWinner(|before.ready|, r.trials, r.k)
    && r.plan == (if NoJobs(r.trials[r.k].plan) > 0 then r.trials[r.k].plan else [])
    && if r.plan == [] then ok && after == before.(pool := r.pool) else Outcome(before, r, ok, after)
  }

  /** The plan of the round is served after the pool has been adjusted, or the claim fails. */
  ghost predicate Outcome(before: Fields, r: Round, ok: bool, after: Fields) {
    var claim := ClaimAll(AdjustPool(Decide(r.plan), r.pool, before.nextRid), Resources(r.plan));
    && ok == claim.Claimed?
    && (ok ==>
          after == before.(pool := claim.pool, ready := RemoveAll(before.ready, r.plan),
                           runQ := Reverse(r.plan) + before.runQ,
                           nextRid := before.nextRid + (if Decide(r.plan) == Provision then 1 else 0),
                           provisioned := before.provisioned + Growth(Decide(r.plan))))
  }

  class Scheduler {
    var resPool: seq<Rid>
    var readyQ: seq<Job>
    var runQ: Plan
    var window: nat
    var nextJid: int
    var resourceId: int
    var provisionedResources: int

    /** A scheduler starts with one resource. */
    constructor ()
      ensures resPool == [1] && resourceId == 2 && provisionedResources == 1
      ensures readyQ == [] && runQ == [] && nextJid == 1 && window == 5
    {
      resPool, resourceId, provisionedResources := [], 1, 0;
      readyQ, runQ, nextJid, window := [], [], 1, 5;
      new;
      ProvisionResource();
    }

    /** All fields at this moment. */
    ghost function Now(): Fields
      reads this
    {
      Fields(resPool, readyQ, runQ, window, nextJid, resourceId, provisionedResources)
    }

    /** What the jobs of the ready queue have in common. */
    ghost predicate Ready(m: nat, M: nat)
      reads this
    {
      1 <= m <= M && Uniform(readyQ, m, M) && Positive(readyQ) && Distinct(readyQ)
    }

    method ProvisionResource()
      modifies this`resPool, this`resourceId, this`provisionedResources
      ensures resPool == old(resPool) + [old(resourceId)]
      ensures resourceId == old(resourceId) + 1 && provisionedResources == old(provisionedResources) + 1
    {
      resPool := resPool + [resourceId];
      resourceId := resourceId + 1;
      provisionedResources := provisionedResources + 1;
    }

    /**
     * Pops a resource for good, if any is provisioned. The counter goes down first; on an empty pool
     * the pop then waits for a resource.
     */
    method DeprovisionResource() returns (waits: bool)
      modifies this`resPool, this`provisionedResources
      ensures waits <==> old(provisionedResources) > 0 && old(resPool) == []
      ensures provisionedResources == old(provisionedResources) - if old(provisionedResources) > 0 then 1 else 0
      ensures resPool ==
        if old(provisionedResources) > 0 then AdjustPool(Deprovision, old(resPool), 0) else old(resPool)
    {
      waits := false;
      if provisionedResources > 0 {
        provisionedResources := provisionedResources - 1;
        if |resPool| == 0 {
          waits := true;
        } else {
          resPool := resPool[..|resPool| - 1];
        }
      }
    }

    /** Grows or shrinks the pool as the metric of a plan demands. */
    method UpdateResourcePool(a: Allocations) returns (waits: bool)
      requires Positive(JobsOf(a.jobs))
      modifies this`resPool, this`resourceId, this`provisionedResources
      ensures waits <==> Decide(a.jobs) == Deprovision && old(provisionedResources) > 0 && old(resPool) == []
      ensures Decide(a.jobs) == Deprovision && old(provisionedResources) <= 0 ==> unchanged(this)
      ensures Decide(a.jobs) != Deprovision || old(provisionedResources) > 0 ==>
        && resPool == AdjustPool(Decide(a.jobs), old(resPool), old(resourceId))
        && resourceId == old(resourceId) + (if Decide(a.jobs) == Provision then 1 else 0)
        && provisionedResources == old(provisionedResources) + Growth(Decide(a.jobs))
    {
      waits := false;
      var jlo := a.JloMetric();
      if jlo.Below(0.0) {
        ProvisionResource();
      } else if !jlo.AtMost(Exact(1.0)) {
        waits := DeprovisionResource();
      }
    }

    method Allocate(maxRes: nat, minRes: nat) returns (list: seq<Rid>)
      modifies this`resPool
      ensures list == Taken(old(resPool), maxRes, minRes)
      ensures resPool == old(resPool)[..|old(resPool)| - |list|]
    {
      list := [];
      if |resPool| >= minRes {
        var left := maxRes;
        while left > 0 && |resPool| > 0
          invariant |list| + left == maxRes && |list| <= |old(resPool)|
          invariant resPool == old(resPool)[..|old(resPool)| - |list|]
          invariant list == Reverse(old(resPool))[..|list|]
        {
          list := list + [resPool[|resPool| - 1]];
          resPool := resPool[..|resPool| - 1];
          left := left - 1;
        }
      }
    }

    method ReturnResources(list: seq<Rid>)
      modifies this`resPool
      ensures resPool == old(resPool) + list
    {
      for i := 0 to |list|
        invariant resPool == old(resPool) + list[..i]
      {
        resPool := resPool + [list[i]];
      }
    }

    /** Gives back everything a plan took. */
    method ReturnPlan(a: Allocations)
      modifies this`resPool
      ensures resPool == old(resPool) + Resources(a.jobs)
    {
      var i := 0;
      while i < |a.jobs|
        invariant 0 <= i <= |a.jobs|
        invariant resPool == old(resPool) + Resources(a.jobs[..i])
      {
        ReturnResources(a.jobs[i].res);
        assert a.jobs[..i + 1] == a.jobs[..i] + [a.jobs[i]];
        ResourcesConcat(a.jobs[..i], [a.jobs[i]]);
        assert Resources([a.jobs[i]]) == a.jobs[i].res + Resources([]);
        i := i + 1;
      }
      assert a.jobs[..|a.jobs|] == a.jobs;
    }

    /** The three first-come-first-served policies; they differ in what they ask for. */
    method Fcfs(p: Policy) returns (a: Allocations)
      requires !Sorts(p)
      modifies this`resPool
      ensures fresh(a) && a.jobs == PlanFor(p, Window(readyQ, window), old(resPool))
      ensures |resPool| + |Resources(a.jobs)| == |old(resPool)| && resPool == old(resPool)[..|resPool|]
    {
      hide Underway, PlanFor, Taken;
      a := new Allocations();
      ghost var live := Window(readyQ, window);
      ghost var plan := PlanFor(p, live, resPool);
      ghost var all := resPool;
      UnderwayStart(p, live, all);
      var i: nat := 0;
      while i < window && i < |readyQ|
        invariant i <= |readyQ| && i <= window && live == readyQ[i..Min(window, |readyQ|)] && fresh(a)
        invariant Underway(p, plan, a.jobs, live, resPool, all)
      {
        if !Stops(p, live[0], |resPool|) {
          UnderwayStep(p, plan, a.jobs, live, resPool, all);
        }
        ghost var before := resPool;
        var served := ServeNext(p, a, readyQ[i]);
        if !served {
          assert resPool == before;
          break;
        }
        live := live[1..];
        i := i + 1;
      }
      UnderwayStop(p, plan, a.jobs, live, resPool, all);
    }

    /** Tries to allocate resources to a job and adds it to the plan if there are any. */
    method ServeNext(p: Policy, a: Allocations, j: Job) returns (served: bool)
      requires !Sorts(p)
      modifies this`resPool, a`jobs
      ensures served == !Stops(p, j, |old(resPool)|)
      ensures var list := Taken(old(resPool), Ask(p, j), Need(p, j));
              && resPool == old(resPool)[..|old(resPool)| - |list|]
              && a.jobs == if served then old(a.jobs) + [Pair(j, list)] else old(a.jobs)
    {
      var list := Allocate(Ask(p, j), Need(p, j));
      served := |list| > 0;
      if served {
        a.AddJobResourcePair(j, list);
      }
    }

    /** SJTF and Priority: pick the best job of a sorted window until the test fails. */
    method BySelection(p: Policy) returns (a: Allocations, ghost order: seq<Job>)
      requires Sorts(p) && AllUse(readyQ) && Distinct(readyQ)
      modifies this`resPool
      ensures fresh(a) && OrderFor(p, Window(readyQ, window), order)
      ensures a.jobs == PlanFor(p, order, old(resPool))
      ensures |resPool| + |Resources(a.jobs)| == |old(resPool)| && resPool == old(resPool)[..|resPool|]
    {
      var win := CopyWindow();
      var w, sorted := SortWindow(p, win);
      order := Picks(p, sorted);
      PicksAreAnOrder(p, win, sorted);
      a := new Allocations();
      PickAndServe(p, a, w);
    }

    method PickAndServe(p: Policy, a: Allocations, w: array<Job>)
      requires Sorts(p) && Distinct(w[..]) && a.jobs == []
      modifies this`resPool, a`jobs, w
      ensures a.jobs == PlanFor(p, Picks(p, old(w[..])), old(resPool))
      ensures |resPool| + |Resources(a.jobs)| == |old(resPool)| && resPool == old(resPool)[..|resPool|]
    {
      hide Underway, PlanFor, Picks, Taken, Distinct, FirstBest, Stops;
      ghost var live, all := w[..], resPool;
      ghost var todo := Picks(p, live);
      UnderwayStart(p, todo, all);
      ghost var plan := PlanFor(p, todo, resPool);
      var nend: nat, best: nat := w.Length, 0;
      if nend > 0 {
        best := BestElement(p, w, nend);
      }
      while nend > 0 && !Stops(p, w[best], |resPool|)
        invariant nend <= w.Length && live == w[..nend] && Distinct(live) && todo == Picks(p, live)
        invariant nend > 0 ==> best == FirstBest(p, live)
        invariant Underway(p, plan, a.jobs, todo, resPool, all)
        decreases nend
      {
        PicksHead(p, live);
        UnderwayStep(p, plan, a.jobs, todo, resPool, all);
        nend := ServeBest(p, a, w, nend, best);
        todo, live := todo[1..], Without(live, best);
        if nend > 0 {
          best := BestElement(p, w, nend);
        }
      }
      if nend > 0 {
        PicksHead(p, live);
      }
      UnderwayStop(p, plan, a.jobs, todo, resPool, all);
    }

    /** Gives the picked job its maximum, if there is enough, and takes it out of the window. */
    method ServeBest(p: Policy, a: Allocations, w: array<Job>, n: nat, best: nat) returns (nend: nat)
      requires Sorts(p) && best < n <= w.Length && Distinct(w[..n])
      modifies this`resPool, a`jobs, w
      ensures var j := old(w[best]); var list := Taken(old(resPool), Ask(p, j), Need(p, j));
              a.jobs == old(a.jobs) + [Pair(j, list)] && resPool == old(resPool)[..|old(resPool)| - |list|]
      ensures nend == n - 1 && w[..nend] == Without(old(w[..n]), best) && Distinct(w[..nend])
    {
      var j := w[best];
      var list := Allocate(j.max, j.max);
      a.AddJobResourcePair(j, list);
      nend := RemoveElement(w, n, best);
    }

    /** A sorted copy of the window, laid out for picking. */
    method SortWindow(p: Policy, win: seq<Job>) returns (w: array<Job>, sorted: seq<Job>)
      requires AllUse(win) && Distinct(win)
      ensures fresh(w) && w[..] == sorted && Distinct(sorted)
      ensures AllUse(sorted) && SortedBy(p, sorted) && multiset(sorted) == multiset(win)
    {
      sorted := Sorted(p, win);
      DistinctPermutation(win, sorted);
      w := new Job[|sorted|](i requires 0 <= i < |sorted| => sorted[i]);
    }

    method CopyWindow() returns (win: seq<Job>)
      requires AllUse(readyQ) && Distinct(readyQ)
      ensures win == Window(readyQ, window) && AllUse(win) && Distinct(win)
    {
      win := [];
      var i := 0;
      while i < window && i < |readyQ|
        invariant 0 <= i <= |Window(readyQ, window)| && win == readyQ[..i]
      {
        win := win + [readyQ[i]];
        i := i + 1;
      }
      forall j | j in win ensures j in readyQ {}
    }

    /** Runs one policy, provided there are resources and waiting jobs. */
    method Schedule(choice: nat) returns (a: Allocations?, ghost order: seq<Job>)
      requires choice < 5 && AllUse(readyQ) && Distinct(readyQ)
      modifies this`resPool
      ensures a == null <==> old(resPool) == [] || readyQ == []
      ensures a == null ==> resPool == old(resPool)
      ensures a != null ==>
        && fresh(a) && OrderFor(PolicyAt(choice), Window(readyQ, window), order)
        && a.jobs == PlanFor(PolicyAt(choice), order, old(resPool))
        && |resPool| + |Resources(a.jobs)| == |old(resPool)| && resPool == old(resPool)[..|resPool|]
    {
      a, order := null, [];
      if |resPool| > 0 && |readyQ| > 0 {
        if Sorts(PolicyAt(choice)) {
          a, order := BySelection(PolicyAt(choice));
        } else {
          order := Window(readyQ, window);
          a := Fcfs(PolicyAt(choice));
        }
      }
    }

    /**
     * A trial: one policy runs on the live pool and everything it took is put back. The pool keeps
     * its untouched prefix, followed by what was taken, in reverse.
     */
    method Try(i: nat) returns (a: Allocations, ghost t: Trial)
      requires i < 5 && AllUse(readyQ) && Distinct(readyQ) && resPool != [] && readyQ != []
      modifies this`resPool
      ensures fresh(a) && a.jobs == t.plan && t.pool == old(resPool)
      ensures ValidTrial(PolicyAt(i), Window(readyQ, window), t)
      ensures |Resources(t.plan)| <= |old(resPool)| && resPool == GivenBack(t)
      ensures var cut := |old(resPool)| - |Resources(t.plan)|;
              resPool == old(resPool)[..cut] + Reverse(old(resPool)[cut..])
      ensures |resPool| == |old(resPool)| && multiset(resPool) == multiset(old(resPool))
    {
      hide PlanFor, OrderFor;
      var plan, order := Schedule(i);
      a := plan;
      t := Trial(order, old(resPool), a.jobs);
      TrialThenReturn(PolicyAt(i), order, old(resPool));
      ReturnPlan(a);
      assert |resPool| == |old(resPool)|;
    }

    /** All five trials, in order, without loss of any resource. */
    method TryAll() returns (all: seq<Allocations>, ghost trials: seq<Trial>)
      requires AllUse(readyQ) && Distinct(readyQ) && resPool != [] && readyQ != []
      modifies this`resPool
      ensures |all| == 5 == |trials| && fresh(all)
      ensures forall i, k :: 0 <= i < k < 5 ==> all[i] != all[k]
      ensures forall i :: 0 <= i < 5 ==>
        all[i].jobs == trials[i].plan && multiset(trials[i].pool) == multiset(old(resPool))
      ensures ValidTrials(Window(readyQ, window), trials) && Chained(old(resPool), trials, resPool)
      ensures |resPool| == |old(resPool)| && multiset(resPool) == multiset(old(resPool))
    {
      hide ValidTrial, ValidTrials, Chained, GivenBack;
      all, trials := [], [];
      NoChain(resPool);
      NoTrials(Window(readyQ, window));
      for i := 0 to 5
        invariant |all| == i == |trials| && fresh(all)
        invariant forall i, k :: 0 <= i < k < |all| ==> all[i] != all[k]
        invariant forall k :: 0 <= k < i ==>
          all[k].jobs == trials[k].plan && multiset(trials[k].pool) == multiset(old(resPool))
        invariant ValidTrials(Window(readyQ, window), trials) && Chained(old(resPool), trials, resPool)
        invariant |resPool| == |old(resPool)| && multiset(resPool) == multiset(old(resPool))
      {
        ghost var t;
        var a;
        a, t := Try(i);
        forall u | u in trials ensures |u.pool| == |t.pool| {
          PermutationFacts(u.pool, old(resPool));
        }
        ValidTrialsExtend(Window(readyQ, window), trials, t);
        ChainedExtend(old(resPool), trials, t);
        all, trials := all + [a], trials + [t];
      }
    }

    /** Tries every policy and keeps the best plan. */
    method ManagedMode() returns (a: Allocations, ghost trials: seq<Trial>, ghost k: nat)
      requires AllUse(readyQ) && Distinct(readyQ) && Positive(readyQ) && resPool != [] && readyQ != []
      modifies this`resPool
      ensures fresh(a) && |trials| == 5 && ValidTrials(Window(readyQ, window), trials)
              && Chained(old(resPool), trials, resPool)
      ensures forall t :: t in trials ==> Positive(JobsOf(t.plan)) && multiset(t.pool) == multiset(old(resPool))
      ensures IsWinner(|readyQ|, trials, k) && k < 5 && a.jobs == trials[k].plan
      ensures |resPool| == |old(resPool)| && multiset(resPool) == multiset(old(resPool))
    {
      hide ValidTrials, Score, JobsOf, Positive, Chained;
      var all;
      all, trials := TryAll();
      PositiveWindow(readyQ, window);
      TrialsPositive(Window(readyQ, window), trials);
      for i := 0 to 5
        modifies all
        invariant forall x :: 0 <= x < 5 ==> all[x].jobs == trials[x].plan
        invariant forall x :: 0 <= x < i ==>
          Positive(JobsOf(trials[x].plan)) && all[x].score == Score(|readyQ|, trials[x].plan)
      {
        assert trials[i] in trials;
        all[i].SetScore(|readyQ|);
      }
      var index := SelectMaxScore(all);
      k, a := index, all[index];
      forall i | 0 <= i < 5
        ensures Score(|readyQ|, trials[i].plan) == ScoresOf(all)[i]
      {
        assert trials[i] in trials;
      }
    }

    method RemoveJobFromReadyQ(id: int)
      modifies this`readyQ
      ensures readyQ == RemoveJob(old(readyQ), id)
    {
      var i := 0;
      while i < |readyQ| && readyQ[i].id != id
        invariant 0 <= i <= |readyQ|
        invariant RemoveJob(readyQ, id) == readyQ[..i] + RemoveJob(readyQ[i..], id)
      {
        assert readyQ[i..][0] == readyQ[i] && readyQ[i..][1..] == readyQ[i + 1..];
        assert readyQ[..i + 1] == readyQ[..i] + [readyQ[i]];
        i := i + 1;
      }
      if i < |readyQ| {
        assert readyQ[i..][0] == readyQ[i] && readyQ[i..][1..] == readyQ[i + 1..];
        readyQ := readyQ[..i] + readyQ[i + 1..];
      } else {
        assert readyQ[..i] == readyQ && readyQ[i..] == [];
      }
    }

    /** Takes the listed resources out of the pool, by id; fails where one is missing. */
    method ClaimResources(list: seq<Rid>) returns (ok: bool)
      modifies this`resPool
      ensures ok == ClaimAll(old(resPool), list).Claimed?
      ensures resPool == ClaimAll(old(resPool), list).pool
    {
      ok := true;
      var i := 0;
      assert list[0..] == list;
      while i < |list|
        invariant 0 <= i <= |list|
        invariant ClaimAll(resPool, list[i..]) == ClaimAll(old(resPool), list)
      {
        assert list[i..][0] == list[i] && list[i..][1..] == list[i + 1..];
        if list[i] !in resPool {
          ok := false;
          return;
        }
        resPool := Erase(resPool, list[i]);
        i := i + 1;
      }
    }

    /** Puts a plan into service, job by job. */
    method ServiceAllocations(a: Allocations) returns (ok: bool)
      modifies this`readyQ, this`resPool, this`runQ
      ensures ok == ClaimAll(old(resPool), Resources(a.jobs)).Claimed?
      ensures ok ==> resPool == ClaimAll(old(resPool), Resources(a.jobs)).pool
      ensures ok ==> readyQ == RemoveAll(old(readyQ), a.jobs)
      ensures ok ==> runQ == Reverse(a.jobs) + old(runQ)
    {
      hide ClaimAll, RemoveJob, Reverse;
      ok := true;
      NothingReversed(a.jobs, runQ);
      ghost var todo := a.jobs;
      var i := 0;
      while i < |a.jobs|
        invariant 0 <= i <= |a.jobs| && todo == a.jobs[i..]
        invariant ClaimAll(resPool, Resources(todo)) == ClaimAll(old(resPool), Resources(a.jobs))
        invariant RemoveAll(readyQ, todo) == RemoveAll(old(readyQ), a.jobs)
        invariant runQ == Reverse(a.jobs[..i]) + old(runQ)
      {
        var pair := a.jobs[i];
        RemoveJobFromReadyQ(pair.job.id);
        ClaimSplit(resPool, pair.res, Resources(todo[1..]));
        ok := ClaimResources(pair.res);
        if !ok {
          return;
        }
        runQ := [pair] + runQ;
        ReversedOneMore(a.jobs, i, old(runQ));
        todo := todo[1..];
        i := i + 1;
      }
      ClaimNothing(resPool);
      assert a.jobs[..i] == a.jobs;
    }

    /**
     * Lets the elasticity manager adjust the pool and then puts the plan into service. This fails
     * exactly when the manager has just taken away a resource the plan counts on. Otherwise the jobs
     * move from the ready queue to the run queue and the pool loses precisely their resources.
     */
    method AdjustAndServe(a: Allocations) returns (ok: bool)
      requires Positive(JobsOf(a.jobs)) && multiset(Resources(a.jobs)) <= multiset(resPool)
      requires resPool != [] && provisionedResources > 0 && forall r :: multiset(resPool)[r] <= 1
      modifies this`resPool, this`readyQ, this`runQ, this`resourceId, this`provisionedResources
      ensures ok <==> forall r :: r in LostBy(Decide(a.jobs), old(resPool)) ==> r !in Resources(a.jobs)
      ensures ok ==> readyQ == RemoveAll(old(readyQ), a.jobs) && runQ == Reverse(a.jobs) + old(runQ)
      ensures var claim := ClaimAll(AdjustPool(Decide(a.jobs), old(resPool), old(resourceId)), Resources(a.jobs));
              ok == claim.Claimed? && (ok ==> resPool == claim.pool)
      ensures resourceId == old(resourceId) + (if Decide(a.jobs) == Provision then 1 else 0)
      ensures provisionedResources == old(provisionedResources) + Growth(Decide(a.jobs))
      ensures ok ==> Conserved(a.jobs, old(resPool), old(resourceId), resPool)
      ensures ok ==>
        provisionedResources - |resPool| == old(provisionedResources - |resPool|) + |Resources(a.jobs)|
    {
      hide Decide, ClaimAll, RemoveAll, Reverse, Resources, JobsOf, Positive;
      ghost var pool, id, decision := resPool, resourceId, Decide(a.jobs);
      var waits := UpdateResourcePool(a);
      ghost var lost := LostBy(decision, pool);
      assert decision == Deprovision ==> pool == resPool + lost;
      AdjustThenClaim(pool, resPool, Resources(a.jobs), lost, if decision == Provision then [id] else []);
      ok := ServiceAllocations(a);
    }

    /**
     * One turn of the scheduling loop when nothing interferes. It serves someone whenever the pool
     * has room for one job, and gives everyone it serves at least one resource.
     */
    method SchedRound(ghost m: nat, ghost M: nat) returns (ok: bool, ghost r: Round)
      requires Ready(m, M) && window > 0 && readyQ != [] && resPool != []
      requires Distinct(resPool) && provisionedResources > 0
      modifies this`resPool, this`readyQ, this`runQ, this`resourceId, this`provisionedResources
      ensures RoundOf(old(Now()), r, ok, Now())
      ensures NoEmptyList(r.plan) && (|old(resPool)| >= m ==> r.plan != [])
      ensures multiset(r.pool) == multiset(old(resPool)) && multiset(Resources(r.plan)) <= multiset(r.pool)
      ensures r.plan != [] ==> (ok <==> forall x :: x in LostBy(Decide(r.plan), r.pool) ==> x !in Resources(r.plan))
      ensures r.plan != [] && ok ==> Conserved(r.plan, r.pool, old(resourceId), resPool)
      ensures ok ==> provisionedResources - |resPool| == old(provisionedResources - |resPool|) + |Resources(r.plan)|
    {
      hide ValidTrials, IsWinner, Decide, RemoveAll, Reverse, Resources, JobsOf, Chained, Positive, ClaimAll,
           AdjustPool, LostBy, Growth, Conserved;
      ReadyFacts(readyQ, m, M);
      DistinctMultiset(resPool);
      var a;
      ghost var trials, k;
      a, trials, k := ManagedMode();
      ghost var pool := resPool;
      RoundPlan(readyQ, window, old(resPool), trials, k, m, M);
      var n := a.CountJobs();
      if n > 0 {
        ghost var plan := a.jobs;
        assert trials[k] in trials;
        ok := AdjustAndServe(a);
        r := Round(trials, k, pool, plan);
      } else {
        ok := true;
        r := Round(trials, k, pool, []);
        NothingNamed();
      }
    }
  }

  /** After a round the pool and the plan hold what the pool held, with what the adjustment added or took. */
  ghost predicate Conserved(plan: Plan, pool: seq<Rid>, id: Rid, rest: seq<Rid>) {
    multiset(rest) + multiset(Resources(plan)) + multiset(LostBy(Decide(plan), pool))
    == multiset(pool) + multiset(if Decide(plan) == Provision then [id] else [])
  }

  lemma NothingReversed(plan: Plan, q: Plan)
    ensures Reverse(plan[..0]) + q == q
  {
  }

  lemma ReversedOneMore(plan: Plan, i: nat, q: Plan)
    requires i < |plan|
    ensures Reverse(plan[..i + 1]) + q == [plan[i]] + (Reverse(plan[..i]) + q)
  {
  }

  lemma NoTrials(window: seq<Job>)
    ensures ValidTrials(window, [])
  {
  }

  lemma NoChain(pool: seq<Rid>)
    ensures Chained(pool, [], pool)
  {
  }

  lemma NothingNamed()
    ensures Resources([]) == []
  {
  }

  lemma Balance(grown: seq<Rid>, rest: seq<Rid>, named: seq<Rid>)
    requires multiset(named) <= multiset(grown) && multiset(rest) == multiset(grown) - multiset(named)
    ensures |rest| + |named| == |grown|
    ensures multiset(rest) + multiset(named) == multiset(grown)
  {
    assert |multiset(rest)| == |rest| && |multiset(named)| == |named| && |multiset(grown)| == |grown|;
  }

  /** What a winning plan takes comes from the pool, and every job it serves gets a share. */
  lemma RoundPlan(ready: seq<Job>, w: nat, pool: seq<Rid>, trials: seq<Trial>, k: nat, m: nat, M: nat)
    requires ready != [] && w > 0 && 1 <= m <= M && Uniform(ready, m, M) && Positive(ready)
    requires |trials| == 5 && ValidTrials(Window(ready, w), trials)
    requires forall t :: t in trials ==> Positive(JobsOf(t.plan)) && multiset(t.pool) == multiset(pool)
    requires IsWinner(|ready|, trials, k)
    ensures NoJobs(trials[k].plan) > 0 ==> NoEmptyList(trials[k].plan) && trials[k].plan != []
    ensures |pool| >= m ==> NoJobs(trials[k].plan) > 0
    ensures multiset(Resources(trials[k].plan)) <= multiset(pool)
  {
    PositiveWindow(ready, w);
    forall j | j in Window(ready, w) ensures j in ready {}
    if NoJobs(trials[k].plan) > 0 {
      WinnerHasNoEmptyList(|ready|, Window(ready, w), trials, k, m, M);
    }
    assert trials[0] in trials && trials[k] in trials;
    PermutationFacts(trials[0].pool, pool);
    if |pool| >= m {
      WinnerServes(|ready|, Window(ready, w), trials, k, m, M);
    }
    PlanResources(PolicyAt(k), trials[k].order, trials[k].pool);
    GiveBack(trials[k].pool, Resources(trials[k].plan));
  }

  lemma ReadyFacts(ready: seq<Job>, m: nat, M: nat)
    requires 1 <= m && Uniform(ready, m, M)
    ensures AllUse(ready)
  {
  }

  /**
   * What a claim does to a pool that has just gained or lost a resource: it succeeds unless it names
   * the lost one, and then the pool is short of precisely the claimed resources.
   */
  lemma AdjustThenClaim(pool: seq<Rid>, grown: seq<Rid>, list: seq<Rid>, lost: seq<Rid>, gained: seq<Rid>)
    requires multiset(list) <= multiset(pool) && forall r :: multiset(pool)[r] <= 1
    requires |lost| <= 1 && (lost == [] ==> grown == pool + gained)
    requires lost != [] ==> gained == [] && pool == grown + lost
    ensures ClaimAll(grown, list).Claimed? <==> forall r :: r in lost ==> r !in list
    ensures ClaimAll(grown, list).Claimed? ==>
      && multiset(ClaimAll(grown, list).pool) + multiset(list) + multiset(lost) == multiset(pool) + multiset(gained)
      && |ClaimAll(grown, list).pool| + |list| == |grown|
  {
    ClaimTakesList(grown, list);
    ClaimAfterLoss(pool, grown, list, lost);
    if ClaimAll(grown, list).Claimed? {
      Balance(grown, ClaimAll(grown, list).pool, list);
    }
  }

  /** Losing a resource spoils a claim exactly when the claim names it. */
  lemma ClaimAfterLoss(pool: seq<Rid>, grown: seq<Rid>, list: seq<Rid>, lost: seq<Rid>)
    requires multiset(list) <= multiset(pool) && forall r :: multiset(pool)[r] <= 1
    requires |lost| <= 1 && (lost == [] ==> multiset(pool) <= multiset(grown))
    requires lost != [] ==> pool == grown + lost
    ensures multiset(list) <= multiset(grown) <==> forall r :: r in lost ==> r !in list
  {
    if lost != [] {
      var x := lost[0];
      assert lost == [x];
      assert multiset(pool) == multiset(grown) + multiset{x};
      assert multiset(grown)[x] == 0 by { assert multiset(pool)[x] <= 1; }
      assert x in list <==> multiset(list)[x] > 0;
    }
  }

  lemma PositiveWindow(ready: seq<Job>, w: nat)
    requires Positive(ready)
    ensures Positive(Window(ready, w))
  {
    forall j | j in Window(ready, w) ensures j in ready {}
  }
}
