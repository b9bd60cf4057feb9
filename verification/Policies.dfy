/**
 * What the five allocation policies compute, as functions of the waiting jobs and the pool.
 *
 * Each policy walks through jobs in some order, taking resources from the back of the pool.
 * The first-come-first-served ones walk through the window itself; the other two pick from a
 * sorted copy of it. The sort is not stable, so their order is any that respects the keys.
 */
module Policies {
  import opened Sequences
  import opened Jobs

  /** In the order in which the policies are registered and tried. */
  datatype Policy = FcfsMax | FcfsMin | FcfsAmap | Sjtf | Priority

  function PolicyAt(i: nat): Policy
    requires i < 5
  {
    [FcfsMax, FcfsMin, FcfsAmap, Sjtf, Priority][i]
  }

  function Ask(p: Policy, j: Job): nat {
    if p.FcfsMin? then j.min else j.max
  }

  function Need(p: Policy, j: Job): nat {
    if p.FcfsMin? || p.FcfsAmap? then j.min else j.max
  }

  /** How many resources an allocation yields when `n` are free. */
  function TakeCount(n: nat, ask: nat, need: nat): nat {
    if n >= need then Min(ask, n) else 0
  }

  /** The resources an allocation pops off the back of the pool, in the order they come off. */
  function Taken(pool: seq<Rid>, ask: nat, need: nat): (list: seq<Rid>)
    ensures |list| == TakeCount(|pool|, ask, need) <= |pool|
  {
    Reverse(pool)[..TakeCount(|pool|, ask, need)]
  }

  /** The test that ends a policy's loop before it adds the job `j`, when `n` resources are free. */
  predicate Stops(p: Policy, j: Job, n: nat) {
    match p
    case Sjtf => j.min >= n
    case Priority => j.max >= n
    case _ => TakeCount(n, Ask(p, j), Need(p, j)) == 0
  }

  /** The plan a policy makes when it meets the jobs in the given order. */
  function PlanFor(p: Policy, order: seq<Job>, pool: seq<Rid>): (plan: Plan)
    ensures |plan| <= |order|
  {
    if order == [] || Stops(p, order[0], |pool|) then []
    else
      var list := Taken(pool, Ask(p, order[0]), Need(p, order[0]));
      [Pair(order[0], list)] + PlanFor(p, order[1..], pool[..|pool| - |list|])
  }

  /** The jobs a policy looks at: the front of the ready queue. */
  function Window(ready: seq<Job>, w: nat): seq<Job> {
    ready[..Min(w, |ready|)]
  }

  ghost predicate ByPriority(order: seq<Job>) {
    forall i, k :: 0 <= i < k < |order| ==> order[i].priority >= order[k].priority
  }

  /** Shortest first: by fewest resources, then by shortest time on those. */
  ghost predicate ByMinThenTime(order: seq<Job>)
    requires forall j :: j in order ==> j.min > 0
  {
    forall i, k :: 0 <= i < k < |order| ==>
      order[i].min < order[k].min || (order[i].min == order[k].min && MinCost(order[i]) <= MinCost(order[k]))
  }

  /** The orders in which a policy may meet the jobs of its window. */
  ghost predicate OrderFor(p: Policy, window: seq<Job>, order: seq<Job>) {
    match p
    case Sjtf => multiset(order) == multiset(window) && (forall j :: j in order ==> j.min > 0) && ByMinThenTime(order)
    case Priority => multiset(order) == multiset(window) && ByPriority(order)
    case _ => order == window
  }

  /** The window is as much of the front of the ready queue as there is. */
  lemma WindowIs(ready: seq<Job>, w: nat)
    ensures Window(ready, w) <= ready && |Window(ready, w)| <= w
    ensures |Window(ready, w)| < w ==> Window(ready, w) == ready
  {
  }

  /** The time on the minimum, multiplied by the minimum, is the predicted time. */
  lemma MinCostIs(a: Job, b: Job)
    requires a.min > 0 && b.min > 0
    ensures MinCost(a) * a.min as real == a.predicted
    ensures MinCost(a) <= MinCost(b) <==> a.predicted * b.min as real <= b.predicted * a.min as real
  {
    var x, y, k, l := MinCost(a), MinCost(b), a.min as real, b.min as real;
    assert x * k == a.predicted && y * l == b.predicted;
    assert (y - x) * (k * l) == b.predicted * k - a.predicted * l by {
      assert y * (k * l) == (y * l) * k && x * (k * l) == (x * k) * l;
    }
    SignOf(y - x, k * l);
  }

  lemma SignOf(x: real, k: real)
    requires k > 0.0
    ensures x * k >= 0.0 <==> x >= 0.0
  {
    if x < 0.0 {
      assert (-x) * k > 0.0;
      assert (-x) * k == -(x * k);
    }
  }

  /** SJTF meets the jobs of its window by fewest resources, and among those by shortest predicted time. */
  lemma ShortestFirst(window: seq<Job>, order: seq<Job>)
    ensures OrderFor(Sjtf, window, order) <==>
            && multiset(order) == multiset(window)
            && (forall j :: j in order ==> j.min > 0)
            && forall i, k :: 0 <= i < k < |order| ==>
                 order[i].min < order[k].min
                 || (order[i].min == order[k].min && order[i].predicted <= order[k].predicted)
  {
    if forall j :: j in order ==> j.min > 0 {
      forall i, k | 0 <= i < k < |order| && order[i].min == order[k].min
        ensures MinCost(order[i]) <= MinCost(order[k]) <==> order[i].predicted <= order[k].predicted
      {
        var a, b := order[i], order[k];
        MinCostIs(a, b);
        assert b.predicted * b.min as real - a.predicted * b.min as real == (b.predicted - a.predicted) * b.min as real;
        SignOf(b.predicted - a.predicted, b.min as real);
      }
    }
  }

  lemma OrderFacts(p: Policy, window: seq<Job>, order: seq<Job>)
    requires OrderFor(p, window, order)
    ensures multiset(order) == multiset(window) && |order| == |window|
    ensures forall j :: j in order <==> j in window
  {
    PermutationFacts(order, window);
  }

  /** One turn of a policy's loop. */
  lemma PlanUnfold(p: Policy, order: seq<Job>, pool: seq<Rid>) returns (list: seq<Rid>, rest: Plan)
    requires order != [] && !Stops(p, order[0], |pool|)
    ensures list == Taken(pool, Ask(p, order[0]), Need(p, order[0]))
    ensures rest == PlanFor(p, order[1..], pool[..|pool| - |list|])
    ensures PlanFor(p, order, pool) == [Pair(order[0], list)] + rest
    ensures Resources(PlanFor(p, order, pool)) == list + Resources(rest)
    ensures NoJobs(PlanFor(p, order, pool)) == (if list == [] then 0 else 1) + NoJobs(rest)
  {
    list := Taken(pool, Ask(p, order[0]), Need(p, order[0]));
    rest := PlanFor(p, order[1..], pool[..|pool| - |list|]);
    var plan := PlanFor(p, order, pool);
    assert plan == [Pair(order[0], list)] + rest;
    assert plan[1..] == rest;
  }

  /** A policy serves a prefix of its order. */
  lemma {:induction false} PlanPrefix(p: Policy, order: seq<Job>, pool: seq<Rid>)
    ensures var plan := PlanFor(p, order, pool); forall i :: 0 <= i < |plan| ==> plan[i].job == order[i]
  {
    if order != [] && !Stops(p, order[0], |pool|) {
      var list, rest := PlanUnfold(p, order, pool);
      PlanPrefix(p, order[1..], pool[..|pool| - |list|]);
    }
  }

  lemma PlanJobs(p: Policy, order: seq<Job>, pool: seq<Rid>)
    ensures JobsOf(PlanFor(p, order, pool)) == order[..|PlanFor(p, order, pool)|]
  {
    PlanPrefix(p, order, pool);
  }

  /** A trial names the back of the pool, read backwards, without gaps. */
  lemma {:induction false} PlanResources(p: Policy, order: seq<Job>, pool: seq<Rid>)
    ensures Resources(PlanFor(p, order, pool)) <= Reverse(pool)
  {
    if order != [] && !Stops(p, order[0], |pool|) {
      var list, rest := PlanUnfold(p, order, pool);
      PlanResources(p, order[1..], pool[..|pool| - |list|]);
      ReverseTake(pool, |list|);
      assert Reverse(pool) == list + Reverse(pool)[|list|..];
    }
  }

  /** Popping resources off the back and pushing them on again reverses the back of the pool. */
  lemma GiveBack(pool: seq<Rid>, res: seq<Rid>)
    requires res <= Reverse(pool)
    ensures res == Reverse(pool[|pool| - |res|..])
    ensures multiset(pool[..|pool| - |res|]) + multiset(res) == multiset(pool)
  {
    var t := |pool| - |res|;
    forall i | 0 <= i < |res| ensures res[i] == Reverse(pool[t..])[i] {
      assert res[i] == Reverse(pool)[i];
    }
    ReverseMultiset(pool[t..]);
    assert pool == pool[..t] + pool[t..];
  }

  /** The pool after a trial has taken its resources. */
  function Remaining(plan: Plan, pool: seq<Rid>): seq<Rid>
    requires |Resources(plan)| <= |pool|
  {
    pool[..|pool| - |Resources(plan)|]
  }

  /**
   * Taking a plan and giving it back leaves the untouched prefix followed by the taken suffix in
   * reverse, so no resource is lost, gained or duplicated.
   */
  lemma TrialThenReturn(p: Policy, order: seq<Job>, pool: seq<Rid>)
    ensures var plan := PlanFor(p, order, pool);
            && |Resources(plan)| <= |pool|
            && var t := |pool| - |Resources(plan)|;
               && Remaining(plan, pool) + Resources(plan) == pool[..t] + Reverse(pool[t..])
               && multiset(Remaining(plan, pool) + Resources(plan)) == multiset(pool)
  {
    hide PlanFor, Resources, Reverse;
    PlanResources(p, order, pool);
    GiveBack(pool, Resources(PlanFor(p, order, pool)));
  }

  // ---------- what each policy hands out, for arbitrary bounds ----------

  ghost predicate ListFits(p: Policy, pair: Pair) {
    match p
    case FcfsAmap => 0 < |pair.res| && pair.job.min <= |pair.res| <= pair.job.max
    case Sjtf => |pair.res| == 0 || |pair.res| == pair.job.max
    case FcfsMin => 0 < |pair.res| == pair.job.min
    case FcfsMax => 0 < |pair.res| == pair.job.max
    case Priority => |pair.res| == pair.job.max
  }

  /**
   * The three exact policies give every job they serve precisely what they ask for, the greedy one
   * stays within the job's bounds, and SJTF gives all or nothing.
   */
  lemma {:induction false} PlanLists(p: Policy, order: seq<Job>, pool: seq<Rid>)
    requires p.FcfsAmap? ==> forall j :: j in order ==> j.min <= j.max
    ensures forall pair :: pair in PlanFor(p, order, pool) ==> ListFits(p, pair)
  {
    if order != [] && !Stops(p, order[0], |pool|) {
      var j := order[0];
      assert j in order;
      var list := Taken(pool, Ask(p, j), Need(p, j));
      forall j' | j' in order[1..] ensures j' in order {}
      PlanLists(p, order[1..], pool[..|pool| - |list|]);
      assert ListFits(p, Pair(j, list));
    }
  }

  /** A policy stops only at the end of its order or at the job that fails its test. */
  lemma {:induction false} PlanStops(p: Policy, order: seq<Job>, pool: seq<Rid>)
    ensures var plan := PlanFor(p, order, pool);
            && |Resources(plan)| <= |pool|
            && (|plan| < |order| ==> Stops(p, order[|plan|], |pool| - |Resources(plan)|))
  {
    PlanResources(p, order, pool);
    if order != [] && !Stops(p, order[0], |pool|) {
      var list, rest := PlanUnfold(p, order, pool);
      PlanStops(p, order[1..], pool[..|pool| - |list|]);
      assert |rest| + 1 < |order| ==> order[|rest| + 1] == order[1..][|rest|];
    }
  }

  /** What a policy demands of the `n` free resources before it adds a job. */
  ghost predicate Demands(p: Policy, j: Job, n: int) {
    match p
    case FcfsMax => n >= j.max > 0
    case FcfsMin => n >= j.min > 0
    case FcfsAmap => n >= j.min && n > 0 && j.max > 0
    case Sjtf => n > j.min
    case Priority => n > j.max
  }

  /** What a policy gives to a job it adds, when `n` resources are free. */
  ghost function Gives(p: Policy, j: Job, n: int): int {
    match p
    case FcfsMin => j.min
    case FcfsAmap => if j.max < n then j.max else n
    case Sjtf => if n >= j.max then j.max else 0
    case _ => j.max
  }

  lemma TakenIsGiven(p: Policy, j: Job, n: nat)
    requires Demands(p, j, n)
    ensures TakeCount(n, Ask(p, j), Need(p, j)) == Gives(p, j, n)
  {
  }

  lemma StopsUnlessDemands(p: Policy, j: Job, n: nat)
    ensures Stops(p, j, n) <==> !Demands(p, j, n)
  {
  }

  /** What the jobs before the i-th one use. */
  lemma UsedBefore(pair: Pair, rest: Plan, i: nat)
    requires i <= |rest| + 1
    ensures Resources(([pair] + rest)[..i]) == if i == 0 then [] else pair.res + Resources(rest[..i - 1])
  {
    if i > 0 {
      assert ([pair] + rest)[..i] == [pair] + rest[..i - 1];
      ResourcesFirst(pair, rest[..i - 1]);
    }
  }

  lemma FirstDemand(p: Policy, order: seq<Job>, pool: seq<Rid>)
    requires order != []
    ensures var plan := PlanFor(p, order, pool);
            && |Resources(plan[..0])| == 0
            && (Demands(p, order[0], |pool|) <==> plan != [])
            && (plan != [] ==> |plan[0].res| == Gives(p, order[0], |pool|))
  {
    StopsUnlessDemands(p, order[0], |pool|);
    if !Stops(p, order[0], |pool|) {
      TakenIsGiven(p, order[0], |pool|);
      var list, rest := PlanUnfold(p, order, pool);
      hide Demands, Gives, Stops;
    }
  }

  lemma {:induction false} DemandAt(p: Policy, order: seq<Job>, pool: seq<Rid>, i: nat)
    requires i <= |PlanFor(p, order, pool)| && i < |order|
    ensures var plan := PlanFor(p, order, pool);
            var left := |pool| - |Resources(plan[..i])|;
            && (Demands(p, order[i], left) <==> i < |plan|)
            && (i < |plan| ==> |plan[i].res| == Gives(p, order[i], left))
  {
    if i == 0 {
      FirstDemand(p, order, pool);
    } else {
      var list, rest := PlanUnfold(p, order, pool);
      hide PlanFor, Demands, Stops, Resources, Taken, Gives;
      assert i - 1 <= |rest|;
      DemandAt(p, order[1..], pool[..|pool| - |list|], i - 1);
      UsedBefore(Pair(order[0], list), rest, i);
    }
  }

  /**
   * Each job is added exactly when what is left of the pool is what the policy demands for it, and gets what
   * the policy gives then: all jobs before the end of the plan found that much, and the one at the end did not.
   */
  lemma PlanDemands(p: Policy, order: seq<Job>, pool: seq<Rid>)
    ensures var plan := PlanFor(p, order, pool);
            && (forall i :: 0 <= i < |plan| ==>
                  var left := |pool| - |Resources(plan[..i])|;
                  Demands(p, order[i], left) && |plan[i].res| == Gives(p, order[i], left))
            && (|plan| < |order| ==> !Demands(p, order[|plan|], |pool| - |Resources(plan)|))
  {
    hide Demands, Gives, PlanFor;
    var plan := PlanFor(p, order, pool);
    forall i | 0 <= i < |plan|
      ensures var left := |pool| - |Resources(plan[..i])|;
              Demands(p, order[i], left) && |plan[i].res| == Gives(p, order[i], left)
    {
      DemandAt(p, order, pool, i);
    }
    if |plan| < |order| {
      DemandAt(p, order, pool, |plan|);
      assert plan[..|plan|] == plan;
    }
  }

  /** Priority keeps at least one resource back. */
  lemma {:induction false} PriorityKeepsOne(order: seq<Job>, pool: seq<Rid>)
    requires pool != []
    ensures |Resources(PlanFor(Priority, order, pool))| < |pool|
  {
    if order != [] && !Stops(Priority, order[0], |pool|) {
      var list, rest := PlanUnfold(Priority, order, pool);
      PriorityKeepsOne(order[1..], pool[..|pool| - |list|]);
    }
  }

  /**
   * Priority serves jobs from the highest priority down: it gives each exactly its maximum, no job
   * of the window outranks a job it serves unless it is served too, and it never empties the pool.
   */
  lemma PriorityIsFair(window: seq<Job>, order: seq<Job>, pool: seq<Rid>)
    requires OrderFor(Priority, window, order) && pool != []
    requires forall j :: j in window ==> 1 <= j.max
    ensures var plan := PlanFor(Priority, order, pool);
            && ByPriority(JobsOf(plan))
            && (forall pair :: pair in plan ==> |pair.res| == pair.job.max > 0)
            && (forall i, j :: 0 <= i < |plan| && j in window && j !in JobsOf(plan) ==>
                  j.priority <= plan[i].job.priority)
            && |Resources(plan)| < |pool|
  {
    OrderFacts(Priority, window, order);
    PlanPrefix(Priority, order, pool);
    PriorityKeepsOne(order, pool);
    PriorityLists(order, pool);
    PriorityOutranks(window, order, PlanFor(Priority, order, pool));
  }

  lemma PriorityLists(order: seq<Job>, pool: seq<Rid>)
    requires forall j :: j in order ==> 1 <= j.max
    ensures forall pair :: pair in PlanFor(Priority, order, pool) ==> |pair.res| == pair.job.max > 0
  {
    PlanPrefix(Priority, order, pool);
    PlanLists(Priority, order, pool);
    var plan := PlanFor(Priority, order, pool);
    forall pair | pair in plan ensures |pair.res| == pair.job.max > 0 {
      assert ListFits(Priority, pair);
      var i :| 0 <= i < |plan| && plan[i] == pair;
      assert order[i] in order;
    }
  }

  lemma PriorityOutranks(window: seq<Job>, order: seq<Job>, plan: Plan)
    requires ByPriority(order) && (forall j :: j in window ==> j in order)
    requires |plan| <= |order| && forall i :: 0 <= i < |plan| ==> plan[i].job == order[i]
    ensures ByPriority(JobsOf(plan))
    ensures forall i, j :: 0 <= i < |plan| && j in window && j !in JobsOf(plan) ==> j.priority <= plan[i].job.priority
  {
    forall i, j | 0 <= i < |plan| && j in window && j !in JobsOf(plan) ensures j.priority <= plan[i].job.priority {
      var k :| 0 <= k < |order| && order[k] == j;
      NotServed(order, plan, k);
    }
  }

  lemma NotServed(order: seq<Job>, plan: Plan, k: nat)
    requires k < |order| && |plan| <= |order| && order[k] !in JobsOf(plan)
    requires forall i :: 0 <= i < |plan| ==> plan[i].job == order[i]
    ensures k >= |plan|
  {
    assert forall i :: 0 <= i < |plan| ==> JobsOf(plan)[i] == order[i];
  }

  // ---------- exact counts when all jobs have the same bounds ----------

  /** How many of `w` jobs a policy serves from a pool of `n` resources. */
  function Served(p: Policy, w: nat, n: nat, m: nat, M: nat): nat
    requires 1 <= m <= M
  {
    match p
    case FcfsMax => Min(w, Quotient(n, M))
    case FcfsMin => Min(w, Quotient(n, m))
    case FcfsAmap => Min(w, Quotient(n, M) + if n % M >= m then 1 else 0)
    case Sjtf => if m < M then Min(w, Quotient(n, M)) else Min(w, if n > 0 then Quotient(n - 1, M) else 0)
    case Priority => Min(w, if n > 0 then Quotient(n - 1, M) else 0)
  }

  lemma UniformTail(order: seq<Job>, m: nat, M: nat)
    requires order != [] && Uniform(order, m, M)
    ensures order[0].min == m && order[0].max == M && Uniform(order[1..], m, M)
  {
    assert order[0] in order;
    forall j | j in order[1..] ensures j in order {}
  }

  /** A job with the common bounds. */
  function Sample(m: nat, M: nat): Job {
    Job(0, m, M, 0, 1.0, 1.0)
  }

  function Takes(p: Policy, n: nat, m: nat, M: nat): nat {
    TakeCount(n, Ask(p, Sample(m, M)), Need(p, Sample(m, M)))
  }

  /** One turn of a policy's loop, in numbers. */
  lemma ServedStep(p: Policy, w: nat, n: nat, m: nat, M: nat)
    requires 1 <= m <= M && w > 0
    ensures Stops(p, Sample(m, M), n) ==> Served(p, w, n, m, M) == 0
    ensures !Stops(p, Sample(m, M), n) ==>
      var k := Takes(p, n, m, M);
      && k <= n
      && Served(p, w, n, m, M) == (if k == 0 then 0 else 1) + Served(p, w - 1, n - k, m, M)
  {
    if p.FcfsAmap? {
      AmapStep(w, n, m, M);
    } else {
      DivStep(n, m);
      DivStep(n, M);
      if n > 0 {
        DivStep(n - 1, M);
      }
    }
  }

  lemma AmapStep(w: nat, n: nat, m: nat, M: nat)
    requires 1 <= m <= M && w > 0
    ensures n < m ==> Served(FcfsAmap, w, n, m, M) == 0
    ensures n >= m ==> Served(FcfsAmap, w, n, m, M) == 1 + Served(FcfsAmap, w - 1, n - Min(n, M), m, M)
  {
    DivStep(n, M);
    DivStep(n - Min(n, M), M);
  }

  /** Each policy serves exactly `Served` jobs; only SJTF ever adds a job without resources. */
  lemma {:induction false} PlanCount(p: Policy, order: seq<Job>, pool: seq<Rid>, m: nat, M: nat)
    requires 1 <= m <= M && Uniform(order, m, M)
    ensures NoJobs(PlanFor(p, order, pool)) == Served(p, |order|, |pool|, m, M)
    ensures !p.Sjtf? ==> NoEmptyList(PlanFor(p, order, pool))
  {
    if order == [] {
      NoneServed(p, |pool|, m, M);
    } else {
      UniformTail(order, m, M);
      ServedStep(p, |order|, |pool|, m, M);
      if !Stops(p, order[0], |pool|) {
        var list, rest := PlanUnfold(p, order, pool);
        assert |list| == Takes(p, |pool|, m, M);
        PlanCount(p, order[1..], pool[..|pool| - |list|], m, M);
      }
    }
  }

  lemma NoneServed(p: Policy, n: nat, m: nat, M: nat)
    requires 1 <= m <= M
    ensures Served(p, 0, n, m, M) == 0
  {
    DivStep(n, m);
    DivStep(n, M);
    if n > 0 {
      DivStep(n - 1, M);
    }
  }

  /** The first `k` jobs have `M` resources each and all others have none. */
  ghost predicate AllOrNothing(plan: Plan, k: nat, M: nat) {
    && k <= |plan|
    && (forall i :: 0 <= i < k ==> |plan[i].res| == M)
    && (forall i :: k <= i < |plan| ==> plan[i].res == [])
  }

  lemma AllOrNothingCons(pair: Pair, rest: Plan, k: nat, M: nat)
    requires |pair.res| == M && AllOrNothing(rest, k, M)
    ensures AllOrNothing([pair] + rest, k + 1, M)
  {
  }

  lemma {:induction false} SjtfStarved(order: seq<Job>, pool: seq<Rid>, m: nat, M: nat)
    requires 1 <= m < M && Uniform(order, m, M) && |pool| < M
    ensures AllOrNothing(PlanFor(Sjtf, order, pool), 0, M)
    ensures |PlanFor(Sjtf, order, pool)| == if |pool| > m then |order| else 0
  {
    if order != [] {
      UniformTail(order, m, M);
      if !Stops(Sjtf, order[0], |pool|) {
        var list, rest := PlanUnfold(Sjtf, order, pool);
        assert pool[..|pool| - |list|] == pool;
        SjtfStarved(order[1..], pool, m, M);
      }
    }
  }

  /** How many times `M` can be taken from `n`, at most `w` times, and what is left then. */
  function Fits(w: nat, n: nat, M: nat): (nat, nat) {
    if w == 0 || n < M then (0, n)
    else
      var (k, left) := Fits(w - 1, n - M, M);
      (k + 1, left)
  }

  lemma {:induction false} FitsQuotient(w: nat, n: nat, M: nat)
    requires M > 0
    ensures Fits(w, n, M).0 == Min(w, Quotient(n, M))
    ensures Fits(w, n, M).0 < w ==> Fits(w, n, M).1 == n % M
  {
    DivStep(n, M);
    if w > 0 && n >= M {
      FitsQuotient(w - 1, n - M, M);
    }
  }

  lemma {:induction false} SjtfFits(order: seq<Job>, pool: seq<Rid>, m: nat, M: nat)
    requires 1 <= m < M && Uniform(order, m, M)
    ensures var plan, (k, left) := PlanFor(Sjtf, order, pool), Fits(|order|, |pool|, M);
            AllOrNothing(plan, k, M) && |plan| == if k < |order| && left > m then |order| else k
  {
    if |pool| < M {
      SjtfStarved(order, pool, m, M);
    } else if order != [] {
      UniformTail(order, m, M);
      hide AllOrNothing, Uniform;
      var list, rest := PlanUnfold(Sjtf, order, pool);
      SjtfFits(order[1..], pool[..|pool| - M], m, M);
      AllOrNothingCons(Pair(order[0], list), rest, Fits(|order| - 1, |pool| - M, M).0, M);
    }
  }

  /**
   * With common bounds m < M, SJTF gives exactly M resources to the first min(w, n / M) jobs of its
   * order and an empty list to every other job it adds. It adds all the others when more than m
   * resources are left over, and none otherwise.
   */
  lemma SjtfShape(order: seq<Job>, pool: seq<Rid>, m: nat, M: nat)
    requires 1 <= m < M && Uniform(order, m, M)
    ensures var plan, k := PlanFor(Sjtf, order, pool), Min(|order|, Quotient(|pool|, M));
            AllOrNothing(plan, k, M) && |plan| == if k < |order| && |pool| % M > m then |order| else k
  {
    SjtfFits(order, pool, m, M);
    FitsQuotient(|order|, |pool|, M);
  }
}
