/**
 * Managed mode: every policy is tried, the trials are scored, and the best one, the latest on a
 * tie, is kept. The pool may grow from one trial to the next, because finishing jobs return
 * their resources at any time; the ready queue is locked.
 */
module Winner {
  import opened Sequences
  import opened Jobs
  import opened Policies

  /** One trial: the order the policy met the jobs in, the pool it found and the plan it made. */
  datatype Trial = Trial(order: seq<Job>, pool: seq<Rid>, plan: Plan)

  ghost predicate ValidTrial(p: Policy, window: seq<Job>, t: Trial) {
    OrderFor(p, window, t.order) && t.plan == PlanFor(p, t.order, t.pool)
  }

  ghost predicate ValidTrials(window: seq<Job>, trials: seq<Trial>) {
    && |trials| <= 5
    && (forall i :: 0 <= i < |trials| ==> ValidTrial(PolicyAt(i), window, trials[i]))
    && (forall i, k :: 0 <= i < k < |trials| ==> |trials[i].pool| <= |trials[k].pool|)
  }

  /** The pool after a trial has been undone. */
  function GivenBack(t: Trial): seq<Rid> {
    t.pool[..if |Resources(t.plan)| <= |t.pool| then |t.pool| - |Resources(t.plan)| else 0] + Resources(t.plan)
  }

  /** Trials on an undisturbed pool: each finds what the one before has left. */
  ghost predicate Chained(start: seq<Rid>, trials: seq<Trial>, end: seq<Rid>) {
    && (trials == [] ==> end == start)
    && (trials != [] ==> trials[0].pool == start && end == GivenBack(trials[|trials| - 1]))
    && forall i :: 0 < i < |trials| ==> trials[i].pool == GivenBack(trials[i - 1])
  }

  lemma ChainedExtend(start: seq<Rid>, trials: seq<Trial>, t: Trial)
    requires Chained(start, trials, t.pool)
    ensures Chained(start, trials + [t], GivenBack(t))
  {
    hide GivenBack;
  }

  /** Undone trials leave the pool as large as it was. */
  lemma {:induction false} SameLength(start: seq<Rid>, trials: seq<Trial>, end: seq<Rid>, window: seq<Job>, i: nat)
    requires ValidTrials(window, trials) && Chained(start, trials, end) && i < |trials|
    ensures |trials[i].pool| == |start|
  {
    hide PlanFor, OrderFor, Reverse;
    if i > 0 {
      SameLength(start, trials, end, window, i - 1);
      PlanResources(PolicyAt(i - 1), trials[i - 1].order, trials[i - 1].pool);
    }
  }

  /** A further trial, on a pool no smaller. */
  lemma ValidTrialsExtend(window: seq<Job>, trials: seq<Trial>, t: Trial)
    requires ValidTrials(window, trials) && |trials| < 5 && ValidTrial(PolicyAt(|trials|), window, t)
    requires forall u :: u in trials ==> |u.pool| <= |t.pool|
    ensures ValidTrials(window, trials + [t])
  {
    hide ValidTrial;
    var all := trials + [t];
    forall i, k | 0 <= i < k < |all| ensures |all[i].pool| <= |all[k].pool| {
      assert all[i] in trials;
    }
  }

  /** The choice of `selectMaxScore`: a greatest score, and the last of the greatest. */
  ghost predicate IsLastMax(scores: seq<int>, k: nat) {
    && k < |scores|
    && (forall i :: 0 <= i < |scores| ==> scores[i] <= scores[k])
    && (forall i :: k < i < |scores| ==> scores[i] < scores[k])
  }

  ghost predicate IsWinner(q: nat, trials: seq<Trial>, k: nat)
    requires forall t :: t in trials ==> Positive(JobsOf(t.plan))
  {
    && k < |trials|
    && (forall i :: 0 <= i < |trials| ==> Score(q, trials[i].plan) <= Score(q, trials[k].plan))
    && (forall i :: k < i < |trials| ==> Score(q, trials[i].plan) < Score(q, trials[k].plan))
  }

  lemma WinnerBelow(q: nat, trials: seq<Trial>, k: nat)
    requires (forall t :: t in trials ==> Positive(JobsOf(t.plan))) && IsWinner(q, trials, k)
    ensures k < |trials|
  {
  }

  /** The jobs of a trial are jobs of the window. */
  lemma TrialJobs(p: Policy, window: seq<Job>, t: Trial)
    requires ValidTrial(p, window, t)
    ensures forall j :: j in JobsOf(t.plan) ==> j in window
    ensures |t.order| == |window|
    ensures Positive(window) ==> Positive(JobsOf(t.plan)) && Positive(t.order)
  {
    OrderFacts(p, window, t.order);
    PlanJobs(p, t.order, t.pool);
    forall j | j in JobsOf(t.plan) ensures j in t.order {}
  }

  lemma TrialsPositive(window: seq<Job>, trials: seq<Trial>)
    requires ValidTrials(window, trials) && Positive(window)
    ensures forall t :: t in trials ==> Positive(JobsOf(t.plan))
  {
    forall t | t in trials ensures Positive(JobsOf(t.plan)) {
      var i :| 0 <= i < |trials| && trials[i] == t;
      TrialJobs(PolicyAt(i), window, t);
    }
  }

  /** How many jobs the i-th trial serves. */
  lemma TrialCount(window: seq<Job>, trials: seq<Trial>, i: nat, m: nat, M: nat)
    requires ValidTrials(window, trials) && i < |trials|
    requires 1 <= m <= M && Uniform(window, m, M)
    ensures NoJobs(trials[i].plan) == Served(PolicyAt(i), |window|, |trials[i].pool|, m, M)
    ensures i != 3 ==> NoEmptyList(trials[i].plan)
  {
    hide PlanFor, Served, NoJobs;
    OrderFacts(PolicyAt(i), window, trials[i].order);
    PlanCount(PolicyAt(i), trials[i].order, trials[i].pool, m, M);
  }

  /** If SJTF adds a job it has no resources for, Priority on a pool no smaller serves as many. */
  lemma PriorityCatchesUp(window: seq<Job>, t3: Trial, t4: Trial, m: nat, M: nat)
    requires ValidTrial(Sjtf, window, t3) && ValidTrial(Priority, window, t4) && |t3.pool| <= |t4.pool|
    requires 1 <= m <= M && Uniform(window, m, M) && !NoEmptyList(t3.plan)
    ensures NoJobs(t3.plan) <= NoJobs(t4.plan)
  {
    OrderFacts(Sjtf, window, t3.order);
    OrderFacts(Priority, window, t4.order);
    PlanCount(Sjtf, t3.order, t3.pool, m, M);
    PlanCount(Priority, t4.order, t4.pool, m, M);
    if m < M {
      SjtfLeftover(t3.order, t3.pool, m, M);
      ServedCatchesUp(|window|, |t3.pool|, |t4.pool|, m, M);
    } else {
      SjtfSameBounds(t3.order, t3.pool, m);
    }
  }

  lemma SjtfLeftover(order: seq<Job>, pool: seq<Rid>, m: nat, M: nat)
    requires 1 <= m < M && Uniform(order, m, M) && !NoEmptyList(PlanFor(Sjtf, order, pool))
    ensures |pool| % M > m
  {
    SjtfShape(order, pool, m, M);
    var plan := PlanFor(Sjtf, order, pool);
    var pair :| pair in plan && pair.res == [];
    var i :| 0 <= i < |plan| && plan[i] == pair;
  }

  lemma ServedCatchesUp(w: nat, n: nat, n': nat, m: nat, M: nat)
    requires 1 <= m < M && n <= n' && n % M > m
    ensures Served(Sjtf, w, n, m, M) <= Served(Priority, w, n', m, M)
  {
    NextMultiple(n, M);
    DivMonotone(n - 1, n' - 1, M);
  }

  lemma DivMonotone(a: nat, b: nat, d: nat)
    requires a <= b && d > 0
    ensures a / d <= b / d
    decreases b
  {
    DivStep(a, d);
    DivStep(b, d);
    if a >= d {
      DivMonotone(a - d, b - d, d);
    }
  }

  lemma NextMultiple(n: nat, d: nat)
    requires d > 0 && n % d > 0
    ensures n > 0 && (n - 1) / d == n / d
  {
    assert n == (n / d) * d + n % d;
    assert n - 1 == (n / d) * d + (n % d - 1);
    QuotientUnique(n - 1, d, n / d, n % d - 1);
  }

  /** When minimum and maximum coincide SJTF never adds a job without resources. */
  lemma {:induction false} SjtfSameBounds(order: seq<Job>, pool: seq<Rid>, m: nat)
    requires 1 <= m && Uniform(order, m, m)
    ensures NoEmptyList(PlanFor(Sjtf, order, pool))
  {
    if order != [] {
      UniformTail(order, m, m);
      if !Stops(Sjtf, order[0], |pool|) {
        SjtfSameBounds(order[1..], pool[..|pool| - m], m);
      }
    }
  }

  /**
   * A winner that serves anyone gives every job of its plan a resource: whenever SJTF leaves a job
   * empty-handed, Priority scores at least as much and wins the tie.
   */
  lemma WinnerHasNoEmptyList(q: nat, window: seq<Job>, trials: seq<Trial>, k: nat, m: nat, M: nat)
    requires q > 0 && Positive(window) && 1 <= m <= M && Uniform(window, m, M)
    requires ValidTrials(window, trials) && |trials| == 5
    requires (TrialsPositive(window, trials); IsWinner(q, trials, k))
    requires NoJobs(trials[k].plan) > 0
    ensures NoEmptyList(trials[k].plan)
  {
    TrialsPositive(window, trials);
    TrialCount(window, trials, k, m, M);
    if k == 3 && !NoEmptyList(trials[3].plan) {
      assert PolicyAt(3) == Sjtf && PolicyAt(4) == Priority;
      PriorityCatchesUp(window, trials[3], trials[4], m, M);
      ScoreBounds(q, trials[3].plan);
      ScoreBounds(q, trials[4].plan);
      MulMonotone(q, NoJobs(trials[3].plan), NoJobs(trials[4].plan));
      assert false;
    }
  }

  lemma MulMonotone(q: nat, a: nat, b: nat)
    requires a <= b
    ensures q * a <= q * b
  {
    assert q * (b - a) >= 0;
  }

  /** With enough resources for one job, the winner serves someone. */
  lemma WinnerServes(q: nat, window: seq<Job>, trials: seq<Trial>, k: nat, m: nat, M: nat)
    requires q > 0 && Positive(window) && 1 <= m <= M && Uniform(window, m, M) && window != []
    requires ValidTrials(window, trials) && |trials| == 5 && |trials[0].pool| >= m
    requires (TrialsPositive(window, trials); IsWinner(q, trials, k))
    ensures NoJobs(trials[k].plan) > 0 && NoEmptyList(trials[k].plan)
  {
    TrialsPositive(window, trials);
    TrialCount(window, trials, 1, m, M);
    DivMonotone(m, |trials[1].pool|, m);
    assert NoJobs(trials[1].plan) > 0;
    ScoreBounds(q, trials[1].plan);
    MulMonotone(q, 1, NoJobs(trials[1].plan));
    ScoreBounds(q, trials[k].plan);
    WinnerHasNoEmptyList(q, window, trials, k, m, M);
  }

  /** No policy serves more jobs than the one that gives each its minimum. */
  lemma ServedAtMost(p: Policy, w: nat, n: nat, m: nat, M: nat)
    requires 1 <= m <= M
    ensures Served(p, w, n, m, M) <= Served(FcfsMin, w, n, m, M) == Min(w, Quotient(n, m))
  {
    var a, r := n / M, n % M;
    assert n == a * M + r;
    MulMonotone(a, m, M);
    QuotientAtLeast(n, m, a);
    if r >= m {
      assert (a + 1) * m == a * m + m;
      QuotientAtLeast(n, m, a + 1);
    }
    if n > 0 {
      DivMonotone(n - 1, n, M);
    }
  }

  lemma QuotientAtLeast(n: nat, d: nat, a: nat)
    requires d > 0 && a * d <= n
    ensures n / d >= a
  {
    var q := n / d;
    assert n < (q + 1) * d;
    if q < a {
      MulMonotone(d, q + 1, a);
    }
  }

  /**
   * With a pool of fixed size and every predicted time above M seconds, all trials score exactly
   * `q` per job served, and the winner serves as many jobs as the pool has room for at the minimum.
   */
  lemma SlowJobsMaximizeService(q: nat, window: seq<Job>, trials: seq<Trial>, k: nat, n: nat, m: nat, M: nat)
    requires q > 0 && 1 <= m <= M && Uniform(window, m, M)
    requires forall j :: j in window ==> j.predicted > M as real
    requires ValidTrials(window, trials) && |trials| == 5
    requires forall i :: 0 <= i < 5 ==> |trials[i].pool| == n
    requires Positive(window) && (TrialsPositive(window, trials); IsWinner(q, trials, k))
    ensures k < 5 && NoJobs(trials[k].plan) == Min(|window|, Quotient(n, m))
    ensures forall i :: 0 <= i < 5 ==> NoJobs(trials[i].plan) <= NoJobs(trials[k].plan)
    ensures forall i :: 0 <= i < 5 ==>
              Positive(JobsOf(trials[i].plan)) && Score(q, trials[i].plan) == q * NoJobs(trials[i].plan)
  {
    forall i | 0 <= i < 5
      ensures Positive(JobsOf(trials[i].plan)) && Score(q, trials[i].plan) == q * NoJobs(trials[i].plan)
      ensures NoJobs(trials[i].plan) <= Min(|window|, Quotient(n, m))
    {
      SlowTrial(q, PolicyAt(i), window, trials[i], m, M);
      TrialAtMost(window, trials, i, m, M);
    }
    SlowWinner(q, window, trials, k, m, M);
    TrialCount(window, trials, 1, m, M);
  }

  lemma SlowWinner(q: nat, window: seq<Job>, trials: seq<Trial>, k: nat, m: nat, M: nat)
    requires q > 0 && 1 <= m <= M && Uniform(window, m, M)
    requires forall j :: j in window ==> j.predicted > M as real
    requires ValidTrials(window, trials) && |trials| == 5
    requires Positive(window) && (TrialsPositive(window, trials); IsWinner(q, trials, k))
    ensures k < 5 && NoJobs(trials[1].plan) <= NoJobs(trials[k].plan)
  {
    TrialsPositive(window, trials);
    SlowTrial(q, PolicyAt(1), window, trials[1], m, M);
    SlowTrial(q, PolicyAt(k), window, trials[k], m, M);
    CountFollowsScore(q, NoJobs(trials[1].plan), NoJobs(trials[k].plan));
  }

  lemma TrialAtMost(window: seq<Job>, trials: seq<Trial>, i: nat, m: nat, M: nat)
    requires ValidTrials(window, trials) && i < |trials|
    requires 1 <= m <= M && Uniform(window, m, M)
    ensures NoJobs(trials[i].plan) <= Min(|window|, Quotient(|trials[i].pool|, m))
  {
    TrialCount(window, trials, i, m, M);
    ServedAtMost(PolicyAt(i), |window|, |trials[i].pool|, m, M);
  }

  lemma CountFollowsScore(q: nat, a: nat, b: nat)
    requires q > 0 && q * a <= q * b
    ensures a <= b
  {
    if b < a {
      MulMonotone(q, b + 1, a);
    }
  }

  lemma SlowTrial(q: nat, p: Policy, window: seq<Job>, t: Trial, m: nat, M: nat)
    requires q > 0 && 1 <= m <= M && Uniform(window, m, M) && ValidTrial(p, window, t)
    requires forall j :: j in window ==> j.predicted > M as real
    ensures Positive(JobsOf(t.plan)) && Score(q, t.plan) == q * NoJobs(t.plan)
  {
    assert Positive(window);
    TrialJobs(p, window, t);
    OrderFacts(p, window, t.order);
    PlanLists(p, t.order, t.pool);
    forall pair | pair in t.plan ensures pair.job.predicted > |pair.res| as real {
      var i :| 0 <= i < |t.plan| && t.plan[i] == pair;
      assert JobsOf(t.plan)[i] == pair.job;
      assert pair.job in window && ListFits(p, pair);
    }
    SlowScore(q, t.plan);
  }

  // ---------- a single waiting job ----------

  /** How many resources a policy finds for a job that waits alone. */
  function LoneCount(p: Policy, job: Job, n: nat): nat {
    if Stops(p, job, n) then 0 else TakeCount(n, Ask(p, job), Need(p, job))
  }

  /** The score of a lone job that gets `c` resources. */
  function LoneScore(job: Job, c: nat): int
    requires job.predicted > 0.0
  {
    if c == 0 then 0 else 1 + (c as real / job.predicted).Floor
  }

  lemma LoneTrial(p: Policy, job: Job, t: Trial)
    requires ValidTrial(p, [job], t) && job.predicted > 0.0
    ensures t.plan == [] ==> LoneCount(p, job, |t.pool|) == 0
    ensures t.plan != [] ==> |t.plan| == 1 && t.plan[0].job == job && |t.plan[0].res| == LoneCount(p, job, |t.pool|)
    ensures Positive(JobsOf(t.plan)) && Score(1, t.plan) == LoneScore(job, LoneCount(p, job, |t.pool|))
  {
    OrderFacts(p, [job], t.order);
    assert t.order[0] in t.order;
    assert t.order == [job];
    assert t.order[1..] == [];
    if !Stops(p, job, |t.pool|) {
      var list := Taken(t.pool, Ask(p, job), Need(p, job));
      assert t.plan == [Pair(job, list)];
      ScoreOfOne(job, list);
    }
  }

  lemma ScoreOfOne(job: Job, res: seq<Rid>)
    requires job.predicted > 0.0
    ensures Positive(JobsOf([Pair(job, res)]))
    ensures Score(1, [Pair(job, res)]) == LoneScore(job, |res|)
  {
    var plan := [Pair(job, res)];
    assert JobsOf(plan) == [job];
    assert plan[1..] == [] && NoJobs(plan[1..]) == 0;
    MakespanSign(plan);
    if res != [] {
      var k := |res| as real;
      assert Makespan(plan) == Finite(job.predicted / k + 0.0);
      ReciprocalQuotient(job.predicted, k);
      assert (1.0 + k / job.predicted).Floor == 1 + (k / job.predicted).Floor;
    }
  }

  lemma ReciprocalQuotient(x: real, y: real)
    requires x > 0.0 && y > 0.0
    ensures x / y > 0.0 && 1.0 / (x / y) == y / x
  {
    var r := x / y;
    assert r * y == x;
    assert (y / x) * r * y == (y / x) * x == y;
    assert (y / x) * r == 1.0;
  }

  lemma FloorMonotone(a: nat, b: nat, x: real)
    requires a <= b && x > 0.0
    ensures (a as real / x).Floor <= (b as real / x).Floor
  {
    assert b as real / x - a as real / x == (b - a) as real / x;
    if a < b {
      QuotientPositive((b - a) as real, x);
    }
  }

  /**
   * A job waiting alone, whatever its positive predicted time, receives as many resources as it can
   * use: its maximum, or the whole pool if that is smaller.
   */
  lemma LoneJobGetsAll(job: Job, trials: seq<Trial>, k: nat, n: nat)
    requires 1 <= job.min <= job.max && job.predicted > 0.0 && n >= job.min
    requires ValidTrials([job], trials) && |trials| == 5
    requires forall i :: 0 <= i < 5 ==> |trials[i].pool| == n
    requires (TrialsPositive([job], trials); IsWinner(1, trials, k))
    ensures 2 <= k < 5 && |trials[k].plan| == 1 && trials[k].plan[0].job == job
    ensures |trials[k].plan[0].res| == Min(job.max, n)
  {
    TrialsPositive([job], trials);
    LoneTrial(PolicyAt(2), job, trials[2]);
    LoneTrial(PolicyAt(k), job, trials[k]);
    LoneChoice(job, k, n);
  }

  /** Score monotonicity together with the rule that the last of the best wins. */
  lemma LoneChoice(job: Job, k: nat, n: nat)
    requires 1 <= job.min <= job.max && job.predicted > 0.0 && n >= job.min && k < 5
    requires var best := LoneScore(job, LoneCount(PolicyAt(2), job, n));
             var mine := LoneScore(job, LoneCount(PolicyAt(k), job, n));
             best <= mine && (k < 2 ==> best < mine)
    ensures LoneCount(PolicyAt(k), job, n) == Min(job.max, n) && k >= 2
  {
    var c := LoneCount(PolicyAt(k), job, n);
    FloorMonotone(c, Min(job.max, n), job.predicted);
    FloorMonotone(0, Min(job.max, n), job.predicted);
    assert LoneCount(FcfsAmap, job, n) == Min(job.max, n);
    assert [FcfsMax, FcfsMin, FcfsAmap, Sjtf, Priority][k] == PolicyAt(k);
  }
}
