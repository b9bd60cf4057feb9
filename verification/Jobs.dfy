/**
 * Jobs, the resource lists they are paired with, and the quantities the scheduler
 * computes from a plan: its makespan, how many jobs it serves and its score.
 * Times are in seconds and are exact reals.
 */
module Jobs {
  import opened Sequences

  /** A resource is compared by its id only. */
  type Rid = int

  /** A job is compared by its id only; `priority` is the id of the client that sent it. */
  datatype Job = Job(id: int, min: nat, max: nat, priority: int, predicted: real, target: real)

  /** A job together with the resources set aside for it. */
  datatype Pair = Pair(job: Job, res: seq<Rid>)

  type Plan = seq<Pair>

  /** The time of a plan; a job without resources never ends. */
  datatype Time = Finite(seconds: real) | Infinite {
    function Plus(t: Time): Time {
      if Finite? && t.Finite? then Finite(seconds + t.seconds) else Infinite
    }
  }

  ghost predicate Positive(jobs: seq<Job>) {
    forall j :: j in jobs ==> j.predicted > 0.0
  }

  /** All jobs ask for at least `m` and at most `M` resources. */
  ghost predicate Uniform(jobs: seq<Job>, m: nat, M: nat) {
    forall j :: j in jobs ==> j.min == m && j.max == M
  }

  function JobsOf(plan: Plan): (jobs: seq<Job>)
    ensures |jobs| == |plan|
    ensures forall i :: 0 <= i < |plan| ==> jobs[i] == plan[i].job
  {
    seq(|plan|, i requires 0 <= i < |plan| => plan[i].job)
  }

  function Ids(jobs: seq<Job>): (ids: seq<int>)
    ensures |ids| == |jobs|
    ensures forall i :: 0 <= i < |jobs| ==> ids[i] == jobs[i].id
  {
    seq(|jobs|, i requires 0 <= i < |jobs| => jobs[i].id)
  }

  /** Every resource a plan names, in the order in which it names them. */
  function Resources(plan: Plan): seq<Rid> {
    if plan == [] then [] else plan[0].res + Resources(plan[1..])
  }

  ghost predicate NoEmptyList(plan: Plan) {
    forall p :: p in plan ==> p.res != []
  }

  function MinCost(j: Job): real
    requires j.min > 0
  {
    j.predicted / j.min as real
  }

  /** The predicted time of a job, shared evenly among its resources. */
  function Cost(p: Pair): Time
    requires p.job.predicted > 0.0
  {
    if p.res == [] then Infinite else Finite(p.job.predicted / |p.res| as real)
  }

  function Makespan(plan: Plan): Time
    requires Positive(JobsOf(plan))
  {
    if plan == [] then Finite(0.0)
    else
      PositiveSplit(plan);
      Cost(plan[0]).Plus(Makespan(plan[1..]))
  }

  /** How many jobs of the plan hold at least one resource. */
  function NoJobs(plan: Plan): nat {
    if plan == [] then 0 else (if plan[0].res == [] then 0 else 1) + NoJobs(plan[1..])
  }

  /**
   * The score of a plan when `q` jobs are waiting. The score is stored in an integer, so the
   * fraction is cut off; dividing by an infinite makespan gives zero.
   */
  function Score(q: nat, plan: Plan): int
    requires Positive(JobsOf(plan))
  {
    var n := NoJobs(plan);
    var span := Makespan(plan);
    var q' := if q > 0 then q else 1;
    if n == 0 || (span.Finite? && span.seconds <= 0.0) then 0
    else if span.Infinite? then q' * n
    else ((q' * n) as real + n as real / span.seconds).Floor
  }

  /** All jobs of a plan are served exactly when none has an empty list. */
  lemma {:induction false} NoJobsAll(plan: Plan)
    ensures NoJobs(plan) <= |plan|
    ensures NoJobs(plan) == |plan| <==> NoEmptyList(plan)
  {
    if plan != [] {
      assert plan == [plan[0]] + plan[1..];
      NoJobsAll(plan[1..]);
    }
  }

  lemma PositiveSplit(plan: Plan)
    requires plan != [] && Positive(JobsOf(plan))
    ensures plan[0].job.predicted > 0.0 && Positive(JobsOf(plan[1..]))
  {
    var jobs := JobsOf(plan);
    assert jobs[0] in jobs;
    forall j | j in JobsOf(plan[1..]) ensures j in jobs {
      var i :| 0 <= i < |plan| - 1 && JobsOf(plan[1..])[i] == j;
      assert jobs[i + 1] == j;
    }
  }

  lemma ResourcesFirst(pair: Pair, rest: Plan)
    ensures Resources([pair] + rest) == pair.res + Resources(rest)
  {
    assert ([pair] + rest)[1..] == rest;
  }

  /** The resources of two plans in a row. */
  lemma {:induction false} ResourcesConcat(a: Plan, b: Plan)
    ensures Resources(a + b) == Resources(a) + Resources(b)
  {
    if a == [] {
      assert a + b == b;
    } else {
      ResourcesConcat(a[1..], b);
      RestOfConcat(a, b);
      ConcatAssociative(a[0].res, Resources(a[1..]), Resources(b));
    }
  }

  /** The makespan is infinite exactly when some job has no resource, and positive otherwise. */
  lemma {:induction false} MakespanSign(plan: Plan)
    requires Positive(JobsOf(plan))
    ensures Makespan(plan).Finite? <==> NoEmptyList(plan)
    ensures Makespan(plan).Finite? && plan != [] ==> Makespan(plan).seconds > 0.0
    ensures Makespan(plan).Finite? ==> Makespan(plan).seconds >= 0.0
  {
    if plan != [] {
      PositiveSplit(plan);
      MakespanSign(plan[1..]);
      assert plan == [plan[0]] + plan[1..];
      if plan[0].res != [] {
        QuotientPositive(plan[0].job.predicted, |plan[0].res| as real);
      }
    }
  }

  lemma QuotientPositive(x: real, y: real)
    requires x > 0.0 && y > 0.0
    ensures x / y > 0.0
  {
  }

  /** Every plan that serves someone scores at least `q` for each job it serves. */
  lemma ScoreBounds(q: nat, plan: Plan)
    requires q > 0 && Positive(JobsOf(plan))
    ensures NoJobs(plan) == 0 ==> Score(q, plan) == 0
    ensures Score(q, plan) >= q * NoJobs(plan) >= 0
    ensures !NoEmptyList(plan) ==> Score(q, plan) == q * NoJobs(plan)
  {
    MakespanSign(plan);
    NoJobsAll(plan);
    var n, span := NoJobs(plan), Makespan(plan);
    assert q * n >= 0;
    if n > 0 && span.Finite? {
      QuotientPositive(n as real, span.seconds);
      FloorAtLeast(q * n, n as real / span.seconds);
    }
  }

  lemma FloorAtLeast(a: nat, x: real)
    requires x >= 0.0
    ensures (a as real + x).Floor >= a
  {
  }

  /** Plans in a row take as long as both together. */
  lemma {:induction false} MakespanConcat(a: Plan, b: Plan)
    requires Positive(JobsOf(a)) && Positive(JobsOf(b))
    ensures Positive(JobsOf(a + b)) && Makespan(a + b) == Makespan(a).Plus(Makespan(b))
    ensures NoJobs(a + b) == NoJobs(a) + NoJobs(b)
  {
    hide Makespan, NoJobs, Cost, JobsOf, Positive, Time.Plus;
    PositiveConcat(a, b);
    if a == [] {
      assert a + b == b;
      MakespanNone(b);
    } else {
      MakespanFirst(a, a[1..]);
      MakespanConcat(a[1..], b);
      RestOfConcat(a, b);
      MakespanFirst(a + b, a[1..] + b);
      PlusAssociative(Cost(a[0]), Makespan(a[1..]), Makespan(b));
    }
  }

  lemma MakespanNone(b: Plan)
    requires Positive(JobsOf(b))
    ensures Positive(JobsOf([])) && Makespan([]).Plus(Makespan(b)) == Makespan(b) && NoJobs([]) == 0
  {
    assert JobsOf([]) == [];
  }

  lemma MakespanFirst(plan: Plan, rest: Plan)
    requires plan != [] && rest == plan[1..] && Positive(JobsOf(plan))
    ensures plan[0].job.predicted > 0.0 && Positive(JobsOf(rest))
    ensures Makespan(plan) == Cost(plan[0]).Plus(Makespan(rest))
    ensures NoJobs(plan) == (if plan[0].res == [] then 0 else 1) + NoJobs(rest)
  {
    PositiveSplit(plan);
    hide Cost;
  }

  lemma PlusAssociative(x: Time, y: Time, z: Time)
    ensures x.Plus(y.Plus(z)) == x.Plus(y).Plus(z)
  {
  }

  lemma PositiveConcat(a: Plan, b: Plan)
    requires Positive(JobsOf(a)) && Positive(JobsOf(b))
    ensures Positive(JobsOf(a + b))
  {
    assert JobsOf(a + b) == JobsOf(a) + JobsOf(b);
  }

  /** One job on its resources: time multiplied by resources is the predicted time. */
  lemma MakespanOne(p: Pair)
    requires p.job.predicted > 0.0
    ensures Positive(JobsOf([p])) && NoJobs([p]) == (if p.res == [] then 0 else 1)
    ensures Makespan([p]).Finite? <==> p.res != []
    ensures p.res != [] ==> Makespan([p]).seconds * |p.res| as real == p.job.predicted
  {
    assert JobsOf([p]) == [p.job] && [p][1..] == [];
    assert NoJobs([p]) == (if p.res == [] then 0 else 1) + NoJobs([]);
    assert Makespan([p]) == Cost(p).Plus(Makespan([]));
  }

  /**
   * The score of a plan in which every job has a resource: what it has above waiting jobs times served jobs
   * is the number of jobs divided by the makespan, cut off.
   */
  lemma ScoreIsQuotient(q: nat, plan: Plan)
    requires q > 0 && plan != [] && Positive(JobsOf(plan)) && NoEmptyList(plan)
    ensures Makespan(plan).Finite? && Makespan(plan).seconds > 0.0
    ensures var extra, n, t := Score(q, plan) - q * |plan|, |plan| as real, Makespan(plan).seconds;
            extra as real * t <= n < (extra + 1) as real * t
  {
    hide Score, Makespan, NoEmptyList, Positive;
    var a, x := ScoreParts(q, plan);
    FloorBelow(Score(q, plan), a, x, |plan| as real, Makespan(plan).seconds);
    FloorAbove(Score(q, plan), a, x, |plan| as real, Makespan(plan).seconds);
  }

  lemma ScoreParts(q: nat, plan: Plan) returns (a: nat, x: real)
    requires q > 0 && plan != [] && Positive(JobsOf(plan)) && NoEmptyList(plan)
    ensures Makespan(plan).Finite? && Makespan(plan).seconds > 0.0
    ensures a == q * |plan| && x * Makespan(plan).seconds == |plan| as real && Score(q, plan) == (a as real + x).Floor
  {
    MakespanSign(plan);
    NoJobsAll(plan);
    a, x := q * |plan|, |plan| as real / Makespan(plan).seconds;
  }

  lemma FloorBelow(s: int, a: int, x: real, n: real, t: real)
    requires t > 0.0 && x * t == n && s == (a as real + x).Floor
    ensures (s - a) as real * t <= n
  {
    var y := (s - a) as real;
    assert y <= x;
    assert (x - y) * t >= 0.0;
    assert (x - y) * t == n - y * t;
  }

  lemma FloorAbove(s: int, a: int, x: real, n: real, t: real)
    requires t > 0.0 && x * t == n && s == (a as real + x).Floor
    ensures n < (s - a + 1) as real * t
  {
    var y := (s - a + 1) as real;
    assert x < y;
    MulPositive(y - x, t);
    assert (y - x) * t == y * t - n;
  }

  lemma MulPositive(x: real, y: real)
    requires x > 0.0 && y > 0.0
    ensures x * y > 0.0
  {
  }

  /** An empty ready queue counts as one waiting job. */
  lemma ScoreOfEmptyQueue(plan: Plan)
    requires Positive(JobsOf(plan))
    ensures Score(0, plan) == Score(1, plan)
  {
  }

  /** If every job takes longer than one second on the resources it gets, nothing but the count matters. */
  lemma {:induction false} SlowMakespan(plan: Plan)
    requires Positive(JobsOf(plan)) && NoEmptyList(plan) && plan != []
    requires forall p :: p in plan ==> p.job.predicted > |p.res| as real
    ensures Makespan(plan).Finite? && Makespan(plan).seconds > |plan| as real
  {
    PositiveSplit(plan);
    MakespanSign(plan);
    assert plan[0] in plan;
    QuotientAboveOne(plan[0].job.predicted, |plan[0].res| as real);
    if |plan| > 1 {
      forall p | p in plan[1..] ensures p in plan {}
      SlowMakespan(plan[1..]);
    } else {
      assert plan[1..] == [];
    }
  }

  lemma QuotientAboveOne(x: real, y: real)
    requires 0.0 < y < x
    ensures x / y > 1.0
  {
  }

  /** With slow jobs the score is exactly the number of waiting jobs times the number served. */
  lemma SlowScore(q: nat, plan: Plan)
    requires q > 0 && Positive(JobsOf(plan))
    requires forall p :: p in plan ==> p.job.predicted > |p.res| as real
    ensures Score(q, plan) == q * NoJobs(plan)
  {
    ScoreBounds(q, plan);
    NoJobsAll(plan);
    if NoEmptyList(plan) && plan != [] {
      SlowMakespan(plan);
      var n, t := NoJobs(plan), Makespan(plan).seconds;
      FractionBelowOne(n as real, t);
      FloorExact(q * n, n as real / t);
    }
  }

  lemma FloorExact(a: nat, x: real)
    requires 0.0 <= x < 1.0
    ensures (a as real + x).Floor == a
  {
  }

  lemma FractionBelowOne(x: real, y: real)
    requires 0.0 < x < y
    ensures 0.0 < x / y < 1.0
  {
    var r := x / y;
    assert r * y == x;
    if r >= 1.0 {
      MulAtLeast(r, y);
    }
  }

  lemma MulAtLeast(r: real, y: real)
    requires r >= 1.0 && y >= 0.0
    ensures r * y >= y
  {
    assert (r - 1.0) * y >= 0.0;
  }
}
