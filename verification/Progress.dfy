/**
 * Progress: once no more jobs are issued, every run of the threads comes to an end, and it ends with
 * all jobs finished unless a claim failed. This is for jobs that can make do with one resource, which
 * is how the scheduler builds them. Turns of the scheduling loop that find the pool empty and start over
 * change nothing and are not counted as steps.
 */
module Progress {
  import opened Sequences
  import opened Jobs
  import opened Policies
  import opened Sorting
  import opened Winner
  import opened Service
  import opened Elasticity
  import opened Threads
  import opened Census
  import opened Invariants
  import opened Safety

  // ---------- what gets smaller ----------

  /** How many stages the jobs have ahead of them. */
  function Load(s: State): nat {
    5 * |s.arriving| + 4 * (|s.ready| + |InService(s.phase)|) + 3 * |s.runQ| + 2 * |s.running| + |s.finished|
  }

  function Unanswered(tasks: seq<Task>): nat {
    if tasks == [] then 0 else (if tasks[0].answered then 0 else 1) + Unanswered(tasks[1..])
  }

  /** What the job threads have to do before their jobs move on. */
  function Work(s: State): nat {
    Unanswered(s.running) + |HeldBy(s.running)| + |s.leaving|
  }

  function Rank(phase: Phase): nat {
    match phase
    case Idle => 4
    case Trying(_, _) => 3
    case Chosen(_) => 2
    case Serving(_, _, _, _) => 1
    case Crashed => 0
  }

  function Outer(phase: Phase): nat {
    match phase
    case Trying(trials, _) => if |trials| <= 5 then 5 - |trials| else 0
    case Serving(_, removed, _, _) => if removed then 0 else 1
    case _ => 0
  }

  function Inner(phase: Phase): nat {
    match phase
    case Trying(_, back) => |back|
    case Serving(todo, _, taken, _) => if todo != [] && taken <= |todo[0].res| then |todo[0].res| - taken else 0
    case _ => 0
  }

  /** Lexicographically smaller. */
  ghost predicate Smaller(s': State, s: State) {
    || Load(s') < Load(s)
    || (Load(s') == Load(s) && Work(s') < Work(s))
    || (Load(s') == Load(s) && Work(s') == Work(s) && Rank(s'.phase) < Rank(s.phase))
    || (Load(s') == Load(s) && Work(s') == Work(s) && Rank(s'.phase) == Rank(s.phase)
        && (Outer(s'.phase) < Outer(s.phase)
            || (Outer(s'.phase) == Outer(s.phase) && Inner(s'.phase) < Inner(s.phase))))
  }

  lemma {:induction false} UnansweredUpdate(tasks: seq<Task>, i: nat, t: Task)
    requires i < |tasks|
    ensures Unanswered(tasks[i := t]) + (if tasks[i].answered then 0 else 1)
            == Unanswered(tasks) + if t.answered then 0 else 1
  {
    if i > 0 {
      UnansweredUpdate(tasks[1..], i - 1, t);
      assert tasks[i := t][1..] == tasks[1..][i - 1 := t];
    } else {
      assert tasks[0 := t][1..] == tasks[1..];
    }
  }

  lemma TaskStepSmaller(c: Config, s: State, e: Event)
    requires Enabled(c, s, e) && (e.Respond? || e.Release?)
    ensures Smaller(Apply(c, s, e), s)
  {
    var t, t' := s.running[e.i], Apply(c, s, e).running[e.i];
    UnansweredUpdate(s.running, e.i, t');
    HeldUpdate(s.running, e.i, t', 0);
  }

  lemma {:induction false} RemoveEntryShrinks(q: Plan, id: int)
    ensures |RemoveEntry(q, id)| <= |q|
  {
    if q != [] {
      RemoveEntryShrinks(q[1..], id);
    }
  }

  lemma {:induction false} RemoveJobLength(q: seq<Job>, id: int)
    requires id in Ids(q)
    ensures |RemoveJob(q, id)| == |q| - 1
  {
    if q[0].id != id {
      var i :| 0 <= i < |q| && Ids(q)[i] == id;
      assert Ids(q[1..])[i - 1] == id;
      RemoveJobLength(q[1..], id);
    }
  }

  /** With jobs that need one resource, the winner of a round serves someone. */
  lemma RoundServes(c: Config, s: State, k: nat)
    requires Inv(c, s) && c.m == 1 && Enabled(c, s, Choose(k))
    ensures NoJobs(s.phase.trials[k].plan) > 0
  {
    hide RidsOk, IdsOk, FlagsOk, PlanFor, OrderFor;
    WindowFacts(c, s);
    assert s.phase.trials[0] in s.phase.trials;
    assert Window(s.ready, c.window) != [];
    WinnerServes(|s.ready|, Window(s.ready, c.window), s.phase.trials, k, c.m, c.M);
  }

  lemma SchedulingStepSmaller(c: Config, s: State, e: Event)
    requires Inv(c, s) && c.m == 1 && Enabled(c, s, e) && IsScheduling(e)
    ensures Smaller(Apply(c, s, e), s)
  {
    hide IsWinner, OrderFor, PlanFor, Decide, JobsOk, RidsOk, IdsOk, FlagsOk, ValidTrials, Pending, HeldBy, Unanswered,
         Erase, RemoveJob, Resources, NoJobs, NoEmptyList, Named;
    CrashIsLoss(c, s, e);
    if e.Choose? {
      RoundServes(c, s, e.k);
    } else if e.Remove? {
      StepIsOrderly(c, s, e);
      RemoveJobLength(s.ready, s.phase.todo[0].job.id);
    }
  }

  /** Every step but the issue of a job brings the end of all jobs nearer. */
  lemma StepSmaller(c: Config, s: State, e: Event)
    requires Inv(c, s) && c.m == 1 && Enabled(c, s, e) && !e.Issue?
    ensures Smaller(Apply(c, s, e), s)
  {
    hide IsWinner, OrderFor, PlanFor, Decide, Inv, HeldBy, Unanswered, RemoveEntry;
    CrashIsLoss(c, s, e);
    if IsScheduling(e) {
      SchedulingStepSmaller(c, s, e);
    } else if e.Respond? || e.Release? {
      TaskStepSmaller(c, s, e);
    } else if e.TidyUp? {
      RemoveEntryShrinks(s.runQ, s.leaving[e.i]);
    }
  }

  /** One step of a run without new jobs. */
  ghost predicate Continues(c: Config, f: nat -> State, g: nat -> Event, n: nat) {
    Enabled(c, f(n), g(n)) && !g(n).Issue? && f(n + 1) == Apply(c, f(n), g(n))
  }

  /** No run goes on forever without new jobs. */
  lemma NoEndlessRun(c: Config, f: nat -> State, g: nat -> Event, n: nat)
    requires c.m == 1 && (f(n).phase.Crashed? || Inv(c, f(n)))
    ensures exists k: nat :: k >= n && !Continues(c, f, g, k)
    decreases Load(f(n)), Work(f(n)), Rank(f(n).phase), Outer(f(n).phase), Inner(f(n).phase)
  {
    hide Inv, Enabled, Apply, Load, Work, Rank, Outer, Inner;
    if Continues(c, f, g, n) {
      if f(n).phase.Crashed? {
        NothingAfterCrash(c, f(n), g(n));
      } else {
        StepSmaller(c, f(n), g(n));
        if !f(n + 1).phase.Crashed? {
          InvStep(c, f(n), g(n));
        }
        NoEndlessRun(c, f, g, n + 1);
      }
    }
  }

  lemma NothingAfterCrash(c: Config, s: State, e: Event)
    requires s.phase.Crashed?
    ensures !Enabled(c, s, e)
  {
  }

  // ---------- nothing gets stuck ----------

  /** There is a job that is not finished. */
  predicate Unfinished(s: State) {
    s.arriving != [] || s.ready != [] || InService(s.phase) != [] || s.runQ != [] || s.running != [] || s.finished != []
  }

  /** A resource is left, or the round is spoiled already. */
  ghost predicate Alive(s: State) {
    s.provisioned >= 1 || Doomed(s)
  }

  lemma AliveStep(c: Config, s: State, e: Event)
    requires Inv(c, s) && Alive(s) && Enabled(c, s, e)
    ensures Alive(Apply(c, s, e))
  {
    hide Inv, Doomed, Decide, IsWinner, PlanFor, OrderFor;
    DoomStep(c, s, e);
    if e.Adjust? && Shrinks(s) && !Dooms(s, e) {
      KeepsOne(c, s);
    }
  }

  lemma KeepsOne(c: Config, s: State)
    requires Inv(c, s) && Enabled(c, s, Adjust) && Shrinks(s) && !Dooms(s, Adjust)
    ensures Apply(c, s, Adjust).provisioned >= 1
  {
    hide JobsOk, IdsOk, FlagsOk, Decide, Occ;
    var plan, n := s.phase.plan, |s.pool|;
    assert plan[0] in plan;
    var r := plan[0].res[0];
    assert Resources(plan)[0] == r;
    OccIn(Resources(plan), r);
    NoneOf(r);
    OccIn(s.pool, r);
    assert r in s.pool[..n - 1];
    AdjustKept(c, s, r);
  }

  /** In every reachable state with unfinished jobs, some thread can take a step. */
  lemma NextStep(c: Config, s: State) returns (e: Event)
    requires Inv(c, s) && Alive(s) && Unfinished(s)
    ensures Enabled(c, s, e) && !e.Issue?
  {
    hide JobsOk, RidsOk, IdsOk, FlagsOk, PhaseOk, Alive, Unfinished, Enabled;
    match s.phase
    case Trying(_, _) => e := TryingStep(c, s);
    case Chosen(_) => e := Adjust; ShrinkNeverBlocks(c, s);
    case Serving(_, _, _, _) => e := ServingStep(c, s);
    case Idle => e := IdleStep(c, s);
    case Crashed => NotCrashed(c, s);
  }

  lemma ServingStep(c: Config, s: State) returns (e: Event)
    requires Inv(c, s) && s.phase.Serving?
    ensures Enabled(c, s, e) && !e.Issue?
  {
    hide JobsOk, RidsOk, IdsOk, FlagsOk, Pending, Named;
    var phase := s.phase;
    e := if !phase.removed then Remove else if phase.taken < |phase.todo[0].res| then ClaimOne else Enqueue;
  }

  lemma TryingStep(c: Config, s: State) returns (e: Event)
    requires Inv(c, s) && s.phase.Trying?
    ensures Enabled(c, s, e) && !e.Issue?
  {
    hide RidsOk, IdsOk, FlagsOk, PlanFor, Score;
    var trials := s.phase.trials;
    if s.phase.back != [] {
      e := PutBack;
    } else if |trials| < 5 {
      WindowFacts(c, s);
      var order := OrderExists(PolicyAt(|trials|), Window(s.ready, c.window));
      e := Take(order);
    } else {
      WindowFacts(c, s);
      TrialsPositive(Window(s.ready, c.window), trials);
      var k := WinnerExists(|s.ready|, trials);
      e := Choose(k);
    }
  }

  lemma {:induction false} WinnerExists(q: nat, trials: seq<Trial>) returns (k: nat)
    requires trials != [] && forall t :: t in trials ==> Positive(JobsOf(t.plan))
    ensures IsWinner(q, trials, k)
  {
    hide Score, Positive, JobsOf;
    var n := |trials| - 1;
    assert trials[n] in trials;
    if n == 0 {
      k := 0;
    } else {
      forall t | t in trials[..n] ensures t in trials {}
      k := WinnerExists(q, trials[..n]);
      assert trials[k] in trials;
      assert forall i :: 0 <= i < n ==> trials[..n][i] == trials[i];
      forall i | 0 <= i < n
        ensures Positive(JobsOf(trials[i].plan)) && Score(q, trials[i].plan) <= Score(q, trials[k].plan)
        ensures i > k ==> Score(q, trials[i].plan) < Score(q, trials[k].plan)
      {
        assert trials[i] in trials;
        assert trials[..n][i] == trials[i];
      }
      if Score(q, trials[n].plan) >= Score(q, trials[k].plan) {
        k := n;
      }
    }
  }

  lemma IdleStep(c: Config, s: State) returns (e: Event)
    requires Inv(c, s) && Alive(s) && Unfinished(s) && s.phase.Idle?
    ensures Enabled(c, s, e) && !e.Issue?
  {
    hide JobsOk, IdsOk, FlagsOk;
    if s.arriving != [] {
      e := Push(0);
    } else if s.runQ != [] {
      e := Dispatch;
    } else if s.running != [] {
      e := if !s.running[0].answered then Respond(0) else if s.running[0].held != [] then Release(0) else Complete(0);
    } else if s.finished != [] {
      e := Finish;
    } else {
      assert Total(s) == |s.pool|;
      e := Begin;
    }
  }

  // ---------- whole runs ----------

  lemma {:induction false} AliveRun(c: Config, s: State, es: seq<Event>)
    requires Inv(c, s) && Alive(s) && CanRun(c, s, es)
    ensures Alive(After(c, s, es))
    decreases es
  {
    hide Inv, Enabled, Apply, Alive;
    if es != [] {
      var s' := Apply(c, s, es[0]);
      AliveStep(c, s, es[0]);
      if s'.phase.Crashed? {
        CrashedStays(c, s', es[1..]);
      } else {
        InvStep(c, s, es[0]);
        AliveRun(c, s', es[1..]);
      }
    }
  }

  /**
   * A run that cannot go on without new jobs has failed to claim a resource exactly if one was popped
   * under a plan that names it: a spoiled round never comes to another end. If none was, every job
   * issued so far has its response and its handler may go on.
   */
  lemma MaximalRunFinishesAll(c: Config, es: seq<Event>)
    requires c.Valid() && CanRun(c, START, es)
    requires forall e :: Enabled(c, After(c, START, es), e) ==> e.Issue?
    ensures var s := After(c, START, es);
            && (s.phase.Crashed? <==> HasDoom(c, START, es))
            && (!s.phase.Crashed? ==>
                  !Unfinished(s) && forall id :: 1 <= id < s.nextJid ==> id in s.answered && id in s.marked)
  {
    hide Inv, Alive, Doomed, HasDoom, Enabled;
    StartOk(c);
    InvRun(c, START, es);
    StartAlive();
    AliveRun(c, START, es);
    FailsExactlyWhenNamedIsPopped(c, es);
    var s := After(c, START, es);
    if !s.phase.Crashed? {
      if s.phase.Serving? {
        var e := ServingStep(c, s);
      }
      OnlyServingIsDoomed(s);
      if Unfinished(s) {
        var e := NextStep(c, s);
      }
      forall id | 1 <= id < s.nextJid ensures id in s.answered && id in s.marked {
        AllDone(c, s, id);
      }
    }
  }

  lemma OnlyServingIsDoomed(s: State)
    ensures Doomed(s) ==> s.phase.Crashed? || s.phase.Serving?
  {
  }

  lemma StartAlive()
    ensures Alive(START)
  {
  }

  lemma AllDone(c: Config, s: State, id: int)
    requires Inv(c, s) && !Unfinished(s) && 1 <= id < s.nextJid
    ensures id in s.answered && id in s.marked
  {
    hide Occ, JobsOk, RidsOk, PhaseOk;
    NoneOf(id);
    assert Stages(s, id) == 1;
    assert Ids([]) == [] && PlanIds([]) == [] && TaskIds([]) == [];
    assert Over(s, id);
  }
}
