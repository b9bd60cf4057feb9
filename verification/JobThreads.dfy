/**
 * What the threads other than the scheduling thread do to the state, in which order, and that they never
 * wait for it.
 */
module JobThreads {
  import opened Sequences
  import opened Jobs
  import opened Policies
  import opened Winner
  import opened Service
  import opened Elasticity
  import opened Threads
  import opened Census
  import opened Invariants

  // ---------- who may change what ----------

  ghost predicate Suffix<T>(a: seq<T>, b: seq<T>) {
    |a| <= |b| && b[|b| - |a|..] == a
  }

  /**
   * Other threads only add to the back of the pool and to the front of the ready queue, and they keep their
   * hands off the counters of resources and the progress of the round. Only the scheduling thread takes
   * resources out of the pool.
   */
  lemma OthersExtend(c: Config, s: State, e: Event)
    requires Enabled(c, s, e) && !IsScheduling(e)
    ensures var s' := Apply(c, s, e);
            && s.pool <= s'.pool && Suffix(s.ready, s'.ready) && s.done <= s'.done
            && s'.nextRid == s.nextRid && s'.provisioned == s.provisioned
            && (s'.phase == s.phase || s'.phase.Crashed?)
  {
    hide Suffix, RemoveEntry;
    SuffixSelf(s.ready);
    if e.Push? {
      SuffixCons(s.arriving[e.i], s.ready);
    }
  }

  lemma SuffixSelf<T>(a: seq<T>)
    ensures Suffix(a, a)
  {
  }

  lemma SuffixCons<T>(x: T, a: seq<T>)
    ensures Suffix(a, [x] + a)
  {
  }

  /** The scheduling thread only adds to the front of the run queue and leaves all job threads alone. */
  lemma SchedulingLeavesJobs(c: Config, s: State, e: Event)
    requires Enabled(c, s, e) && IsScheduling(e)
    ensures var s' := Apply(c, s, e);
            && Suffix(s.runQ, s'.runQ) && s'.arriving == s.arriving && s'.running == s.running
            && s'.finished == s.finished && s'.done == s.done && s'.leaving == s.leaving
            && s'.started == s.started && s'.answered == s.answered && s'.marked == s.marked && s'.nextJid == s.nextJid
  {
    hide IsWinner, OrderFor, PlanFor, Decide, Suffix, RemoveJob, Erase, NoJobs, Resources;
    SuffixSelf(s.runQ);
    if e.Enqueue? {
      SuffixCons(s.phase.todo[0], s.runQ);
    }
  }

  /** So it is for any run in which the scheduling thread does nothing. */
  lemma {:induction false} OthersExtendRun(c: Config, s: State, es: seq<Event>)
    requires CanRun(c, s, es) && forall e :: e in es ==> !IsScheduling(e)
    ensures s.pool <= After(c, s, es).pool && Suffix(s.ready, After(c, s, es).ready)
    decreases es
  {
    hide Enabled, Apply;
    if es != [] {
      assert es[0] in es;
      OthersExtend(c, s, es[0]);
      forall e | e in es[1..] ensures e in es {}
      OthersExtendRun(c, Apply(c, s, es[0]), es[1..]);
      SuffixTransitive(s.ready, Apply(c, s, es[0]).ready, After(c, s, es).ready);
    }
  }

  lemma SuffixTransitive<T>(a: seq<T>, b: seq<T>, d: seq<T>)
    requires Suffix(a, b) && Suffix(b, d)
    ensures Suffix(a, d)
  {
    assert d[|d| - |a|..] == d[|d| - |b|..][|b| - |a|..];
  }

  /** Handlers wait for the trials of a round to end; other threads can go on whatever the round has come to. */
  lemma OthersNeverWait(c: Config, s: State, e: Event, phase: Phase)
    requires !IsScheduling(e) && !s.phase.Crashed? && !phase.Crashed?
    ensures !e.Push? ==> (Enabled(c, s, e) <==> Enabled(c, s.(phase := phase), e))
    ensures e.Push? && !phase.Trying? && !s.phase.Trying? ==> (Enabled(c, s, e) <==> Enabled(c, s.(phase := phase), e))
    ensures e.Push? ==> !Enabled(c, s.(phase := Trying([], [])), e)
  {
  }

  // ---------- the life of a job thread ----------

  /** A job thread returns its resources to the back of the pool, in the order in which it holds them. */
  lemma {:induction false} ReleaseRun(c: Config, s: State, i: nat) returns (es: seq<Event>)
    requires !s.phase.Crashed? && i < |s.running| && s.running[i].answered
    ensures |es| == |s.running[i].held| && forall e :: e in es ==> e == Release(i)
    ensures Leads(c, s, es,
                  s.(pool := s.pool + s.running[i].held, running := s.running[i := s.running[i].(held := [])]))
    decreases |s.running[i].held|
  {
    hide Leads;
    var t := s.running[i];
    if t.held == [] {
      es := [];
      assert s.running[i := t] == s.running && s.pool + [] == s.pool;
      LeadsNowhere(c, s);
    } else {
      var s' := Apply(c, s, Release(i));
      var rest := ReleaseRun(c, s', i);
      es := [Release(i)] + rest;
      var goal := s.(pool := s.pool + t.held, running := s.running[i := t.(held := [])]);
      assert s'.pool + s'.running[i].held == goal.pool;
      assert s'.running[i := s'.running[i].(held := [])] == goal.running;
      LeadsFirst(c, s, Release(i), s', rest, goal);
    }
  }

  /**
   * A job that has been started can always run to its end: it gets its response, its resources go back to the
   * pool, and it is finished before any job that was waiting to be; nothing else changes.
   */
  lemma ThreadRun(c: Config, s: State, i: nat) returns (es: seq<Event>)
    requires !s.phase.Crashed? && i < |s.running| && !s.running[i].answered
    ensures var t := s.running[i];
            Leads(c, s, es,
                  s.(running := DropAt(s.running, i), pool := s.pool + t.held, done := s.done + [t.job],
                     leaving := s.leaving + [t.job.id], answered := s.answered + {t.job.id},
                     marked := s.marked + {t.job.id}))
  {
    hide Leads;
    var t := s.running[i];
    var s1 := Apply(c, s, Respond(i));
    var t1 := s1.running[i];
    var releases := ReleaseRun(c, s1, i);
    var s2 := s1.(pool := s1.pool + t1.held, running := s1.running[i := t1.(held := [])]);
    var s3 := Apply(c, s2, Complete(i));
    assert s3.finished == [t.job] + s.finished;
    assert DropAt(s2.running, i) == DropAt(s.running, i);
    var s4 := Apply(c, s3, Finish);
    assert s4.finished == s.finished;
    LeadsNowhere(c, s4);
    LeadsFirst(c, s3, Finish, s4, [], s4);
    LeadsFirst(c, s2, Complete(i), s3, [Finish] + [], s4);
    LeadsOn(c, s1, releases, s2, [Complete(i)] + ([Finish] + []), s4);
    LeadsFirst(c, s, Respond(i), s1, releases + ([Complete(i)] + ([Finish] + [])), s4);
    es := [Respond(i)] + (releases + ([Complete(i)] + ([Finish] + [])));
  }

  // ---------- the dispatching and the finishing thread ----------

  /** The threads for a run queue, from its front to its back. */
  function TasksFor(q: Plan): (tasks: seq<Task>)
    ensures |tasks| == |q| && forall i :: 0 <= i < |q| ==> tasks[i] == Task(q[i].job, q[i].res, false)
  {
    seq(|q|, i requires 0 <= i < |q| => Task(q[i].job, q[i].res, false))
  }

  function IdSet(ids: seq<int>): set<int> {
    set x | x in ids
  }

  /** The dispatching thread starts all jobs of the run queue, front to back, each with its resources. */
  lemma {:induction false} DispatchRun(c: Config, s: State) returns (es: seq<Event>)
    requires Inv(c, s)
    ensures |es| == |s.runQ| && forall e :: e in es ==> e == Dispatch
    ensures Leads(c, s, es,
                  s.(runQ := [], running := s.running + TasksFor(s.runQ),
                     started := s.started + IdSet(PlanIds(s.runQ))))
    decreases |s.runQ|
  {
    hide Leads, Inv;
    var goal := s.(runQ := [], running := s.running + TasksFor(s.runQ), started := s.started + IdSet(PlanIds(s.runQ)));
    if s.runQ == [] {
      es := [];
      assert goal == s;
      LeadsNowhere(c, s);
    } else {
      hide Enabled, Apply;
      var s' := DispatchStarts(c, s);
      var rest := DispatchRun(c, s');
      es := [Dispatch] + rest;
      QueueCons(s.runQ, s.running);
      IdSetCons(PlanIds(s.runQ), s.started);
      LeadsFirst(c, s, Dispatch, s', rest, goal);
    }
  }

  lemma QueueCons(q: Plan, tasks: seq<Task>)
    requires q != []
    ensures tasks + TasksFor(q) == (tasks + [Task(q[0].job, q[0].res, false)]) + TasksFor(q[1..])
    ensures PlanIds(q)[0] == q[0].job.id && PlanIds(q)[1..] == PlanIds(q[1..])
  {
  }

  lemma IdSetCons(ids: seq<int>, before: set<int>)
    requires ids != []
    ensures before + IdSet(ids) == (before + {ids[0]}) + IdSet(ids[1..])
  {
    FirstAndRest(ids);
    forall x ensures x in IdSet(ids) <==> x == ids[0] || x in IdSet(ids[1..]) {
      assert x in ids <==> x == ids[0] || x in ids[1..];
    }
  }

  lemma DispatchStarts(c: Config, s: State) returns (s': State)
    requires Inv(c, s) && s.runQ != []
    ensures Enabled(c, s, Dispatch) && s' == Apply(c, s, Dispatch) && Inv(c, s')
    ensures var p := s.runQ[0];
            s' == s.(runQ := s.runQ[1..], running := s.running + [Task(p.job, p.res, false)],
                     started := s.started + {p.job.id})
  {
    hide JobsOk, RidsOk, IdsOk, PhaseOk;
    NotCrashed(c, s);
    s' := Apply(c, s, Dispatch);
    PlanIdsFirst(s.runQ, s.runQ[0].job.id);
    QueuedNotStarted(s, s.runQ[0].job.id);
    assert s.runQ[0] in s.runQ;
    InvStep(c, s, Dispatch);
  }

  /** The finishing thread marks all finished jobs, the latest first. */
  lemma {:induction false} FinishRun(c: Config, s: State) returns (es: seq<Event>)
    requires !s.phase.Crashed?
    ensures |es| == |s.finished| && forall e :: e in es ==> e == Finish
    ensures Leads(c, s, es,
                  s.(finished := [], done := s.done + s.finished, marked := s.marked + IdSet(Ids(s.finished))))
    decreases |s.finished|
  {
    hide Leads;
    var goal := s.(finished := [], done := s.done + s.finished, marked := s.marked + IdSet(Ids(s.finished)));
    if s.finished == [] {
      es := [];
      assert goal == s;
      LeadsNowhere(c, s);
    } else {
      assert Enabled(c, s, Finish);
      var s' := Apply(c, s, Finish);
      var rest := FinishRun(c, s');
      es := [Finish] + rest;
      hide Enabled, Apply;
      FinishCons(s.finished, s.done);
      IdSetCons(Ids(s.finished), s.marked);
      LeadsFirst(c, s, Finish, s', rest, goal);
    }
  }

  lemma FinishCons(q: seq<Job>, done: seq<Job>)
    requires q != []
    ensures done + q == (done + [q[0]]) + q[1..]
    ensures Ids(q)[0] == q[0].id && Ids(q)[1..] == Ids(q[1..])
  {
  }

  // ---------- jobs stay what they were submitted as ----------

  ghost predicate InPhase(phase: Phase, j: Job) {
    match phase
    case Trying(trials, _) => exists t :: t in trials && j in JobsOf(t.plan)
    case Chosen(plan) => j in JobsOf(plan)
    case Serving(todo, _, _, _) => j in JobsOf(todo)
    case _ => false
  }

  /** The job is somewhere in the state. */
  ghost predicate Has(s: State, j: Job) {
    || j in s.arriving || j in s.ready || j in s.finished || j in s.done
    || j in JobsOf(s.runQ) || (exists t :: t in s.running && t.job == j) || InPhase(s.phase, j)
  }

  /** The job that a handler builds from a request. */
  function Built(c: Config, id: int, e: Event): Job
    requires e.Issue?
  {
    Job(id, c.m, c.M, e.priority, e.predicted, e.target)
  }

  /** No step invents or alters a job. */
  lemma NoNewJobs(c: Config, s: State, e: Event, j: Job)
    requires Enabled(c, s, e) && Has(Apply(c, s, e), j)
    ensures Has(s, j) || (e.Issue? && j == Built(c, s.nextJid, e))
  {
    hide IsWinner, OrderFor, PlanFor, Decide, InPhase;
    var s' := Apply(c, s, e);
    if InPhase(s'.phase, j) {
      PhaseJobs(c, s, e, j);
    } else {
      PlaceJobs(c, s, e, j);
    }
  }

  lemma PhaseJobs(c: Config, s: State, e: Event, j: Job)
    requires Enabled(c, s, e) && InPhase(Apply(c, s, e).phase, j)
    ensures j in s.ready || InPhase(s.phase, j)
  {
    hide IsWinner, PlanFor, Decide, OrderFor, Erase, RemoveJob, RemoveEntry, NoJobs, JobsOf;
    match e
    case Take(order) => TakenJobs(c, s, order, j);
    case Choose(k) => ChosenJobs(c, s, k, j);
    case Enqueue => EnqueuedJobs(c, s, j);
    case _ =>
  }

  lemma ChosenJobs(c: Config, s: State, k: nat, j: Job)
    requires Enabled(c, s, Choose(k)) && InPhase(Apply(c, s, Choose(k)).phase, j)
    ensures InPhase(s.phase, j)
  {
    hide IsWinner, JobsOf, NoJobs;
    WinnerBelow(|s.ready|, s.phase.trials, k);
    assert s.phase.trials[k] in s.phase.trials;
  }

  lemma EnqueuedJobs(c: Config, s: State, j: Job)
    requires Enabled(c, s, Enqueue) && InPhase(Apply(c, s, Enqueue).phase, j)
    ensures InPhase(s.phase, j)
  {
    assert JobsOf(s.phase.todo)[1..] == JobsOf(s.phase.todo[1..]);
  }

  lemma TakenJobs(c: Config, s: State, order: seq<Job>, j: Job)
    requires Enabled(c, s, Take(order)) && InPhase(Apply(c, s, Take(order)).phase, j)
    ensures j in s.ready || InPhase(s.phase, j)
  {
    hide PlanFor, OrderFor;
    var p := PolicyAt(|s.phase.trials|);
    var win := Window(s.ready, c.window);
    var t :| t in Apply(c, s, Take(order)).phase.trials && j in JobsOf(t.plan);
    if t !in s.phase.trials {
      assert t == Trial(order, s.pool, PlanFor(p, order, s.pool));
      ValidTrialMeans(p, win, t);
      TrialJobs(p, win, t);
      assert j in win;
    }
  }

  lemma PlaceJobs(c: Config, s: State, e: Event, j: Job)
    requires Enabled(c, s, e) && Has(Apply(c, s, e), j) && !InPhase(Apply(c, s, e).phase, j)
    ensures Has(s, j) || (e.Issue? && j == Built(c, s.nextJid, e))
  {
    hide IsWinner, OrderFor, PlanFor, Decide, InPhase, JobsOf, RemoveEntry, RemoveJob;
    match e
    case Enqueue => EnqueueJobs(c, s, j);
    case Dispatch => DispatchJobs(c, s, j);
    case Respond(i) => RunningJobs(c, s, e, j);
    case Release(i) => RunningJobs(c, s, e, j);
    case Complete(i) => RunningJobs(c, s, e, j);
    case TidyUp(i) => RemoveEntryJobs(s.runQ, s.leaving[i], j);
    case Remove => RemoveJobKeeps(s.ready, s.phase.todo[0].job.id);
    case _ =>
  }

  lemma EnqueueJobs(c: Config, s: State, j: Job)
    requires Enabled(c, s, Enqueue)
    ensures j in JobsOf(Apply(c, s, Enqueue).runQ) ==> j in JobsOf(s.runQ) || InPhase(s.phase, j)
  {
    var p := s.phase.todo[0];
    assert JobsOf([p] + s.runQ) == [p.job] + JobsOf(s.runQ);
    assert JobsOf(s.phase.todo)[0] == p.job;
  }

  lemma DispatchJobs(c: Config, s: State, j: Job)
    requires Enabled(c, s, Dispatch)
    ensures j in JobsOf(Apply(c, s, Dispatch).runQ) ==> j in JobsOf(s.runQ)
    ensures (exists t :: t in Apply(c, s, Dispatch).running && t.job == j) ==>
              j in JobsOf(s.runQ) || exists t :: t in s.running && t.job == j
  {
    var jobs := JobsOf(s.runQ);
    assert jobs[1..] == JobsOf(s.runQ[1..]) && jobs[0] in jobs;
  }

  lemma RunningJobs(c: Config, s: State, e: Event, j: Job)
    requires Enabled(c, s, e) && (e.Respond? || e.Release? || e.Complete?)
    ensures var s' := Apply(c, s, e);
            (exists t :: t in s'.running && t.job == j) || j in s'.finished ==>
              j in s.finished || exists t :: t in s.running && t.job == j
  {
    assert s.running[e.i] in s.running;
  }

  lemma {:induction false} RemoveEntryJobs(q: Plan, id: int, j: Job)
    ensures j in JobsOf(RemoveEntry(q, id)) ==> j in JobsOf(q)
  {
    if q != [] && j in JobsOf(RemoveEntry(q, id)) {
      assert JobsOf(q)[0] == q[0].job && JobsOf(q)[1..] == JobsOf(q[1..]);
      FirstAndRest(JobsOf(q));
      if q[0].job.id != id {
        RemoveEntryJobs(q[1..], id, j);
        var r := RemoveEntry(q[1..], id);
        assert JobsOf([q[0]] + r) == [q[0].job] + JobsOf(r);
      }
    }
  }

  /** The requests of a run, in the order in which they were issued. */
  function Issued(es: seq<Event>): seq<Event> {
    if es == [] then [] else (if es[0].Issue? then [es[0]] else []) + Issued(es[1..])
  }

  /** The job is what the handler built from the request that got its id. */
  ghost predicate Genuine(c: Config, issued: seq<Event>, j: Job) {
    1 <= j.id <= |issued| && issued[j.id - 1].Issue? && j == Built(c, j.id, issued[j.id - 1])
  }

  ghost predicate AllGenuine(c: Config, issued: seq<Event>, s: State) {
    s.nextJid == |issued| + 1 && forall j :: Has(s, j) ==> Genuine(c, issued, j)
  }

  lemma GenuineStep(c: Config, issued: seq<Event>, s: State, e: Event)
    requires AllGenuine(c, issued, s) && Enabled(c, s, e)
    ensures AllGenuine(c, issued + (if e.Issue? then [e] else []), Apply(c, s, e))
  {
    hide IsWinner, OrderFor, PlanFor, Decide, Has;
    var all := issued + if e.Issue? then [e] else [];
    forall j | Has(Apply(c, s, e), j) ensures Genuine(c, all, j) {
      NoNewJobs(c, s, e, j);
    }
  }

  lemma {:induction false} GenuineRun(c: Config, issued: seq<Event>, s: State, es: seq<Event>)
    requires AllGenuine(c, issued, s) && CanRun(c, s, es)
    ensures AllGenuine(c, issued + Issued(es), After(c, s, es))
    decreases es
  {
    hide Enabled, Apply, AllGenuine;
    if es == [] {
      assert issued + [] == issued;
    } else {
      var first := if es[0].Issue? then [es[0]] else [];
      GenuineStep(c, issued, s, es[0]);
      GenuineRun(c, issued + first, Apply(c, s, es[0]), es[1..]);
      ConcatAssociative(issued, first, Issued(es[1..]));
    }
  }

  /**
   * In every run each job, wherever it is, has the bounds, the priority and the times it was submitted with,
   * and ids are given in the order of the requests.
   */
  lemma JobsAreAsSubmitted(c: Config, es: seq<Event>, j: Job)
    requires CanRun(c, START, es) && Has(After(c, START, es), j)
    ensures 1 <= j.id <= |Issued(es)| && Issued(es)[j.id - 1].Issue?
    ensures var request := Issued(es)[j.id - 1];
            && j.min == c.m && j.max == c.M && j.priority == request.priority
            && j.predicted == request.predicted && j.target == request.target
  {
    NoJobsAtStart(c);
    hide AllGenuine, Has;
    GenuineRun(c, [], START, es);
    assert [] + Issued(es) == Issued(es);
    AllGenuineMeans(c, Issued(es), After(c, START, es), j);
  }

  lemma NoJobsAtStart(c: Config)
    ensures AllGenuine(c, [], START)
  {
    assert JobsOf([]) == [];
  }

  lemma AllGenuineMeans(c: Config, issued: seq<Event>, s: State, j: Job)
    requires AllGenuine(c, issued, s) && Has(s, j)
    ensures Genuine(c, issued, j)
  {
  }
}
