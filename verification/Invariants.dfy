/** What holds in every state the threads can reach. */
module Invariants {
  import opened Sequences
  import opened Jobs
  import opened Policies
  import opened Winner
  import opened Service
  import opened Elasticity
  import opened Threads
  import opened Census

  /** All waiting jobs have the common bounds and a positive predicted time. */
  ghost predicate JobsOk(c: Config, s: State) {
    && Uniform(s.arriving, c.m, c.M) && Positive(s.arriving)
    && Uniform(s.ready, c.m, c.M) && Positive(s.ready)
  }

  /** Each resource is in one place at most, ids are those handed out so far, and the number is right. */
  ghost predicate RidsOk(s: State) {
    && (forall r :: Places(s, r) <= 1 && (Places(s, r) == 1 ==> 1 <= r < s.nextRid))
    && Total(s) == s.provisioned
    && 1 <= s.nextRid
  }

  /** Each job id handed out so far is in exactly one stage, and no other is in any. */
  ghost predicate IdsOk(s: State) {
    && (forall id :: Stages(s, id) == if 1 <= id < s.nextJid then 1 else 0)
    && 1 <= s.nextJid
  }

  ghost predicate Over(s: State, id: int) {
    Occ(Ids(s.finished), id) + Occ(Ids(s.done), id) > 0
  }

  /** The flags agree with the stages. */
  ghost predicate FlagsOk(s: State) {
    && (forall id :: id in s.started <==> Occ(TaskIds(s.running), id) > 0 || Over(s, id))
    && (forall id :: id in s.marked <==> Occ(Ids(s.done), id) > 0)
    && (forall id :: Over(s, id) ==> id in s.answered)
    && (forall i :: 0 <= i < |s.running| ==> (s.running[i].answered <==> s.running[i].job.id in s.answered))
    && (forall id :: id in s.answered ==> id in s.started)
    && (forall id :: id in s.leaving ==> Over(s, id))
    && NoEmptyList(s.runQ)
  }

  /** What is still to be claimed. */
  function Named(todo: Plan, taken: nat): seq<Rid> {
    if todo == [] || taken > |todo[0].res| then [] else todo[0].res[taken..] + Resources(todo[1..])
  }

  /** The jobs of a plan are waiting, and its resources are free unless they are lost. */
  ghost predicate Pending(s: State, jobs: Plan, named: seq<Rid>, lost: seq<Rid>) {
    && (forall id :: Occ(PlanIds(jobs), id) <= Occ(Ids(s.ready), id))
    && (forall r :: Occ(named, r) <= Occ(s.pool, r) + Occ(lost, r))
  }

  ghost predicate TrialsOk(c: Config, s: State, trials: seq<Trial>, back: seq<Rid>) {
    && s.ready != [] && |s.pool| + |back| > 0
    && ValidTrials(Window(s.ready, c.window), trials)
    && (forall t :: t in trials ==> 0 < |t.pool| <= |s.pool| + |back|)
    && (forall t, r :: t in trials ==> Occ(t.pool, r) <= Occ(s.pool, r) + Occ(back, r))
  }

  ghost predicate ServingOk(s: State, todo: Plan, removed: bool, taken: nat, lost: seq<Rid>) {
    && todo != [] && NoEmptyList(todo) && taken <= |todo[0].res| && (removed || taken == 0)
    && Pending(s, if removed then todo[1..] else todo, Named(todo, taken), lost)
    && |lost| <= 1 && (forall r :: r in lost ==> Places(s, r) == 0 && 1 <= r < s.nextRid)
  }

  ghost predicate PhaseOk(c: Config, s: State) {
    match s.phase
    case Idle => true
    case Trying(trials, back) => TrialsOk(c, s, trials, back)
    case Chosen(plan) => plan != [] && NoEmptyList(plan) && Pending(s, plan, Resources(plan), [])
    case Serving(todo, removed, taken, lost) => ServingOk(s, todo, removed, taken, lost)
    case Crashed => false
  }

  ghost predicate Inv(c: Config, s: State) {
    c.Valid() && JobsOk(c, s) && RidsOk(s) && IdsOk(s) && FlagsOk(s) && PhaseOk(c, s)
  }

  // ---------- consequences ----------

  lemma NotCrashed(c: Config, s: State)
    requires Inv(c, s)
    ensures !s.phase.Crashed?
  {
  }

  /** A job in the run queue has not been started, so the dispatcher always starts it. */
  lemma QueuedNotStarted(s: State, id: int)
    requires IdsOk(s) && FlagsOk(s) && Occ(PlanIds(s.runQ), id) > 0
    ensures id !in s.started && !Over(s, id)
  {
    assert Stages(s, id) <= 1;
  }

  lemma {:induction false} RemoveEntryNothing(q: Plan, id: int)
    requires Occ(PlanIds(q), id) == 0
    ensures RemoveEntry(q, id) == q
  {
    if q != [] {
      PlanIdsFirst(q, id);
      RemoveEntryNothing(q[1..], id);
    }
  }

  lemma StepIsOrderly(c: Config, s: State, e: Event)
    requires Inv(c, s) && Enabled(c, s, e) && !Apply(c, s, e).phase.Crashed?
    ensures Orderly(c, s, e)
    ensures e.Remove? ==> s.phase.todo[0].job.id in Ids(s.ready)
  {
    hide JobsOk, RidsOk, IdsOk, FlagsOk, PhaseOk, Apply, RemoveEntry;
    ServingIsTidy(c, s);
    if e.Dispatch? {
      PlanIdsFirst(s.runQ, s.runQ[0].job.id);
      QueuedNotStarted(s, s.runQ[0].job.id);
    } else if e.TidyUp? {
      LeavingIsGone(c, s, s.leaving[e.i]);
    } else if e.Remove? {
      FirstWaits(c, s);
    }
  }

  lemma ServingIsTidy(c: Config, s: State)
    requires Inv(c, s)
    ensures s.phase.Serving? ==>
              && s.phase.todo != [] && s.phase.taken <= |s.phase.todo[0].res|
              && (s.phase.removed || s.phase.taken == 0)
  {
    hide JobsOk, RidsOk, IdsOk, FlagsOk, Pending;
  }

  /** A job thread that is about to tidy up the run queue finds nothing there. */
  lemma LeavingIsGone(c: Config, s: State, id: int)
    requires Inv(c, s) && id in s.leaving
    ensures RemoveEntry(s.runQ, id) == s.runQ
  {
    hide JobsOk, RidsOk, IdsOk, PhaseOk, Occ;
    assert Over(s, id);
    if Occ(PlanIds(s.runQ), id) > 0 {
      QueuedNotStarted(s, id);
    }
    RemoveEntryNothing(s.runQ, id);
  }

  /** The job that is served next is still in the ready queue. */
  lemma FirstWaits(c: Config, s: State)
    requires Inv(c, s) && s.phase.Serving? && s.phase.todo != [] && !s.phase.removed
    ensures s.phase.todo[0].job.id in Ids(s.ready)
  {
    hide JobsOk, RidsOk, IdsOk, FlagsOk, Occ;
    var id := s.phase.todo[0].job.id;
    PlanIdsFirst(s.phase.todo, id);
    assert Occ(PlanIds(s.phase.todo), id) <= Occ(Ids(s.ready), id);
    OccIn(Ids(s.ready), id);
  }

  /**
   * The only step that can go wrong is the claim of a resource the elasticity manager has popped
   * since the plan was chosen. In particular no trial finds the pool empty, and no job is started
   * without a resource.
   */
  lemma CrashIsLoss(c: Config, s: State, e: Event)
    requires Inv(c, s) && Enabled(c, s, e)
    ensures Apply(c, s, e).phase.Crashed? <==> e.ClaimOne? && ClaimsLost(s)
  {
    match e
    case Dispatch => DispatchFinds(c, s);
    case ClaimOne => ClaimFindsUnlessLost(c, s);
    case TakeNothing => TriesFind(c, s);
    case _ => NoCrash(c, s, e);
  }

  /** The resource that is claimed next has been popped. */
  predicate ClaimsLost(s: State) {
    && s.phase.Serving? && s.phase.todo != [] && s.phase.taken < |s.phase.todo[0].res|
    && s.phase.todo[0].res[s.phase.taken] in s.phase.lost
  }

  lemma DispatchFinds(c: Config, s: State)
    requires Inv(c, s) && Enabled(c, s, Dispatch)
    ensures !Apply(c, s, Dispatch).phase.Crashed?
  {
    hide JobsOk, RidsOk, IdsOk, PhaseOk;
    NotCrashed(c, s);
    assert s.runQ[0] in s.runQ;
  }

  lemma TriesFind(c: Config, s: State)
    requires Inv(c, s)
    ensures !Enabled(c, s, TakeNothing)
  {
    hide JobsOk, RidsOk, IdsOk, FlagsOk, ValidTrials;
  }

  lemma NoCrash(c: Config, s: State, e: Event)
    requires Enabled(c, s, e) && !e.Dispatch? && !e.ClaimOne? && !e.TakeNothing?
    ensures !Apply(c, s, e).phase.Crashed?
  {
    hide IsWinner, OrderFor, PlanFor, Decide, NoJobs, RemoveJob, RemoveEntry;
  }

  lemma ClaimFindsUnlessLost(c: Config, s: State)
    requires Inv(c, s) && Enabled(c, s, ClaimOne)
    ensures s.phase.todo[0].res[s.phase.taken] in s.pool <==> !ClaimsLost(s)
    ensures Apply(c, s, ClaimOne).phase.Crashed? <==> ClaimsLost(s)
  {
    hide Decide, IdsOk, FlagsOk, JobsOk;
    var todo, k, lost := s.phase.todo, s.phase.taken, s.phase.lost;
    var r := todo[0].res[k];
    var named := Named(todo, k);
    assert named[0] == r;
    OccIn(named, r);
    assert Occ(named, r) <= Occ(s.pool, r) + Occ(lost, r);
    OccIn(s.pool, r);
    OccIn(lost, r);
    if r in lost {
      assert Places(s, r) == 0;
    }
  }

  // ---------- every step keeps the invariant ----------

  lemma JobsOkStep(c: Config, s: State, e: Event)
    requires JobsOk(c, s) && Enabled(c, s, e)
    ensures JobsOk(c, Apply(c, s, e))
  {
    hide IsWinner, OrderFor, PlanFor, Decide;
    var s' := Apply(c, s, e);
    if e.Push? {
      assert s.arriving[e.i] in s.arriving;
      forall j | j in s'.arriving ensures j in s.arriving {}
      forall j | j in s'.ready ensures j in s.ready || j == s.arriving[e.i] {}
    } else if e.Remove? {
      RemoveJobKeeps(s.ready, s.phase.todo[0].job.id);
    }
  }

  lemma RidsOkStep(c: Config, s: State, e: Event)
    requires RidsOk(s) && Enabled(c, s, e) && Orderly(c, s, e)
    ensures RidsOk(Apply(c, s, e))
  {
    hide IsWinner, OrderFor, PlanFor, Decide, Places, Total, Orderly;
    var s' := Apply(c, s, e);
    forall r ensures Places(s', r) <= 1 && (Places(s', r) == 1 ==> 1 <= r < s'.nextRid) {
      ResourcesKept(c, s, e, r);
    }
    ResourcesKept(c, s, e, 0);
  }

  lemma IdsOkStep(c: Config, s: State, e: Event)
    requires IdsOk(s) && Enabled(c, s, e) && Orderly(c, s, e)
    requires e.Remove? ==> s.phase.todo[0].job.id in Ids(s.ready)
    ensures IdsOk(Apply(c, s, e))
  {
    hide IsWinner, OrderFor, PlanFor, Decide, Stages, Orderly;
    var s' := Apply(c, s, e);
    forall id ensures Stages(s', id) == if 1 <= id < s'.nextJid then 1 else 0 {
      JobsKept(c, s, e, id);
    }
  }

  lemma FlagsOkStep(c: Config, s: State, e: Event)
    requires IdsOk(s) && FlagsOk(s) && PhaseOk(c, s) && Enabled(c, s, e) && Orderly(c, s, e)
    ensures FlagsOk(Apply(c, s, e))
  {
    hide IsWinner, OrderFor, PlanFor, Decide, FlagsOk, Stages, PhaseOk;
    match e
    case Enqueue => EnqueueFlags(c, s);
    case Dispatch => DispatchFlags(c, s);
    case Respond(i) => RespondFlags(c, s, i);
    case Release(i) => ReleaseFlags(c, s, i);
    case Complete(i) => CompleteFlags(c, s, i);
    case TidyUp(i) => TidyUpFlags(c, s, i);
    case Finish => FinishFlags(c, s);
    case TakeNothing => assert false;
    case _ => SameFlags(s, Apply(c, s, e));
  }

  lemma SameFlags(s: State, s': State)
    requires FlagsOk(s)
    requires s'.runQ == s.runQ && s'.running == s.running && s'.finished == s.finished && s'.done == s.done
    requires s'.started == s.started && s'.answered == s.answered && s'.marked == s.marked && s'.leaving == s.leaving
    ensures FlagsOk(s')
  {
    hide Occ;
    assert forall id :: Over(s', id) == Over(s, id);
  }

  lemma EnqueueFlags(c: Config, s: State)
    requires FlagsOk(s) && PhaseOk(c, s) && Enabled(c, s, Enqueue)
    ensures FlagsOk(Apply(c, s, Enqueue))
  {
    hide Occ;
    var s' := Apply(c, s, Enqueue);
    assert s.phase.todo[0] in s.phase.todo;
    assert forall id :: Over(s', id) == Over(s, id);
  }

  lemma DispatchFlags(c: Config, s: State)
    requires FlagsOk(s) && Enabled(c, s, Dispatch) && Orderly(c, s, Dispatch)
    requires IdsOk(s)
    ensures FlagsOk(Apply(c, s, Dispatch))
  {
    hide Occ, Stages, IdsOk;
    var s', j := Apply(c, s, Dispatch), s.runQ[0].job;
    forall id ensures Over(s', id) == Over(s, id)
      ensures Occ(TaskIds(s'.running), id) == Occ(TaskIds(s.running), id) + if id == j.id then 1 else 0
    {
      assert TaskIds(s'.running) == TaskIds(s.running) + [j.id];
      OccConcat(TaskIds(s.running), [j.id], id);
      OccOne(j.id, id);
    }
    forall p | p in s'.runQ ensures p in s.runQ {}
  }

  lemma RespondFlags(c: Config, s: State, i: nat)
    requires IdsOk(s) && FlagsOk(s) && Enabled(c, s, Respond(i))
    ensures FlagsOk(Apply(c, s, Respond(i)))
  {
    hide Occ, Stages;
    var s' := Apply(c, s, Respond(i));
    var me := s.running[i].job.id;
    assert TaskIds(s'.running) == TaskIds(s.running);
    assert forall id :: Over(s', id) == Over(s, id);
    forall k | 0 <= k < |s.running| && k != i ensures s.running[k].job.id != me {
      TasksDiffer(s, i, k);
    }
    OccIn(TaskIds(s.running), me);
    assert TaskIds(s.running)[i] == me;
  }

  /** Two job threads never run the same job. */
  lemma TasksDiffer(s: State, i: nat, k: nat)
    requires IdsOk(s) && i < |s.running| && k < |s.running| && i != k
    ensures s.running[i].job.id != s.running[k].job.id
  {
    var id := s.running[i].job.id;
    var rest := DropAt(s.running, i);
    TaskIdsDropAt(s.running, i, id);
    assert Stages(s, id) <= 1;
    assert Occ(TaskIds(rest), id) == 0;
    OccIn(TaskIds(rest), id);
    var k' := if k < i then k else k - 1;
    assert TaskIds(rest)[k'] == s.running[k].job.id;
  }

  lemma ReleaseFlags(c: Config, s: State, i: nat)
    requires FlagsOk(s) && Enabled(c, s, Release(i))
    ensures FlagsOk(Apply(c, s, Release(i)))
  {
    hide Occ;
    var s' := Apply(c, s, Release(i));
    assert TaskIds(s'.running) == TaskIds(s.running);
    assert forall id :: Over(s', id) == Over(s, id);
  }

  lemma CompleteFlags(c: Config, s: State, i: nat)
    requires FlagsOk(s) && Enabled(c, s, Complete(i))
    ensures FlagsOk(Apply(c, s, Complete(i)))
  {
    hide Occ;
    var s', j := Apply(c, s, Complete(i)), s.running[i].job;
    forall id
      ensures Occ(TaskIds(s.running), id) == Occ(TaskIds(s'.running), id) + if id == j.id then 1 else 0
      ensures Occ(Ids(s'.finished), id) == Occ(Ids(s.finished), id) + if id == j.id then 1 else 0
    {
      TaskIdsDropAt(s.running, i, id);
      IdsFirst(s'.finished, id);
      assert s'.finished[1..] == s.finished;
    }
    assert forall id :: Over(s', id) <==> Over(s, id) || id == j.id;
    forall k | 0 <= k < |s'.running| ensures s'.running[k] in s.running {}
  }

  lemma TidyUpFlags(c: Config, s: State, i: nat)
    requires FlagsOk(s) && Enabled(c, s, TidyUp(i)) && Orderly(c, s, TidyUp(i))
    ensures FlagsOk(Apply(c, s, TidyUp(i)))
  {
    hide Occ;
    var s' := Apply(c, s, TidyUp(i));
    assert forall id :: Over(s', id) == Over(s, id);
    forall id | id in s'.leaving ensures id in s.leaving {}
  }

  lemma FinishFlags(c: Config, s: State)
    requires FlagsOk(s) && Enabled(c, s, Finish)
    ensures FlagsOk(Apply(c, s, Finish))
  {
    hide Occ;
    var s', j := Apply(c, s, Finish), s.finished[0];
    forall id
      ensures Occ(Ids(s.finished), id) == Occ(Ids(s'.finished), id) + if id == j.id then 1 else 0
      ensures Occ(Ids(s'.done), id) == Occ(Ids(s.done), id) + if id == j.id then 1 else 0
    {
      IdsFirst(s.finished, id);
      IdsLast(s.done, j, id);
    }
    assert forall id :: Over(s', id) == Over(s, id);
  }

  /** The scheduling thread's view survives what other threads do: queues only grow under it. */
  lemma PhaseOkGrows(c: Config, s: State, s': State)
    requires PhaseOk(c, s) && s'.phase == s.phase && s'.nextRid == s.nextRid
    requires if s.phase.Trying? then s'.ready == s.ready
             else forall id :: Occ(Ids(s.ready), id) <= Occ(Ids(s'.ready), id)
    requires |s.pool| <= |s'.pool| && forall r :: Occ(s.pool, r) <= Occ(s'.pool, r)
    requires forall r :: Places(s', r) == Places(s, r)
    ensures PhaseOk(c, s')
  {
    hide Occ, Places, ValidTrials, NoEmptyList, Named;
  }

  lemma OtherThreadsStep(c: Config, s: State, e: Event)
    requires PhaseOk(c, s) && Enabled(c, s, e) && Orderly(c, s, e)
    requires e.Issue? || e.Push? || e.Dispatch? || e.Respond? || e.Release? || e.Complete? || e.TidyUp? || e.Finish?
    ensures PhaseOk(c, Apply(c, s, e))
  {
    hide Occ, Places, Total, PhaseOk;
    var s' := Apply(c, s, e);
    forall r ensures Places(s', r) == Places(s, r) {
      ResourcesKept(c, s, e, r);
    }
    forall r ensures Occ(s.pool, r) <= Occ(s'.pool, r) {
      if e.Release? {
        OccConcat(s.pool, [s.running[e.i].held[0]], r);
      }
    }
    forall id ensures Occ(Ids(s.ready), id) <= Occ(Ids(s'.ready), id) {
      if e.Push? {
        IdsFirst(s'.ready, id);
        assert s'.ready[1..] == s.ready;
      }
    }
    PhaseOkGrows(c, s, s');
  }

  lemma TakeStep(c: Config, s: State, order: seq<Job>)
    requires PhaseOk(c, s) && Enabled(c, s, Take(order))
    ensures PhaseOk(c, Apply(c, s, Take(order)))
  {
    hide OrderFor, PlanFor, Resources, Reverse, Occ, ValidTrials, ValidTrial;
    var s', trials := Apply(c, s, Take(order)), s.phase.trials;
    var p := PolicyAt(|trials|);
    var t := Trial(order, s.pool, PlanFor(p, order, s.pool));
    PlanResources(p, order, s.pool);
    assert ValidTrial(p, Window(s.ready, c.window), t) by { ValidTrialMeans(p, Window(s.ready, c.window), t); }
    forall u | u in trials ensures |u.pool| <= |t.pool| {}
    ValidTrialsExtend(Window(s.ready, c.window), trials, t);
    forall r ensures Occ(s.pool, r) == Occ(s'.pool, r) + Occ(s'.phase.back, r) {
      OccGiveBack(s.pool, Resources(t.plan), r);
    }
    forall u, r | u in s'.phase.trials ensures Occ(u.pool, r) <= Occ(s'.pool, r) + Occ(s'.phase.back, r) {
      NoneOf(r);
    }
  }

  lemma ValidTrialMeans(p: Policy, window: seq<Job>, t: Trial)
    requires OrderFor(p, window, t.order) && t.plan == PlanFor(p, t.order, t.pool)
    ensures ValidTrial(p, window, t)
  {
  }

  lemma PutBackStep(c: Config, s: State)
    requires PhaseOk(c, s) && Enabled(c, s, PutBack)
    ensures PhaseOk(c, Apply(c, s, PutBack))
  {
    hide Occ, ValidTrials;
    var s', back := Apply(c, s, PutBack), s.phase.back;
    forall r ensures Occ(s'.pool, r) + Occ(s'.phase.back, r) == Occ(s.pool, r) + Occ(back, r) {
      OccCons(back, r);
      OccConcat(s.pool, [back[0]], r);
      OccOne(back[0], r);
    }
  }

  lemma ChooseStep(c: Config, s: State, k: nat)
    requires Inv(c, s) && Enabled(c, s, Choose(k))
    ensures PhaseOk(c, Apply(c, s, Choose(k)))
  {
    hide PlanFor, OrderFor, RidsOk, IdsOk, FlagsOk;
    var trials := s.phase.trials;
    var t, win := trials[k], Window(s.ready, c.window);
    if NoJobs(t.plan) > 0 {
      WindowFacts(c, s);
      WinnerHasNoEmptyList(|s.ready|, win, trials, k, c.m, c.M);
      assert t in trials;
      TrialIsPending(c, s, PolicyAt(k), t);
    }
  }

  lemma WindowFacts(c: Config, s: State)
    requires JobsOk(c, s)
    ensures Uniform(Window(s.ready, c.window), c.m, c.M) && Positive(Window(s.ready, c.window))
  {
    forall j | j in Window(s.ready, c.window) ensures j in s.ready {}
  }

  /** A plan made from the window and the pool names waiting jobs and free resources. */
  lemma TrialIsPending(c: Config, s: State, p: Policy, t: Trial)
    requires ValidTrial(p, Window(s.ready, c.window), t)
    requires forall r :: Occ(t.pool, r) <= Occ(s.pool, r) + Occ([], r)
    ensures Pending(s, t.plan, Resources(t.plan), [])
  {
    hide PlanFor, Reverse;
    forall id ensures Occ(PlanIds(t.plan), id) <= Occ(Ids(s.ready), id) {
      PlanIdsWait(p, s.ready, c.window, t, id);
    }
    PlanResources(p, t.order, t.pool);
    forall r ensures Occ(Resources(t.plan), r) <= Occ(s.pool, r) + Occ([], r) {
      OccGiveBack(t.pool, Resources(t.plan), r);
    }
  }

  lemma PlanIdsWait(p: Policy, ready: seq<Job>, w: nat, t: Trial, id: int)
    requires ValidTrial(p, Window(ready, w), t)
    ensures Occ(PlanIds(t.plan), id) <= Occ(Ids(ready), id)
  {
    hide PlanFor, Occ, OrderFor, Window;
    var win := Window(ready, w);
    OrderFacts(p, win, t.order);
    PlanPrefix(p, t.order, t.pool);
    PrefixOcc(PlanIds(t.plan), Ids(t.order), id);
    IdsPermute(t.order, win, id);
    WindowIsPrefix(ready, w);
    PrefixOcc(Ids(win), Ids(ready), id);
  }

  lemma WindowIsPrefix(ready: seq<Job>, w: nat)
    ensures Ids(Window(ready, w)) <= Ids(ready)
  {
  }

  lemma PrefixOcc<T>(a: seq<T>, b: seq<T>, x: T)
    requires |a| <= |b| && forall i :: 0 <= i < |a| ==> a[i] == b[i]
    ensures Occ(a, x) <= Occ(b, x)
  {
    assert b == a + b[|a|..];
    OccConcat(a, b[|a|..], x);
  }

  lemma {:induction false} IdsPermute(a: seq<Job>, b: seq<Job>, id: int)
    requires multiset(a) == multiset(b)
    ensures Occ(Ids(a), id) == Occ(Ids(b), id)
  {
    hide Occ;
    PermutationFacts(a, b);
    if a == [] {
      assert Ids(a) == Ids(b);
    } else {
      assert a[0] in b;
      var i :| 0 <= i < |b| && b[i] == a[0];
      DropBoth(a, b, i);
      IdsPermute(a[1..], DropAt(b, i), id);
      IdsFirst(a, id);
      IdsDropAt(b, i, id);
    }
  }

  lemma DropBoth<T>(a: seq<T>, b: seq<T>, i: nat)
    requires multiset(a) == multiset(b) && a != [] && i < |b| && b[i] == a[0]
    ensures multiset(a[1..]) == multiset(DropAt(b, i))
  {
    forall x ensures multiset(a[1..])[x] == multiset(DropAt(b, i))[x] {
      OccCons(a, x);
      OccDropAt(b, i, x);
      assert Occ(a, x) == Occ(b, x);
    }
  }

  lemma AdjustStep(c: Config, s: State)
    requires PhaseOk(c, s) && RidsOk(s) && Enabled(c, s, Adjust)
    ensures PhaseOk(c, Apply(c, s, Adjust))
  {
    hide Occ, Places, Total, Decide;
    var s', plan := Apply(c, s, Adjust), s.phase.plan;
    assert Named(plan, 0) == Resources(plan) by { assert plan[0].res[0..] == plan[0].res; }
    forall r ensures Occ(s.pool, r) <= Occ(s'.pool, r) + Occ(s'.phase.lost, r) {
      PoolAfterAdjust(c, s, r);
    }
    forall r | r in s'.phase.lost ensures Places(s', r) == 0 && 1 <= r < s'.nextRid {
      LostIsGone(c, s, r);
    }
    forall id ensures Occ(PlanIds(plan), id) <= Occ(Ids(s'.ready), id) {}
    forall r ensures Occ(Resources(plan), r) <= Occ(s'.pool, r) + Occ(s'.phase.lost, r) {
      NoneOf(r);
    }
  }

  lemma PoolAfterAdjust(c: Config, s: State, r: Rid)
    requires Enabled(c, s, Adjust)
    ensures var s' := Apply(c, s, Adjust); Occ(s.pool, r) <= Occ(s'.pool, r) + Occ(s'.phase.lost, r)
  {
    hide Occ, Decide;
    if Decide(s.phase.plan) == Provision {
      OccConcat(s.pool, [s.nextRid], r);
    } else if Shrinks(s) {
      var rest, last := s.pool[..|s.pool| - 1], s.pool[|s.pool| - 1];
      assert s.pool == rest + [last];
      OccConcat(rest, [last], r);
    }
  }

  lemma LostIsGone(c: Config, s: State, r: Rid)
    requires RidsOk(s) && Enabled(c, s, Adjust) && r in Apply(c, s, Adjust).phase.lost
    ensures Places(Apply(c, s, Adjust), r) == 0 && 1 <= r < Apply(c, s, Adjust).nextRid
  {
    hide Total, Decide, Occ;
    assert r in s.pool;
    OccIn(s.pool, r);
    AdjustKept(c, s, r);
  }

  lemma RemoveStep(c: Config, s: State)
    requires PhaseOk(c, s) && Enabled(c, s, Remove) && Orderly(c, s, Remove)
    requires s.phase.todo[0].job.id in Ids(s.ready)
    ensures PhaseOk(c, Apply(c, s, Remove))
  {
    hide Occ, Places, Total, Orderly;
    var s', todo := Apply(c, s, Remove), s.phase.todo;
    forall id ensures Occ(PlanIds(todo[1..]), id) <= Occ(Ids(s'.ready), id) {
      PlanIdsFirst(todo, id);
      IdsRemove(s.ready, todo[0].job.id, id);
    }
    forall r ensures Places(s', r) == Places(s, r) {
      ResourcesKept(c, s, Remove, r);
    }
  }

  lemma ClaimStep(c: Config, s: State)
    requires PhaseOk(c, s) && Enabled(c, s, ClaimOne) && Orderly(c, s, ClaimOne)
    ensures PhaseOk(c, Apply(c, s, ClaimOne))
  {
    hide Occ, Places, Total;
    var s', todo, k := Apply(c, s, ClaimOne), s.phase.todo, s.phase.taken;
    var named, x := Named(todo, k), todo[0].res[k];
    assert named[0] == x && named[1..] == Named(todo, k + 1);
    forall r ensures Occ(Named(todo, k + 1), r) <= Occ(s'.pool, r) + Occ(s.phase.lost, r) {
      OccCons(named, r);
      OccErase(s.pool, x, r);
    }
    forall r ensures Places(s', r) == Places(s, r) {
      ResourcesKept(c, s, ClaimOne, r);
    }
  }

  lemma EnqueueStep(c: Config, s: State)
    requires PhaseOk(c, s) && Enabled(c, s, Enqueue) && Orderly(c, s, Enqueue)
    ensures PhaseOk(c, Apply(c, s, Enqueue))
  {
    hide Occ, Places, Total, Orderly;
    var s', todo := Apply(c, s, Enqueue), s.phase.todo;
    if |todo| > 1 {
      var rest := todo[1..];
      assert Named(todo, s.phase.taken) == Resources(rest);
      assert Named(rest, 0) == Resources(rest) by { assert rest[0].res[0..] == rest[0].res; }
      forall p | p in rest ensures p in todo {}
      forall r ensures Places(s', r) == Places(s, r) {
        ResourcesKept(c, s, Enqueue, r);
      }
    }
  }

  lemma PhaseOkStep(c: Config, s: State, e: Event)
    requires Inv(c, s) && Enabled(c, s, e) && Orderly(c, s, e)
    requires e.Remove? ==> s.phase.todo[0].job.id in Ids(s.ready)
    ensures PhaseOk(c, Apply(c, s, e))
  {
    hide JobsOk, RidsOk, IdsOk, FlagsOk, IsWinner, OrderFor, PlanFor, Decide;
    match e
    case Begin => NoTrialsYet(c, s);
    case Take(order) => TakeStep(c, s, order);
    case PutBack => PutBackStep(c, s);
    case Choose(k) => ChooseStep(c, s, k);
    case Adjust => AdjustStep(c, s);
    case Remove => RemoveStep(c, s);
    case ClaimOne => ClaimStep(c, s);
    case Enqueue => EnqueueStep(c, s);
    case TakeNothing => assert false;
    case _ => OtherThreadsStep(c, s, e);
  }

  lemma NoTrialsYet(c: Config, s: State)
    requires s.ready != [] && s.pool != []
    ensures TrialsOk(c, s, [], [])
  {
  }

  /** Every step either claims a lost resource or keeps the invariant. */
  lemma InvStep(c: Config, s: State, e: Event)
    requires Inv(c, s) && Enabled(c, s, e) && !Apply(c, s, e).phase.Crashed?
    ensures Inv(c, Apply(c, s, e))
  {
    StepIsOrderly(c, s, e);
    PhaseOkStep(c, s, e);
    hide PhaseOk, JobsOk, RidsOk, IdsOk, FlagsOk, Orderly, Enabled, Apply;
    JobsOkStep(c, s, e);
    RidsOkStep(c, s, e);
    IdsOkStep(c, s, e);
    FlagsOkStep(c, s, e);
  }

  lemma StartOk(c: Config)
    requires c.Valid()
    ensures Inv(c, START)
  {
    hide Occ, Places, Stages, Total;
    forall r ensures Places(START, r) == if r == 1 then 1 else 0 {
      StartPlaces(r);
    }
    forall id
      ensures Stages(START, id) == 0 && !Over(START, id) && Occ(TaskIds(START.running), id) == 0
              && Occ(Ids(START.done), id) == 0
    {
      StartStages(id);
    }
    assert Total(START) == 1 by { StartPlaces(1); }
  }

  lemma StartPlaces(r: Rid)
    ensures Places(START, r) == (if r == 1 then 1 else 0) && Total(START) == 1
  {
    hide Occ;
    NoneOf(r);
    OccOne(1, r);
  }

  lemma StartStages(id: int)
    ensures Stages(START, id) == 0 && !Over(START, id) && Occ(TaskIds(START.running), id) == 0
            && Occ(Ids(START.done), id) == 0
  {
    hide Occ;
    NoneOf(id);
    assert Ids([]) == [] && PlanIds([]) == [] && TaskIds([]) == [];
  }

  lemma {:induction false} InvRun(c: Config, s: State, es: seq<Event>)
    requires Inv(c, s) && CanRun(c, s, es)
    ensures After(c, s, es).phase.Crashed? || Inv(c, After(c, s, es))
    decreases es
  {
    hide Inv, Enabled, Apply;
    if es != [] {
      var s' := Apply(c, s, es[0]);
      if s'.phase.Crashed? {
        CrashedStays(c, s', es[1..]);
      } else {
        InvStep(c, s, es[0]);
        InvRun(c, s', es[1..]);
      }
    }
  }

  lemma CrashedStays(c: Config, s: State, es: seq<Event>)
    requires s.phase.Crashed? && CanRun(c, s, es)
    ensures es == [] && After(c, s, es) == s
  {
  }

  /** The invariant holds in every reachable state, up to a claim of a lost resource. */
  lemma ReachableOk(c: Config, s: State)
    requires c.Valid() && Reachable(c, s)
    ensures s.phase.Crashed? || Inv(c, s)
  {
    hide Inv;
    var es :| CanRun(c, START, es) && After(c, START, es) == s;
    StartOk(c);
    InvRun(c, START, es);
  }
}
