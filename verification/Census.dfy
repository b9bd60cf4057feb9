/**
 * Where every resource and every job is. Two counts tell in how many places a resource or a job is
 * found; no step of any thread changes them, but for provisioning and issuing.
 */
module Census {
  import opened Sequences
  import opened Jobs
  import opened Policies
  import opened Winner
  import opened Service
  import opened Elasticity
  import opened Threads

  /** How often `x` occurs. */
  function Occ<T(==)>(s: seq<T>, x: T): nat {
    multiset(s)[x]
  }

  lemma OccIs<T>(s: seq<T>, x: T)
    ensures Occ(s, x) == multiset(s)[x]
  {
  }

  lemma OccConcat<T>(a: seq<T>, b: seq<T>, x: T)
    ensures Occ(a + b, x) == Occ(a, x) + Occ(b, x)
  {
  }

  lemma OccOne<T>(y: T, x: T)
    ensures Occ([y], x) == if x == y then 1 else 0
  {
  }

  lemma OccCons<T>(s: seq<T>, x: T)
    requires s != []
    ensures Occ(s, x) == (if x == s[0] then 1 else 0) + Occ(s[1..], x)
  {
    assert s == [s[0]] + s[1..];
    OccConcat([s[0]], s[1..], x);
  }

  lemma OccDropAt<T>(s: seq<T>, i: nat, x: T)
    requires i < |s|
    ensures Occ(s, x) == (if x == s[i] then 1 else 0) + Occ(DropAt(s, i), x)
  {
    assert s == s[..i] + ([s[i]] + s[i + 1..]);
    OccConcat(s[..i], [s[i]] + s[i + 1..], x);
    OccConcat([s[i]], s[i + 1..], x);
    OccConcat(s[..i], s[i + 1..], x);
  }

  lemma OccErase<T>(s: seq<T>, y: T, x: T)
    requires y in s
    ensures Occ(s, x) == (if x == y then 1 else 0) + Occ(Erase(s, y), x)
    ensures |s| == 1 + |Erase(s, y)|
  {
    EraseMultiset(s, y);
    assert multiset(s)[y] > 0;
  }

  lemma OccIn<T>(s: seq<T>, x: T)
    ensures x in s <==> Occ(s, x) > 0
  {
  }

  // ---------- resources ----------

  function HeldBy(tasks: seq<Task>): seq<Rid> {
    if tasks == [] then [] else tasks[0].held + HeldBy(tasks[1..])
  }

  /** Resources the scheduling thread has in hand: out of the pool, but not with a job yet. */
  function InHand(phase: Phase): seq<Rid> {
    match phase
    case Trying(_, back) => back
    case Serving(todo, true, taken, _) => if todo != [] && taken <= |todo[0].res| then todo[0].res[..taken] else []
    case _ => []
  }

  /** In how many places a resource is: the pool, in hand, the run queue or with a job thread. */
  function Places(s: State, r: Rid): nat {
    Occ(s.pool, r) + Occ(InHand(s.phase), r) + Occ(Resources(s.runQ), r) + Occ(HeldBy(s.running), r)
  }

  /** How many resources there are in all places. */
  function Total(s: State): nat {
    |s.pool| + |InHand(s.phase)| + |Resources(s.runQ)| + |HeldBy(s.running)|
  }

  lemma {:induction false} HeldDropAt(tasks: seq<Task>, i: nat, r: Rid)
    requires i < |tasks|
    ensures Occ(HeldBy(tasks), r) == Occ(tasks[i].held, r) + Occ(HeldBy(DropAt(tasks, i)), r)
    ensures |HeldBy(tasks)| == |tasks[i].held| + |HeldBy(DropAt(tasks, i))|
  {
    hide Occ;
    OccConcat(tasks[0].held, HeldBy(tasks[1..]), r);
    if i == 0 {
      assert DropAt(tasks, 0) == tasks[1..];
    } else {
      HeldDropAt(tasks[1..], i - 1, r);
      var rest := DropAt(tasks, i);
      assert rest[1..] == DropAt(tasks[1..], i - 1);
      OccConcat(rest[0].held, HeldBy(rest[1..]), r);
    }
  }

  lemma HeldUpdate(tasks: seq<Task>, i: nat, t: Task, r: Rid)
    requires i < |tasks|
    ensures Occ(HeldBy(tasks[i := t]), r) + Occ(tasks[i].held, r) == Occ(t.held, r) + Occ(HeldBy(tasks), r)
    ensures |HeldBy(tasks[i := t])| + |tasks[i].held| == |t.held| + |HeldBy(tasks)|
  {
    HeldDropAt(tasks, i, r);
    HeldDropAt(tasks[i := t], i, r);
    assert DropAt(tasks[i := t], i) == DropAt(tasks, i);
  }

  lemma {:induction false} HeldAppend(tasks: seq<Task>, t: Task)
    ensures HeldBy(tasks + [t]) == HeldBy(tasks) + t.held
  {
    if tasks == [] {
      assert HeldBy([t]) == t.held + HeldBy([]);
      assert tasks + [t] == [t];
    } else {
      HeldAppend(tasks[1..], t);
      assert (tasks + [t])[1..] == tasks[1..] + [t];
    }
  }

  /** What a step adds to the resources: -1, 0 or 1 occurrences of `r`. */
  ghost function Change(s: State, e: Event, r: Rid): int {
    if !e.Adjust? || !s.phase.Chosen? then 0
    else if Decide(s.phase.plan) == Provision then (if r == s.nextRid then 1 else 0)
    else if Shrinks(s) && s.pool != [] then (if r == s.pool[|s.pool| - 1] then -1 else 0)
    else 0
  }

  ghost predicate Kept(c: Config, s: State, e: Event, r: Rid)
    requires Enabled(c, s, e)
  {
    var s' := Apply(c, s, e);
    Places(s', r) == Places(s, r) + Change(s, e, r) && Total(s') - s'.provisioned == Total(s) - s.provisioned
  }

  /** What a step needs so as not to lose track of a resource. */
  ghost predicate Orderly(c: Config, s: State, e: Event)
    requires Enabled(c, s, e)
  {
    && !Apply(c, s, e).phase.Crashed?
    && (e.Dispatch? ==> s.runQ[0].job.id !in s.started)
    && (e.TidyUp? ==> RemoveEntry(s.runQ, s.leaving[e.i]) == s.runQ)
    && (s.phase.Serving? ==>
          s.phase.todo != [] && s.phase.taken <= |s.phase.todo[0].res| && (s.phase.removed || s.phase.taken == 0))
  }

  /**
   * No step creates, duplicates or drops a resource, except that the elasticity manager adds one with
   * a new id or removes one, and keeps count.
   */
  lemma ResourcesKept(c: Config, s: State, e: Event, r: Rid)
    requires Enabled(c, s, e) && Orderly(c, s, e)
    ensures Kept(c, s, e, r)
  {
    hide Places, Total, PlanFor, Decide, IsWinner, OrderFor, Kept;
    match e
    case Take(order) => TakeKept(c, s, order, r);
    case PutBack => PutBackKept(c, s, r);
    case Adjust => AdjustKept(c, s, r);
    case ClaimOne => ClaimKept(c, s, r);
    case Enqueue => EnqueueKept(c, s, r);
    case Dispatch => DispatchKept(c, s, r);
    case Respond(i) => RespondKept(c, s, i, r);
    case Release(i) => ReleaseKept(c, s, i, r);
    case Complete(i) => CompleteKept(c, s, i, r);
    case _ => SamePlaces(c, s, e, r);
  }

  lemma SamePlaces(c: Config, s: State, e: Event, r: Rid)
    requires Enabled(c, s, e) && !e.Adjust?
    requires var s' := Apply(c, s, e);
             && s'.pool == s.pool && s'.runQ == s.runQ && s'.running == s.running && s'.provisioned == s.provisioned
             && InHand(s.phase) == InHand(s'.phase)
    ensures Kept(c, s, e, r)
  {
  }

  lemma TakeKept(c: Config, s: State, order: seq<Job>, r: Rid)
    requires Enabled(c, s, Take(order))
    ensures Kept(c, s, Take(order), r)
  {
    hide OrderFor, PlanFor, Resources, Reverse, Occ;
    var p := PolicyAt(|s.phase.trials|);
    PlanResources(p, order, s.pool);
    OccGiveBack(s.pool, Resources(PlanFor(p, order, s.pool)), r);
    NoneOf(r);
  }

  lemma OccGiveBack(pool: seq<Rid>, taken: seq<Rid>, r: Rid)
    requires taken <= Reverse(pool)
    ensures Occ(pool[..|pool| - |taken|], r) + Occ(taken, r) == Occ(pool, r)
  {
    GiveBack(pool, taken);
    hide Reverse;
  }

  lemma PutBackKept(c: Config, s: State, r: Rid)
    requires Enabled(c, s, PutBack)
    ensures Kept(c, s, PutBack, r)
  {
    OccCons(s.phase.back, r);
    OccConcat(s.pool, [s.phase.back[0]], r);
    OccOne(s.phase.back[0], r);
  }

  lemma AdjustKept(c: Config, s: State, r: Rid)
    requires Enabled(c, s, Adjust)
    ensures Kept(c, s, Adjust, r)
  {
    hide Decide, Occ;
    if Decide(s.phase.plan) == Provision {
      OccConcat(s.pool, [s.nextRid], r);
      OccOne(s.nextRid, r);
    } else if Shrinks(s) {
      var rest, last := s.pool[..|s.pool| - 1], s.pool[|s.pool| - 1];
      assert s.pool == rest + [last];
      OccConcat(rest, [last], r);
      OccOne(last, r);
    }
  }

  lemma ClaimKept(c: Config, s: State, r: Rid)
    requires Enabled(c, s, ClaimOne) && !Apply(c, s, ClaimOne).phase.Crashed?
    ensures Kept(c, s, ClaimOne, r)
  {
    hide Occ;
    var list, k := s.phase.todo[0].res, s.phase.taken;
    OccErase(s.pool, list[k], r);
    assert list[..k + 1] == list[..k] + [list[k]];
    OccConcat(list[..k], [list[k]], r);
    OccOne(list[k], r);
  }

  lemma EnqueueKept(c: Config, s: State, r: Rid)
    requires Enabled(c, s, Enqueue)
    ensures Kept(c, s, Enqueue, r)
  {
    hide Occ;
    var p := s.phase.todo[0];
    assert p.res[..|p.res|] == p.res;
    assert ([p] + s.runQ)[1..] == s.runQ;
    assert Resources([p] + s.runQ) == p.res + Resources(s.runQ);
    OccConcat(p.res, Resources(s.runQ), r);
    NoneOf(r);
  }

  lemma NoneOf(r: Rid)
    ensures Occ([], r) == 0
  {
  }

  lemma DispatchKept(c: Config, s: State, r: Rid)
    requires Enabled(c, s, Dispatch) && !Apply(c, s, Dispatch).phase.Crashed? && s.runQ[0].job.id !in s.started
    ensures Kept(c, s, Dispatch, r)
  {
    hide Occ;
    var p := s.runQ[0];
    HeldAppend(s.running, Task(p.job, p.res, false));
    OccConcat(p.res, Resources(s.runQ[1..]), r);
    OccConcat(HeldBy(s.running), p.res, r);
  }

  lemma RespondKept(c: Config, s: State, i: nat, r: Rid)
    requires Enabled(c, s, Respond(i))
    ensures Kept(c, s, Respond(i), r)
  {
    HeldUpdate(s.running, i, s.running[i].(answered := true), r);
  }

  lemma ReleaseKept(c: Config, s: State, i: nat, r: Rid)
    requires Enabled(c, s, Release(i))
    ensures Kept(c, s, Release(i), r)
  {
    hide Occ, HeldBy;
    var t := s.running[i];
    HeldUpdate(s.running, i, t.(held := t.held[1..]), r);
    OccCons(t.held, r);
    OccConcat(s.pool, [t.held[0]], r);
    OccOne(t.held[0], r);
  }

  lemma CompleteKept(c: Config, s: State, i: nat, r: Rid)
    requires Enabled(c, s, Complete(i))
    ensures Kept(c, s, Complete(i), r)
  {
    HeldDropAt(s.running, i, r);
  }

  // ---------- jobs ----------

  function TaskIds(tasks: seq<Task>): (ids: seq<int>)
    ensures |ids| == |tasks|
    ensures forall i :: 0 <= i < |tasks| ==> ids[i] == tasks[i].job.id
  {
    seq(|tasks|, i requires 0 <= i < |tasks| => tasks[i].job.id)
  }

  function PlanIds(plan: Plan): (ids: seq<int>)
    ensures |ids| == |plan|
    ensures forall i :: 0 <= i < |plan| ==> ids[i] == plan[i].job.id
  {
    seq(|plan|, i requires 0 <= i < |plan| => plan[i].job.id)
  }

  /** The job being served: out of the ready queue, but not in the run queue yet. */
  function InService(phase: Phase): seq<int> {
    if phase.Serving? && phase.removed && phase.todo != [] then [phase.todo[0].job.id] else []
  }

  /** In how many stages of its life a job is. */
  function Stages(s: State, id: int): nat {
    Occ(Ids(s.arriving), id) + Occ(Ids(s.ready), id) + Occ(InService(s.phase), id) + Occ(PlanIds(s.runQ), id)
    + Occ(TaskIds(s.running), id) + Occ(Ids(s.finished), id) + Occ(Ids(s.done), id)
  }

  lemma IdsDropAt(q: seq<Job>, i: nat, id: int)
    requires i < |q|
    ensures Occ(Ids(q), id) == (if id == q[i].id then 1 else 0) + Occ(Ids(DropAt(q, i)), id)
  {
    OccDropAt(Ids(q), i, id);
    assert DropAt(Ids(q), i) == Ids(DropAt(q, i));
  }

  lemma TaskIdsDropAt(tasks: seq<Task>, i: nat, id: int)
    requires i < |tasks|
    ensures Occ(TaskIds(tasks), id) == (if id == tasks[i].job.id then 1 else 0) + Occ(TaskIds(DropAt(tasks, i)), id)
  {
    OccDropAt(TaskIds(tasks), i, id);
    assert DropAt(TaskIds(tasks), i) == TaskIds(DropAt(tasks, i));
  }

  lemma PlanIdsFirst(plan: Plan, id: int)
    requires plan != []
    ensures Occ(PlanIds(plan), id) == (if id == plan[0].job.id then 1 else 0) + Occ(PlanIds(plan[1..]), id)
  {
    OccCons(PlanIds(plan), id);
    assert PlanIds(plan)[1..] == PlanIds(plan[1..]);
  }

  lemma IdsFirst(q: seq<Job>, id: int)
    requires q != []
    ensures Occ(Ids(q), id) == (if id == q[0].id then 1 else 0) + Occ(Ids(q[1..]), id)
  {
    OccCons(Ids(q), id);
    assert Ids(q)[1..] == Ids(q[1..]);
  }

  lemma IdsLast(q: seq<Job>, j: Job, id: int)
    ensures Occ(Ids(q + [j]), id) == Occ(Ids(q), id) + if id == j.id then 1 else 0
  {
    assert Ids(q + [j]) == Ids(q) + [j.id];
    OccConcat(Ids(q), [j.id], id);
    OccOne(j.id, id);
  }

  lemma IdsRemove(q: seq<Job>, y: int, id: int)
    requires y in Ids(q)
    ensures Occ(Ids(q), id) == (if id == y then 1 else 0) + Occ(Ids(RemoveJob(q, y)), id)
  {
    RemoveJobIds(q, y);
    OccIn(Ids(q), y);
  }

  /** No step moves a job to two stages or to none; issuing adds one with a new id. */
  ghost predicate Staged(c: Config, s: State, e: Event, id: int)
    requires Enabled(c, s, e)
  {
    Stages(Apply(c, s, e), id) == Stages(s, id) + if e.Issue? && id == s.nextJid then 1 else 0
  }

  lemma JobsKept(c: Config, s: State, e: Event, id: int)
    requires Enabled(c, s, e) && Orderly(c, s, e)
    requires e.Remove? ==> s.phase.todo[0].job.id in Ids(s.ready)
    ensures Staged(c, s, e, id)
  {
    hide Stages, PlanFor, Decide, IsWinner, OrderFor, Staged;
    match e
    case Issue(priority, predicted, target) => IssueStaged(c, s, e, id);
    case Push(i) => PushStaged(c, s, i, id);
    case Remove => RemoveStaged(c, s, id);
    case Enqueue => EnqueueStaged(c, s, id);
    case Dispatch => DispatchStaged(c, s, id);
    case Respond(i) => assert TaskIds(Apply(c, s, e).running) == TaskIds(s.running); SameStages(c, s, e, id);
    case Release(i) => assert TaskIds(Apply(c, s, e).running) == TaskIds(s.running); SameStages(c, s, e, id);
    case Complete(i) => CompleteStaged(c, s, i, id);
    case Finish => FinishStaged(c, s, id);
    case _ => SameStages(c, s, e, id);
  }

  lemma SameStages(c: Config, s: State, e: Event, id: int)
    requires Enabled(c, s, e) && !e.Issue?
    requires var s' := Apply(c, s, e);
             && s'.arriving == s.arriving && s'.ready == s.ready && s'.runQ == s.runQ
             && TaskIds(s'.running) == TaskIds(s.running) && s'.finished == s.finished && s'.done == s.done
             && InService(s'.phase) == InService(s.phase)
    ensures Staged(c, s, e, id)
  {
    hide Occ;
  }

  lemma IssueStaged(c: Config, s: State, e: Event, id: int)
    requires Enabled(c, s, e) && e.Issue?
    ensures Staged(c, s, e, id)
  {
    hide Occ;
    IdsLast(s.arriving, Job(s.nextJid, c.m, c.M, e.priority, e.predicted, e.target), id);
  }

  lemma PushStaged(c: Config, s: State, i: nat, id: int)
    requires Enabled(c, s, Push(i))
    ensures Staged(c, s, Push(i), id)
  {
    hide Occ;
    IdsDropAt(s.arriving, i, id);
    var q := [s.arriving[i]] + s.ready;
    IdsFirst(q, id);
    assert q[1..] == s.ready;
  }

  lemma RemoveStaged(c: Config, s: State, id: int)
    requires Enabled(c, s, Remove) && s.phase.todo[0].job.id in Ids(s.ready)
    ensures Staged(c, s, Remove, id)
  {
    hide Occ;
    IdsRemove(s.ready, s.phase.todo[0].job.id, id);
    OccOne(s.phase.todo[0].job.id, id);
    NoneOf(id);
  }

  lemma EnqueueStaged(c: Config, s: State, id: int)
    requires Enabled(c, s, Enqueue)
    ensures Staged(c, s, Enqueue, id)
  {
    hide Occ;
    var q := [s.phase.todo[0]] + s.runQ;
    PlanIdsFirst(q, id);
    assert q[1..] == s.runQ;
    OccOne(s.phase.todo[0].job.id, id);
    NoneOf(id);
  }

  lemma DispatchStaged(c: Config, s: State, id: int)
    requires Enabled(c, s, Dispatch) && !Apply(c, s, Dispatch).phase.Crashed? && s.runQ[0].job.id !in s.started
    ensures Staged(c, s, Dispatch, id)
  {
    hide Occ;
    PlanIdsFirst(s.runQ, id);
    var t := Task(s.runQ[0].job, s.runQ[0].res, false);
    assert TaskIds(s.running + [t]) == TaskIds(s.running) + [t.job.id];
    OccConcat(TaskIds(s.running), [t.job.id], id);
    OccOne(t.job.id, id);
  }

  lemma CompleteStaged(c: Config, s: State, i: nat, id: int)
    requires Enabled(c, s, Complete(i))
    ensures Staged(c, s, Complete(i), id)
  {
    hide Occ;
    TaskIdsDropAt(s.running, i, id);
    var q := [s.running[i].job] + s.finished;
    IdsFirst(q, id);
    assert q[1..] == s.finished;
  }

  lemma FinishStaged(c: Config, s: State, id: int)
    requires Enabled(c, s, Finish)
    ensures Staged(c, s, Finish, id)
  {
    hide Occ;
    IdsFirst(s.finished, id);
    IdsLast(s.done, s.finished[0], id);
  }
}
