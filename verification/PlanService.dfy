/**
 * A chosen plan under interference. Between the choice of a plan and the end of its service, jobs may
 * arrive, finish and give resources back, and the pool may grow or shrink. Still exactly the jobs of
 * the plan leave the ready queue, and the pool loses exactly the resources of the plan.
 */
module PlanService {
  import opened Sequences
  import opened Jobs
  import opened Policies
  import opened Winner
  import opened Service
  import opened Elasticity
  import opened Threads
  import opened Census
  import opened Invariants

  /** What job threads and the elasticity manager add to the pool, as occurrences of `r`. */
  ghost function Inflow(c: Config, s: State, es: seq<Event>, r: Rid): int
    requires CanRun(c, s, es)
    decreases es
  {
    if es == [] then 0 else InflowOf(s, es[0], r) + Inflow(c, Apply(c, s, es[0]), es[1..], r)
  }

  /** The jobs that are pushed to the ready queue, the latest first. */
  ghost function Arrived(c: Config, s: State, es: seq<Event>): seq<Job>
    requires CanRun(c, s, es)
    decreases es
  {
    if es == [] then [] else Arrived(c, Apply(c, s, es[0]), es[1..]) + Pushed(s, es[0])
  }

  /** The job an event pushes to the ready queue, if it does. */
  function Pushed(s: State, e: Event): seq<Job> {
    if e.Push? && e.i < |s.arriving| then [s.arriving[e.i]] else []
  }

  /** The jobs of the plan that have left the ready queue. */
  function Gone(served: Plan, phase: Phase): Plan {
    if phase.Serving? && phase.removed && phase.todo != [] then served + [phase.todo[0]] else served
  }

  /** The jobs of the plan that are still in the ready queue. */
  function Waiting(phase: Phase): Plan {
    match phase
    case Chosen(plan) => plan
    case Serving(todo, removed, _, _) => if removed && todo != [] then todo[1..] else todo
    case _ => []
  }

  /**
   * The service of `plan` has come as far as `served`: the ready queue is what it was when the plan
   * was chosen, less the jobs that are gone, behind the jobs in `front` that have arrived since.
   */
  ghost predicate Midway(plan: Plan, ready0: seq<Job>, s: State, served: Plan, front: seq<Job>) {
    && (match s.phase
        case Chosen(p) => p == plan && served == []
        case Serving(todo, _, _, _) => plan == served + todo
        case Idle => plan == served
        case _ => false)
    && var stay := RemoveAll(ready0, Gone(served, s.phase));
       && s.ready == front + stay
       && forall id :: Occ(PlanIds(Waiting(s.phase)), id) <= Occ(Ids(stay), id)
  }

  lemma {:induction false} RemoveAllSnoc(q: seq<Job>, a: Plan, p: Pair)
    ensures RemoveAll(q, a + [p]) == RemoveJob(RemoveAll(q, a), p.job.id)
    decreases a
  {
    if a == [] {
      assert a + [p] == [p];
      assert [p][1..] == [];
      assert RemoveAll(q, [p]) == RemoveAll(RemoveJob(q, p.job.id), []);
    } else {
      assert (a + [p])[1..] == a[1..] + [p];
      RemoveAllSnoc(RemoveJob(q, a[0].job.id), a[1..], p);
    }
  }

  lemma {:induction false} RemoveBehind(front: seq<Job>, q: seq<Job>, id: int)
    requires Occ(Ids(front), id) == 0
    ensures RemoveJob(front + q, id) == front + RemoveJob(q, id)
  {
    if front == [] {
      assert front + q == q;
    } else {
      IdsFirst(front, id);
      RemoveBehind(front[1..], q, id);
      assert front + q == [front[0]] + (front[1..] + q);
    }
  }

  lemma OccIdsConcat(a: seq<Job>, b: seq<Job>, id: int)
    ensures Occ(Ids(a + b), id) == Occ(Ids(a), id) + Occ(Ids(b), id)
  {
    assert Ids(a + b) == Ids(a) + Ids(b);
    OccConcat(Ids(a), Ids(b), id);
  }

  /** The service advances, or other threads do something else. */
  lemma MidwayStep(c: Config, s: State, e: Event, plan: Plan, ready0: seq<Job>, served: Plan, front: seq<Job>)
    returns (served': Plan, front': seq<Job>)
    requires Inv(c, s) && Enabled(c, s, e) && !e.Begin? && !Apply(c, s, e).phase.Crashed?
    requires Midway(plan, ready0, s, served, front)
    ensures Midway(plan, ready0, Apply(c, s, e), served', front')
    ensures served' == ServedAfter(s, e, served)
    ensures front' == Pushed(s, e) + front
  {
    hide Inv, Midway, Occ;
    served', front' := ServedAfter(s, e, served), Pushed(s, e) + front;
    NothingInFront(front);
    match e
    case Push(i) => PushMidway(c, s, i, plan, ready0, served, front);
    case Remove => RemoveMidway(c, s, plan, ready0, served, front);
    case Enqueue => EnqueueMidway(c, s, plan, ready0, served, front);
    case _ => SameMidway(c, s, e, plan, ready0, served, front);
  }

  lemma NothingInFront(front: seq<Job>)
    ensures [] + front == front
  {
  }

  lemma PushMidway(c: Config, s: State, i: nat, plan: Plan, ready0: seq<Job>, served: Plan, front: seq<Job>)
    requires Enabled(c, s, Push(i)) && Midway(plan, ready0, s, served, front)
    ensures Midway(plan, ready0, Apply(c, s, Push(i)), served, Pushed(s, Push(i)) + front)
  {
    hide RemoveAll, Occ;
    var stay := RemoveAll(ready0, Gone(served, s.phase));
    ConcatAssociative([s.arriving[i]], front, stay);
  }

  lemma SameMidway(c: Config, s: State, e: Event, plan: Plan, ready0: seq<Job>, served: Plan, front: seq<Job>)
    requires Enabled(c, s, e) && !e.Begin? && !Apply(c, s, e).phase.Crashed? && Midway(plan, ready0, s, served, front)
    requires !e.Push? && !e.Remove? && !e.Enqueue?
    ensures Midway(plan, ready0, Apply(c, s, e), served, front)
  {
    hide IsWinner, OrderFor, PlanFor, Decide, RemoveAll, RemoveEntry, Erase, Occ;
  }

  lemma RemoveMidway(c: Config, s: State, plan: Plan, ready0: seq<Job>, served: Plan, front: seq<Job>)
    requires Inv(c, s) && Enabled(c, s, Remove) && Midway(plan, ready0, s, served, front)
    ensures Midway(plan, ready0, Apply(c, s, Remove), served, front)
  {
    hide RemoveAll, RemoveJob, Occ, JobsOk, RidsOk, FlagsOk, PhaseOk;
    var s', todo := Apply(c, s, Remove), s.phase.todo;
    var x, stay := todo[0].job.id, RemoveAll(ready0, served);
    assert Gone(served, s.phase) == served;
    PlanIdsFirst(todo, x);
    assert Occ(Ids(stay), x) >= 1;
    OccIdsConcat(front, stay, x);
    assert Stages(s, x) <= 1;
    RemoveBehind(front, stay, x);
    RemoveAllSnoc(ready0, served, todo[0]);
    forall id ensures Occ(PlanIds(todo[1..]), id) <= Occ(Ids(RemoveJob(stay, x)), id) {
      PlanIdsFirst(todo, id);
      OccIn(Ids(stay), x);
      IdsRemove(stay, x, id);
    }
  }

  lemma EnqueueMidway(c: Config, s: State, plan: Plan, ready0: seq<Job>, served: Plan, front: seq<Job>)
    requires Enabled(c, s, Enqueue) && Midway(plan, ready0, s, served, front)
    ensures Midway(plan, ready0, Apply(c, s, Enqueue), served + [s.phase.todo[0]], front)
  {
    hide RemoveAll, RemoveJob, Occ;
    var s', todo := Apply(c, s, Enqueue), s.phase.todo;
    assert plan == served + [todo[0]] + todo[1..];
    assert Gone(served + [todo[0]], s'.phase) == Gone(served, s.phase);
    if |todo| == 1 {
      assert todo[1..] == [] && plan == served + [todo[0]];
    }
    assert Waiting(s'.phase) == Waiting(s.phase);
  }

  /** What one event adds to the pool from outside, as occurrences of `r`. */
  ghost function InflowOf(s: State, e: Event, r: Rid): int {
    if e.Release? && e.i < |s.running| && s.running[e.i].held != [] then
      (if s.running[e.i].held[0] == r then 1 else 0)
    else Change(s, e, r)
  }

  /** The pool together with what has been claimed, as occurrences of `r`. */
  function Stock(s: State, served: Plan, r: Rid): nat {
    Occ(s.pool, r) + Occ(Resources(served), r) + Occ(InHand(s.phase), r)
  }

  function ServedAfter(s: State, e: Event, served: Plan): Plan {
    if e.Enqueue? && s.phase.Serving? && s.phase.todo != [] then served + [s.phase.todo[0]] else served
  }

  /** The pool changes by what flows in and what is claimed, and by nothing else. */
  lemma PoolStep(c: Config, s: State, e: Event, served: Plan, r: Rid)
    requires Inv(c, s) && Enabled(c, s, e) && !Apply(c, s, e).phase.Crashed?
    requires s.phase.Chosen? || s.phase.Serving? || (s.phase.Idle? && !e.Begin?)
    ensures Stock(Apply(c, s, e), ServedAfter(s, e, served), r) == Stock(s, served, r) + InflowOf(s, e, r)
  {
    hide IsWinner, OrderFor, PlanFor, Decide, JobsOk, RidsOk, IdsOk, FlagsOk, Stock, Change;
    match e
    case Release(i) => ReleaseStock(c, s, i, served, r);
    case Adjust => AdjustStock(c, s, served, r);
    case ClaimOne => ClaimStock(c, s, served, r);
    case Enqueue => EnqueueStock(c, s, served, r);
    case _ => SameStock(c, s, e, served, r);
  }

  lemma ReleaseStock(c: Config, s: State, i: nat, served: Plan, r: Rid)
    requires Enabled(c, s, Release(i))
    ensures Stock(Apply(c, s, Release(i)), served, r) == Stock(s, served, r) + InflowOf(s, Release(i), r)
  {
    hide Occ;
    OccConcat(s.pool, [s.running[i].held[0]], r);
    OccOne(s.running[i].held[0], r);
  }

  lemma AdjustStock(c: Config, s: State, served: Plan, r: Rid)
    requires Enabled(c, s, Adjust)
    ensures Stock(Apply(c, s, Adjust), served, r) == Stock(s, served, r) + InflowOf(s, Adjust, r)
  {
    hide Occ, Decide;
    AdjustKept(c, s, r);
  }

  lemma ClaimStock(c: Config, s: State, served: Plan, r: Rid)
    requires Enabled(c, s, ClaimOne) && !Apply(c, s, ClaimOne).phase.Crashed?
    ensures Stock(Apply(c, s, ClaimOne), served, r) == Stock(s, served, r) + InflowOf(s, ClaimOne, r)
  {
    hide Occ;
    ClaimKept(c, s, r);
  }

  lemma EnqueueStock(c: Config, s: State, served: Plan, r: Rid)
    requires Enabled(c, s, Enqueue)
    ensures Stock(Apply(c, s, Enqueue), ServedAfter(s, Enqueue, served), r)
            == Stock(s, served, r) + InflowOf(s, Enqueue, r)
  {
    hide Occ;
    var p := s.phase.todo[0];
    ResourcesConcat(served, [p]);
    assert Resources([p]) == p.res + Resources([]) == p.res;
    assert p.res[..|p.res|] == p.res;
    OccConcat(Resources(served), p.res, r);
    NoneOf(r);
    assert InHand(s.phase) == p.res && InHand(Apply(c, s, Enqueue).phase) == [];
  }

  lemma SameStock(c: Config, s: State, e: Event, served: Plan, r: Rid)
    requires Enabled(c, s, e) && !e.Adjust? && !e.Release?
    requires Apply(c, s, e).pool == s.pool && InHand(Apply(c, s, e).phase) == InHand(s.phase) && !e.Enqueue?
    ensures Stock(Apply(c, s, e), ServedAfter(s, e, served), r) == Stock(s, served, r) + InflowOf(s, e, r)
  {
    hide Occ;
  }

  lemma {:induction false} MidwayRun(
    c: Config, s: State, es: seq<Event>, plan: Plan, ready0: seq<Job>, served: Plan, front: seq<Job>)
    returns (served': Plan)
    requires Inv(c, s) && CanRun(c, s, es) && Begin !in es && !After(c, s, es).phase.Crashed?
    requires Midway(plan, ready0, s, served, front)
    ensures Midway(plan, ready0, After(c, s, es), served', Arrived(c, s, es) + front)
    ensures forall r :: Stock(After(c, s, es), served', r) == Stock(s, served, r) + Inflow(c, s, es, r)
    decreases es
  {
    hide Inv, Enabled, Apply, Midway, Stock, Pushed, InflowOf;
    served' := served;
    if es == [] {
      assert Arrived(c, s, es) + front == front;
    } else {
      var e, s' := es[0], Apply(c, s, es[0]);
      if s'.phase.Crashed? {
        CrashedStays(c, s', es[1..]);
      } else {
        MidwayPhase(plan, ready0, s, served, front);
        var mid, front' := MidwayStep(c, s, e, plan, ready0, served, front);
        forall r ensures Stock(s', mid, r) == Stock(s, served, r) + InflowOf(s, e, r) {
          PoolStep(c, s, e, served, r);
        }
        InvStep(c, s, e);
        forall x | x in es[1..] ensures x in es {}
        served' := MidwayRun(c, s', es[1..], plan, ready0, mid, front');
        assert Arrived(c, s', es[1..]) + front' == Arrived(c, s, es) + front;
      }
    }
  }

  lemma MidwayPhase(plan: Plan, ready0: seq<Job>, s: State, served: Plan, front: seq<Job>)
    requires Midway(plan, ready0, s, served, front)
    ensures s.phase.Chosen? || s.phase.Serving? || s.phase.Idle?
  {
  }

  /** A job that was issued and is not arriving does not arrive later. */
  lemma {:induction false} ArrivalsAreOthers(c: Config, s: State, es: seq<Event>, id: int)
    requires CanRun(c, s, es) && id < s.nextJid && Occ(Ids(s.arriving), id) == 0
    ensures Occ(Ids(Arrived(c, s, es)), id) == 0
    decreases es
  {
    hide Occ, Enabled, Apply, Pushed;
    if es == [] {
      NoneOf(id);
      assert Ids([]) == [];
    } else {
      ArrivalStep(c, s, es[0], id);
      ArrivalsAreOthers(c, Apply(c, s, es[0]), es[1..], id);
      OccIdsConcat(Arrived(c, Apply(c, s, es[0]), es[1..]), Pushed(s, es[0]), id);
    }
  }

  lemma ArrivalStep(c: Config, s: State, e: Event, id: int)
    requires Enabled(c, s, e) && id < s.nextJid && Occ(Ids(s.arriving), id) == 0
    ensures var s' := Apply(c, s, e); id < s'.nextJid && Occ(Ids(s'.arriving), id) == 0
    ensures Occ(Ids(Pushed(s, e)), id) == 0
  {
    hide IsWinner, OrderFor, PlanFor, Decide, Occ;
    NoneOf(id);
    assert Ids([]) == [];
    if e.Push? {
      IdsDropAt(s.arriving, e.i, id);
      assert Ids(Pushed(s, e)) == [s.arriving[e.i].id];
      OccOne(s.arriving[e.i].id, id);
    } else if e.Issue? {
      IdsLast(s.arriving, Job(s.nextJid, c.m, c.M, e.priority, e.predicted, e.target), id);
    }
  }

  /** Removing the jobs of a plan leaves none of them behind, if none is there twice. */
  lemma {:induction false} RemoveAllLeavesNone(q: seq<Job>, plan: Plan, id: int)
    requires Occ(Ids(q), id) <= 1 && (Occ(Ids(q), id) == 0 || id in PlanIds(plan))
    ensures Occ(Ids(RemoveAll(q, plan)), id) == 0
    decreases plan
  {
    hide Occ, RemoveJob;
    if plan != [] {
      var x := plan[0].job.id;
      RemoveJobOcc(q, x, id);
      assert PlanIds(plan)[1..] == PlanIds(plan[1..]);
      RemoveAllLeavesNone(RemoveJob(q, x), plan[1..], id);
    }
  }

  lemma RemoveJobOcc(q: seq<Job>, x: int, id: int)
    ensures Occ(Ids(RemoveJob(q, x)), id)
            == if id == x && Occ(Ids(q), id) > 0 then Occ(Ids(q), id) - 1 else Occ(Ids(q), id)
  {
    RemoveJobIds(q, x);
  }

  /** A job that is not in the plan stays in the queue as often as it was there. */
  lemma {:induction false} RemoveAllKeepsOthers(q: seq<Job>, plan: Plan, id: int)
    requires id !in PlanIds(plan)
    ensures Occ(Ids(RemoveAll(q, plan)), id) == Occ(Ids(q), id)
    decreases plan
  {
    hide Occ, RemoveJob;
    if plan != [] {
      var x := plan[0].job.id;
      assert PlanIds(plan)[0] == x && PlanIds(plan)[1..] == PlanIds(plan[1..]);
      RemoveJobOcc(q, x, id);
      RemoveAllKeepsOthers(RemoveJob(q, x), plan[1..], id);
    }
  }

  /**
   * However the steps of the threads are interleaved, once the service of a chosen plan is over the
   * ready queue holds the jobs that arrived in the meantime, in front of what it held, less exactly the
   * jobs of the plan; and the pool holds what it held and what flowed in, less exactly the resources of
   * the plan.
   */
  lemma PlanIsServedExactly(c: Config, s: State, es: seq<Event>)
    requires Inv(c, s) && s.phase.Chosen? && CanRun(c, s, es) && Begin !in es
    requires After(c, s, es).phase.Idle?
    ensures After(c, s, es).ready == Arrived(c, s, es) + RemoveAll(s.ready, s.phase.plan)
    ensures forall id :: id in PlanIds(s.phase.plan) ==> id in Ids(s.ready) && id !in Ids(After(c, s, es).ready)
    ensures forall id :: id !in PlanIds(s.phase.plan) ==>
              Occ(Ids(After(c, s, es).ready), id) == Occ(Ids(Arrived(c, s, es)), id) + Occ(Ids(s.ready), id)
    ensures forall r ::
              Occ(After(c, s, es).pool, r) + Occ(Resources(s.phase.plan), r) == Occ(s.pool, r) + Inflow(c, s, es, r)
  {
    hide Enabled, Apply, Occ, Resources, JobsOk, RidsOk, IdsOk, FlagsOk, Arrived, RemoveAll, Stages;
    var plan, s' := s.phase.plan, After(c, s, es);
    RemoveNone(s.ready);
    assert Midway(plan, s.ready, s, [], []);
    var served := MidwayRun(c, s, es, plan, s.ready, [], []);
    var front, stay := Arrived(c, s, es), RemoveAll(s.ready, plan);
    assert front + [] == front;
    assert s'.ready == front + stay && served == plan;
    forall id | id in PlanIds(plan) ensures id in Ids(s.ready) && id !in Ids(s'.ready) {
      PlanIdLeaves(c, s, es, id);
      OccIdsConcat(front, stay, id);
      OccIn(Ids(s'.ready), id);
    }
    forall id | id !in PlanIds(plan) ensures Occ(Ids(s'.ready), id) == Occ(Ids(front), id) + Occ(Ids(s.ready), id) {
      RemoveAllKeepsOthers(s.ready, plan, id);
      OccIdsConcat(front, stay, id);
    }
    forall r ensures Occ(s'.pool, r) + Occ(Resources(plan), r) == Occ(s.pool, r) + Inflow(c, s, es, r) {
      NothingClaimed(s, r);
      NoneOf(r);
    }
  }

  /** A job of the plan is in the ready queue when the plan is chosen; it is removed, and it does not come back. */
  lemma PlanIdLeaves(c: Config, s: State, es: seq<Event>, id: int)
    requires Inv(c, s) && s.phase.Chosen? && CanRun(c, s, es) && id in PlanIds(s.phase.plan)
    ensures id in Ids(s.ready)
    ensures Occ(Ids(Arrived(c, s, es)), id) == 0 == Occ(Ids(RemoveAll(s.ready, s.phase.plan)), id)
  {
    hide Occ, JobsOk, RidsOk, FlagsOk, Arrived, RemoveAll;
    OccIn(PlanIds(s.phase.plan), id);
    assert Occ(PlanIds(s.phase.plan), id) <= Occ(Ids(s.ready), id);
    OccIn(Ids(s.ready), id);
    assert Stages(s, id) <= 1;
    ArrivalsAreOthers(c, s, es, id);
    RemoveAllLeavesNone(s.ready, s.phase.plan, id);
  }

  lemma RemoveNone(q: seq<Job>)
    ensures RemoveAll(q, []) == q
  {
  }

  lemma NothingClaimed(s: State, r: Rid)
    requires s.phase.Chosen?
    ensures Stock(s, [], r) == Occ(s.pool, r)
  {
    NoneOf(r);
  }
}
