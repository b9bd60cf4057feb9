/** Safety over whole runs of the threads. */
module Safety {
  import opened Sequences
  import opened Jobs
  import opened Policies
  import opened Winner
  import opened Service
  import opened Elasticity
  import opened Threads
  import opened Census
  import opened Invariants

  // ---------- one holder for each resource ----------

  /** Who may have a resource: the pool, the scheduling thread, a queued job or a job thread. */
  datatype Holder = Pool | Hand | Queued(i: nat) | Thread(i: nat)

  predicate Holds(s: State, h: Holder, r: Rid) {
    match h
    case Pool => r in s.pool
    case Hand => r in InHand(s.phase)
    case Queued(i) => i < |s.runQ| && r in s.runQ[i].res
    case Thread(i) => i < |s.running| && r in s.running[i].held
  }

  lemma {:induction false} QueuedOcc(q: Plan, i: nat, r: Rid)
    requires i < |q| && r in q[i].res
    ensures Occ(Resources(q), r) >= 1
    ensures forall k :: i < k < |q| && r in q[k].res ==> Occ(Resources(q), r) >= 2
  {
    hide Occ;
    OccConcat(q[0].res, Resources(q[1..]), r);
    if i > 0 {
      QueuedOcc(q[1..], i - 1, r);
      forall k | i < k < |q| && r in q[k].res ensures Occ(Resources(q), r) >= 2 {
        assert q[k] == q[1..][k - 1];
      }
    } else {
      OccIn(q[0].res, r);
      forall k | 0 < k < |q| && r in q[k].res ensures Occ(Resources(q), r) >= 2 {
        QueuedOcc(q[1..], k - 1, r);
      }
    }
  }

  lemma {:induction false} HeldOcc(tasks: seq<Task>, i: nat, r: Rid)
    requires i < |tasks| && r in tasks[i].held
    ensures Occ(HeldBy(tasks), r) >= 1
    ensures forall k :: i < k < |tasks| && r in tasks[k].held ==> Occ(HeldBy(tasks), r) >= 2
  {
    hide Occ;
    OccConcat(tasks[0].held, HeldBy(tasks[1..]), r);
    if i > 0 {
      HeldOcc(tasks[1..], i - 1, r);
      forall k | i < k < |tasks| && r in tasks[k].held ensures Occ(HeldBy(tasks), r) >= 2 {
        assert tasks[k] == tasks[1..][k - 1];
      }
    } else {
      OccIn(tasks[0].held, r);
      forall k | 0 < k < |tasks| && r in tasks[k].held ensures Occ(HeldBy(tasks), r) >= 2 {
        HeldOcc(tasks[1..], k - 1, r);
      }
    }
  }

  /** How much a holder contributes to the number of places. */
  lemma HolderCounts(s: State, h: Holder, r: Rid)
    requires Holds(s, h, r)
    ensures match h
      case Pool => Occ(s.pool, r) >= 1
      case Hand => Occ(InHand(s.phase), r) >= 1
      case Queued(_) => Occ(Resources(s.runQ), r) >= 1
      case Thread(_) => Occ(HeldBy(s.running), r) >= 1
  {
    hide Occ;
    match h
    case Pool => OccIn(s.pool, r);
    case Hand => OccIn(InHand(s.phase), r);
    case Queued(i) => QueuedOcc(s.runQ, i, r);
    case Thread(i) => HeldOcc(s.running, i, r);
  }

  /**
   * In every reachable state no resource has two holders, nor does a holder have it twice, and its id is
   * below the next one to be handed out.
   */
  lemma OneHolder(c: Config, s: State, g: Holder, h: Holder, r: Rid)
    requires c.Valid() && Reachable(c, s) && !s.phase.Crashed?
    requires Holds(s, g, r) && Holds(s, h, r)
    ensures g == h && Places(s, r) == 1 && 1 <= r < s.nextRid
  {
    hide Occ, JobsOk, IdsOk, FlagsOk, PhaseOk, Resources, HeldBy, InHand, Reachable;
    ReachableOk(c, s);
    assert Places(s, r) <= 1;
    HolderCounts(s, g, r);
    HolderCounts(s, h, r);
    if g.Queued? && h.Queued? {
      QueuedOcc(s.runQ, g.i, r);
      QueuedOcc(s.runQ, h.i, r);
    } else if g.Thread? && h.Thread? {
      HeldOcc(s.running, g.i, r);
      HeldOcc(s.running, h.i, r);
    }
  }

  /** All resources there are, in whatever place. */
  function Everywhere(s: State): seq<Rid> {
    s.pool + InHand(s.phase) + Resources(s.runQ) + HeldBy(s.running)
  }

  /**
   * In every reachable state all resources are different, their ids are those handed out so far, and their
   * number is the number of provisioned resources.
   */
  lemma ResourcesCounted(c: Config, s: State)
    requires c.Valid() && Reachable(c, s) && !s.phase.Crashed?
    ensures Distinct(Everywhere(s)) && forall r :: r in Everywhere(s) ==> 1 <= r < s.nextRid
    ensures s.provisioned == |Everywhere(s)|
  {
    hide Reachable, JobsOk, RidsOk, IdsOk, FlagsOk, PhaseOk, Distinct, Everywhere;
    ReachableOk(c, s);
    PlacesCounted(s);
  }

  lemma PlacesCounted(s: State)
    requires RidsOk(s)
    ensures Distinct(Everywhere(s)) && forall r :: r in Everywhere(s) ==> 1 <= r < s.nextRid
    ensures s.provisioned == |Everywhere(s)|
  {
    hide Occ, Distinct, Everywhere, Places, Total;
    EverywhereCounts(s, 0);
    forall r ensures multiset(Everywhere(s))[r] <= 1 {
      EverywhereCounts(s, r);
      OccIs(Everywhere(s), r);
    }
    OnceIsDistinct(Everywhere(s));
    forall r | r in Everywhere(s) ensures 1 <= r < s.nextRid {
      EverywhereCounts(s, r);
      OccIn(Everywhere(s), r);
    }
  }

  lemma EverywhereCounts(s: State, r: Rid)
    ensures Occ(Everywhere(s), r) == Places(s, r) && |Everywhere(s)| == Total(s)
  {
    hide Occ, InHand, Resources, HeldBy;
    OccConcat(s.pool, InHand(s.phase), r);
    OccConcat(s.pool + InHand(s.phase), Resources(s.runQ), r);
    OccConcat(s.pool + InHand(s.phase) + Resources(s.runQ), HeldBy(s.running), r);
  }

  // ---------- one stage for each job ----------

  /**
   * In every reachable state each id issued so far is in exactly one stage; the job at the head of
   * the run queue has not been started, so the dispatcher starts it; and the entry a finishing job
   * thread looks for in the run queue is not there.
   */
  lemma OneStage(c: Config, s: State, id: int)
    requires c.Valid() && Reachable(c, s) && !s.phase.Crashed?
    ensures Stages(s, id) == if 1 <= id < s.nextJid then 1 else 0
    ensures s.runQ != [] ==> s.runQ[0].job.id !in s.started && s.runQ[0].res != []
    ensures id in s.leaving ==> RemoveEntry(s.runQ, id) == s.runQ
  {
    hide Occ, Stages, JobsOk, RidsOk, PhaseOk, Over, Reachable, RemoveEntry;
    ReachableOk(c, s);
    if s.runQ != [] {
      PlanIdsFirst(s.runQ, s.runQ[0].job.id);
      QueuedNotStarted(s, s.runQ[0].job.id);
      assert s.runQ[0] in s.runQ;
    }
    if id in s.leaving {
      LeavingIsGone(c, s, id);
    }
  }

  /** A handler goes on only after its job's response has been set and its resources are returned. */
  lemma MarkedIsOver(c: Config, s: State, id: int)
    requires c.Valid() && Reachable(c, s) && !s.phase.Crashed? && id in s.marked
    ensures id in s.answered
    ensures forall i :: 0 <= i < |s.running| ==> s.running[i].job.id != id
    ensures forall i :: 0 <= i < |s.runQ| ==> s.runQ[i].job.id != id
    ensures id !in InService(s.phase)
  {
    ReachableOk(c, s);
    hide JobsOk, RidsOk, PhaseOk;
    assert Over(s, id) && Stages(s, id) <= 1;
    hide Occ;
    OccIn(TaskIds(s.running), id);
    OccIn(PlanIds(s.runQ), id);
    OccIn(InService(s.phase), id);
    forall i | 0 <= i < |s.running| ensures s.running[i].job.id != id {
      assert TaskIds(s.running)[i] in TaskIds(s.running);
    }
    forall i | 0 <= i < |s.runQ| ensures s.runQ[i].job.id != id {
      assert PlanIds(s.runQ)[i] in PlanIds(s.runQ);
    }
  }

  // ---------- when a round fails ----------

  /** The elasticity manager is about to pop a resource the chosen plan names. */
  ghost predicate Dooms(s: State, e: Event) {
    e.Adjust? && Shrinks(s) && s.pool != [] && s.pool[|s.pool| - 1] in Resources(s.phase.plan)
  }

  /** A resource still to be claimed is gone. */
  ghost predicate Doomed(s: State) {
    s.phase.Crashed? || (s.phase.Serving? && exists r :: r in s.phase.lost && r in Named(s.phase.todo, s.phase.taken))
  }

  /** Shrinking the pool never waits for a resource: the plan itself names some that are in the pool. */
  lemma ShrinkNeverBlocks(c: Config, s: State)
    requires Inv(c, s) && s.phase.Chosen?
    ensures s.pool != [] && Enabled(c, s, Adjust)
  {
    hide JobsOk, RidsOk, IdsOk, FlagsOk, Decide, Occ;
    var plan := s.phase.plan;
    assert plan[0] in plan;
    var r := plan[0].res[0];
    assert Resources(plan)[0] == r;
    OccIn(Resources(plan), r);
    NoneOf(r);
    OccIn(s.pool, r);
  }

  /** A round is spoiled when it is adjusted, and never mended; nothing else spoils it. */
  lemma DoomStep(c: Config, s: State, e: Event)
    requires Inv(c, s) && Enabled(c, s, e)
    ensures Doomed(Apply(c, s, e)) <==> Doomed(s) || Dooms(s, e)
  {
    hide IsWinner, OrderFor, PlanFor, Decide, JobsOk, RidsOk, IdsOk, FlagsOk, Pending, Named;
    CrashIsLoss(c, s, e);
    if e.Adjust? {
      NamedAtStart(s.phase.plan);
      if Dooms(s, e) {
        var x, s' := s.pool[|s.pool| - 1], Apply(c, s, e);
        assert x in s'.phase.lost && x in Named(s'.phase.todo, s'.phase.taken);
      }
    } else if s.phase.Serving? {
      if e.ClaimOne? {
        ClaimDoom(c, s);
      } else if e.Enqueue? {
        NamedAtEnd(s.phase.todo, s.phase.taken);
        if |s.phase.todo| > 1 {
          NamedAtStart(s.phase.todo[1..]);
        }
      }
    }
  }

  lemma NamedAtStart(plan: Plan)
    requires plan != []
    ensures Named(plan, 0) == Resources(plan)
  {
    assert plan[0].res[0..] == plan[0].res;
  }

  lemma NamedAtEnd(todo: Plan, taken: nat)
    requires todo != [] && taken == |todo[0].res|
    ensures Named(todo, taken) == Resources(todo[1..])
  {
  }

  lemma ClaimDoom(c: Config, s: State)
    requires Inv(c, s) && Enabled(c, s, ClaimOne)
    ensures Doomed(Apply(c, s, ClaimOne)) <==> Doomed(s)
  {
    hide JobsOk, RidsOk, IdsOk, FlagsOk, Decide, PhaseOk;
    ClaimFindsUnlessLost(c, s);
    var todo, k, lost := s.phase.todo, s.phase.taken, s.phase.lost;
    var x := todo[0].res[k];
    assert Named(todo, k)[0] == x && Named(todo, k)[1..] == Named(todo, k + 1);
    assert Named(todo, k) == [x] + Named(todo, k + 1);
  }

  /** Some event of the run spoils its round. */
  ghost predicate HasDoom(c: Config, s: State, es: seq<Event>)
    requires CanRun(c, s, es)
    decreases es
  {
    es != [] && (Dooms(s, es[0]) || HasDoom(c, Apply(c, s, es[0]), es[1..]))
  }

  lemma {:induction false} DoomRun(c: Config, s: State, es: seq<Event>)
    requires Inv(c, s) && CanRun(c, s, es)
    ensures Doomed(After(c, s, es)) <==> Doomed(s) || HasDoom(c, s, es)
    decreases es
  {
    hide Inv, Enabled, Apply, Doomed, Dooms;
    if es != [] {
      var s' := Apply(c, s, es[0]);
      DoomStep(c, s, es[0]);
      if s'.phase.Crashed? {
        CrashedStays(c, s', es[1..]);
        assert es[1..] == [];
      } else {
        InvStep(c, s, es[0]);
        DoomRun(c, s', es[1..]);
      }
    }
  }

  /**
   * A run ends in a failed claim, or in a round that cannot avoid one, exactly when the elasticity
   * manager popped a resource that the plan it had just looked at names.
   */
  lemma FailsExactlyWhenNamedIsPopped(c: Config, es: seq<Event>)
    requires c.Valid() && CanRun(c, START, es)
    ensures Doomed(After(c, START, es)) <==> HasDoom(c, START, es)
    ensures After(c, START, es).phase.Crashed? ==> HasDoom(c, START, es)
  {
    hide Inv;
    StartOk(c);
    DoomRun(c, START, es);
  }
}
