/**
 * The two layers agree: a turn of the scheduler's own loop, written with its methods and fields, is a
 * run of the scheduling thread in the state machine.
 */
module Refinement {
  import opened Sequences
  import opened Jobs
  import opened Policies
  import opened Winner
  import opened Service
  import opened Elasticity
  import opened Threads
  import opened Scheduling

  /** The scheduler's fields as a state in which only the scheduling thread has something to do. */
  ghost function View(f: Fields): State {
    START.(ready := f.ready, runQ := f.runQ, pool := f.pool, nextJid := f.nextJid, nextRid := f.nextRid,
           provisioned := f.provisioned)
  }

  // ---------- trials ----------

  lemma {:induction false} PutBackRun(c: Config, s: State, trials: seq<Trial>, back: seq<Rid>) returns (es: seq<Event>)
    requires s.phase == Trying(trials, back)
    ensures Leads(c, s, es, s.(pool := s.pool + back, phase := Trying(trials, [])))
    decreases back
  {
    hide Leads;
    var goal := s.(pool := s.pool + back, phase := Trying(trials, []));
    if back == [] {
      es := [];
      assert goal == s;
      LeadsNowhere(c, s);
    } else {
      var s' := s.(pool := s.pool + [back[0]], phase := Trying(trials, back[1..]));
      assert Apply(c, s, PutBack) == s';
      assert s'.pool + back[1..] == s.pool + back;
      es := PutBackRun(c, s', trials, back[1..]);
      LeadsFirst(c, s, PutBack, s', es, goal);
      es := [PutBack] + es;
    }
  }

  lemma TrialRun(c: Config, s: State, trials: seq<Trial>, t: Trial) returns (es: seq<Event>)
    requires s.phase == Trying(trials, []) && |trials| < 5 && s.pool == t.pool != []
    requires ValidTrial(PolicyAt(|trials|), Window(s.ready, c.window), t)
    ensures Leads(c, s, es, s.(pool := GivenBack(t), phase := Trying(trials + [t], [])))
  {
    hide Leads, PlanFor, OrderFor, Reverse;
    var p, taken := PolicyAt(|trials|), Resources(t.plan);
    PlanResources(p, t.order, t.pool);
    var s' := Apply(c, s, Take(t.order));
    assert s' == s.(pool := Remaining(t.plan, t.pool), phase := Trying(trials + [t], taken));
    es := PutBackRun(c, s', trials + [t], taken);
    LeadsFirst(c, s, Take(t.order), s', es, s.(pool := GivenBack(t), phase := Trying(trials + [t], [])));
    es := [Take(t.order)] + es;
  }

  lemma {:induction false} TrialsRun(c: Config, s: State, start: seq<Rid>, trials: seq<Trial>, n: nat, end: seq<Rid>)
    returns (es: seq<Event>)
    requires |trials| == 5 && n <= 5 && s.phase == Trying(trials[..n], [])
    requires ValidTrials(Window(s.ready, c.window), trials) && Chained(start, trials, end)
    requires forall t :: t in trials ==> t.pool != []
    requires s.pool == if n == 5 then end else trials[n].pool
    ensures Leads(c, s, es, s.(pool := end, phase := Trying(trials, [])))
    decreases 5 - n
  {
    hide Leads, GivenBack, ValidTrial;
    if n == 5 {
      assert trials[..5] == trials;
      es := [];
      LeadsNowhere(c, s);
    } else {
      var t := trials[n];
      assert trials[..n + 1] == trials[..n] + [t];
      es := TrialRun(c, s, trials[..n], t);
      var s' := s.(pool := GivenBack(t), phase := Trying(trials[..n + 1], []));
      var rest := TrialsRun(c, s', start, trials, n + 1, end);
      LeadsOn(c, s, es, s', rest, s.(pool := end, phase := Trying(trials, [])));
      es := es + rest;
    }
  }

  // ---------- service ----------

  /** The state after the first job of the plan has claimed everything. */
  ghost function FirstClaimed(s: State): State
    requires s.phase.Serving? && s.phase.todo != [] && s.phase.taken <= |s.phase.todo[0].res|
  {
    s.(pool := ClaimAll(s.pool, s.phase.todo[0].res[s.phase.taken..]).pool,
       phase := s.phase.(taken := |s.phase.todo[0].res|))
  }

  lemma {:induction false} ClaimRun(c: Config, s: State) returns (es: seq<Event>, s': State)
    requires s.phase.Serving? && s.phase.todo != [] && s.phase.removed && s.phase.taken <= |s.phase.todo[0].res|
    ensures Leads(c, s, es, s')
    ensures if ClaimAll(s.pool, s.phase.todo[0].res[s.phase.taken..]).Claimed? then s' == FirstClaimed(s)
            else s'.phase.Crashed?
    decreases |s.phase.todo[0].res| - s.phase.taken
  {
    hide Leads;
    var list, k := s.phase.todo[0].res, s.phase.taken;
    if k == |list| {
      es, s' := [], s;
      LeadsNowhere(c, s);
    } else {
      var next := Apply(c, s, ClaimOne);
      assert list[k..][0] == list[k] && list[k..][1..] == list[k + 1..];
      if list[k] in s.pool {
        es, s' := ClaimRun(c, next);
        LeadsFirst(c, s, ClaimOne, next, es, s');
        es := [ClaimOne] + es;
      } else {
        es, s' := [ClaimOne] + [], next;
        LeadsNowhere(c, next);
        LeadsFirst(c, s, ClaimOne, next, [], next);
      }
    }
  }

  /** The state after a whole plan has been served. */
  ghost function PlanServed(s: State): State
    requires s.phase.Serving?
  {
    s.(ready := RemoveAll(s.ready, s.phase.todo), pool := ClaimAll(s.pool, Resources(s.phase.todo)).pool,
       runQ := Reverse(s.phase.todo) + s.runQ, phase := Idle)
  }

  lemma {:induction false} ServeRun(c: Config, s: State) returns (es: seq<Event>, s': State)
    requires s.phase.Serving? && s.phase.todo != [] && !s.phase.removed && s.phase.taken == 0
    ensures Leads(c, s, es, s')
    ensures if ClaimAll(s.pool, Resources(s.phase.todo)).Claimed? then s' == PlanServed(s) else s'.phase.Crashed?
    decreases |s.phase.todo|
  {
    hide Leads, ClaimAll, RemoveJob, Reverse;
    var todo := s.phase.todo;
    var p := todo[0];
    var s1 := Apply(c, s, Remove);
    assert p.res[0..] == p.res;
    var claims, s2 := ClaimRun(c, s1);
    LeadsFirst(c, s, Remove, s1, claims, s2);
    es, s' := [Remove] + claims, s2;
    ClaimSplit(s.pool, p.res, Resources(todo[1..]));
    if ClaimAll(s.pool, p.res).Claimed? {
      var s3 := Apply(c, s2, Enqueue);
      var rest, end := [], s3;
      if |todo| == 1 {
        LeadsNowhere(c, s3);
        ClaimNothing(s3.pool);
        assert todo == [p] && todo[1..] == [] && Resources(todo[1..]) == [];
        ReverseOne(p);
        assert RemoveAll(s.ready, todo) == s3.ready;
        assert end == PlanServed(s);
      } else {
        rest, end := ServeRun(c, s3);
        ReverseCons(todo, s.runQ);
      }
      LeadsFirst(c, s2, Enqueue, s3, rest, end);
      LeadsOn(c, s, es, s2, [Enqueue] + rest, end);
      es, s' := es + ([Enqueue] + rest), end;
    }
  }

  lemma ReverseOne(p: Pair)
    ensures Reverse([p]) == [p]
  {
  }

  lemma ReverseCons(todo: Plan, q: Plan)
    requires todo != []
    ensures Reverse(todo) + q == Reverse(todo[1..]) + ([todo[0]] + q)
  {
  }

  // ---------- a whole round ----------

  /** A fresh scheduler is in the state the machine starts in. */
  method FreshIsStart() returns (s: Scheduler)
    ensures fresh(s) && View(s.Now()) == START && s.window == 5
  {
    s := new Scheduler();
  }

  /** From the choice of the winner to the end of the round. */
  lemma ChosenRun(c: Config, s: State, trials: seq<Trial>, k: nat) returns (es: seq<Event>, s': State)
    requires s.phase == Trying(trials, []) && |trials| == 5 && s.provisioned > 0 && s.pool != []
    requires (forall t :: t in trials ==> Positive(JobsOf(t.plan))) && IsWinner(|s.ready|, trials, k)
    requires NoJobs(trials[k].plan) > 0 && NoEmptyList(trials[k].plan)
    ensures Leads(c, s, es, s')
    ensures var plan := trials[k].plan;
            var grown := AdjustPool(Decide(plan), s.pool, s.nextRid);
            if ClaimAll(grown, Resources(plan)).Claimed?
            then s' == s.(ready := RemoveAll(s.ready, plan), runQ := Reverse(plan) + s.runQ,
                          pool := ClaimAll(grown, Resources(plan)).pool,
                          nextRid := s.nextRid + (if Decide(plan) == Provision then 1 else 0),
                          provisioned := s.provisioned + Growth(Decide(plan)), phase := Idle)
            else s'.phase.Crashed?
  {
    hide Leads, IsWinner, ClaimAll, Reverse, RemoveAll, Decide, Resources;
    WinnerBelow(|s.ready|, trials, k);
    var plan := trials[k].plan;
    var s1 := s.(phase := Chosen(plan));
    assert Apply(c, s, Choose(k)) == s1;
    var s2 := Apply(c, s1, Adjust);
    assert s2.pool == AdjustPool(Decide(plan), s.pool, s.nextRid);
    es, s' := ServeRun(c, s2);
    LeadsFirst(c, s1, Adjust, s2, es, s');
    LeadsFirst(c, s, Choose(k), s1, [Adjust] + es, s');
    es := [Choose(k)] + ([Adjust] + es);
  }

  /**
   * A turn of the scheduler's loop, as recorded in `r`, is a run of the scheduling thread: to the same
   * state, or to the failed claim if the round fails.
   */
  method RoundIsARun(s: Scheduler, ghost c: Config) returns (ok: bool, ghost r: Round, ghost es: seq<Event>)
    requires c.Valid() && s.Ready(c.m, c.M) && s.window == c.window && s.readyQ != [] && s.resPool != []
    requires Distinct(s.resPool) && s.provisionedResources > 0
    modifies s
    ensures RoundOf(old(s.Now()), r, ok, s.Now())
    ensures CanRun(c, View(old(s.Now())), es)
    ensures if ok then After(c, View(old(s.Now())), es) == View(s.Now())
            else After(c, View(old(s.Now())), es).phase.Crashed?
  {
    hide RoundOf, CanRun, After, Leads;
    ghost var before := s.Now();
    ok, r := s.SchedRound(c.m, c.M);
    ghost var goal;
    es, goal := RoundRun(c, before, r, ok, s.Now());
    LeadsMeans(c, View(before), es, goal);
  }

  /** Every undisturbed round is a run of the scheduling thread. */
  lemma RoundRun(c: Config, before: Fields, r: Round, ok: bool, after: Fields) returns (es: seq<Event>, s': State)
    requires RoundOf(before, r, ok, after) && NoEmptyList(r.plan) && c.window == before.window
    requires before.ready != [] && before.pool != [] && before.provisioned > 0
    ensures Leads(c, View(before), es, s')
    ensures if ok then s' == View(after) else s'.phase.Crashed?
  {
    hide Leads, IsWinner, ClaimAll, Reverse, RemoveAll, Decide, Resources, ValidTrials, JobsOf, Positive, GivenBack,
         Chained;
    var s := View(before);
    var s0 := s.(phase := Trying([], []));
    assert Apply(c, s, Begin) == s0;
    NeverEmpty(s.pool, r.trials, r.pool, Window(s.ready, c.window));
    FirstPool(s.pool, r.trials, r.pool);
    var tries := TrialsRun(c, s0, s.pool, r.trials, 0, r.pool);
    var s1 := s0.(pool := r.pool, phase := Trying(r.trials, []));
    var last;
    WinnerBelow(|s.ready|, r.trials, r.k);
    if NoJobs(r.trials[r.k].plan) > 0 {
      last, s' := ChosenRun(c, s1, r.trials, r.k);
      SomethingPlanned(r.trials[r.k].plan);
    } else {
      s' := s.(pool := r.pool);
      assert Apply(c, s1, Choose(r.k)) == s';
      LeadsNowhere(c, s');
      LeadsFirst(c, s1, Choose(r.k), s', [], s');
      last := [Choose(r.k)] + [];
    }
    LeadsOn(c, s0, tries, s1, last, s');
    LeadsFirst(c, s, Begin, s0, tries + last, s');
    es := [Begin] + (tries + last);
  }

  lemma FirstPool(start: seq<Rid>, trials: seq<Trial>, end: seq<Rid>)
    requires trials != [] && Chained(start, trials, end)
    ensures trials[0].pool == start
  {
  }

  lemma SomethingPlanned(plan: Plan)
    requires NoJobs(plan) > 0
    ensures plan != []
  {
  }

  /** Undone trials leave a pool that is not empty. */
  lemma NeverEmpty(start: seq<Rid>, trials: seq<Trial>, end: seq<Rid>, window: seq<Job>)
    requires start != [] && ValidTrials(window, trials) && Chained(start, trials, end)
    ensures (forall t :: t in trials ==> t.pool != []) && end != []
  {
    if trials != [] {
      var last := |trials| - 1;
      SameLength(start, trials, end, window, last);
      PlanResources(PolicyAt(last), trials[last].order, trials[last].pool);
    }
    forall t | t in trials ensures t.pool != [] {
      var i :| 0 <= i < |trials| && trials[i] == t;
      SameLength(start, trials, end, window, i);
    }
  }
}
