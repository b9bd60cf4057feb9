/** Moving a chosen plan into service: jobs leave the ready queue, resources leave the pool. */
module Service {
  import opened Sequences
  import opened Jobs

  /** Drops the first job with the given id, if there is one. */
  function RemoveJob(q: seq<Job>, id: int): seq<Job> {
    if q == [] then [] else if q[0].id == id then q[1..] else [q[0]] + RemoveJob(q[1..], id)
  }

  /** Drops the first entry for the job with the given id, if there is one. */
  function RemoveEntry(q: Plan, id: int): Plan {
    if q == [] then [] else if q[0].job.id == id then q[1..] else [q[0]] + RemoveEntry(q[1..], id)
  }

  /** Drops every job of a plan. */
  function RemoveAll(q: seq<Job>, plan: Plan): seq<Job>
    decreases plan
  {
    if plan == [] then q else RemoveAll(RemoveJob(q, plan[0].job.id), plan[1..])
  }

  datatype Claim = Claimed(pool: seq<Rid>) | Lost(pool: seq<Rid>, missing: Rid)

  /**
   * Claiming resources by id, one after another. Erasing an id that is not in the pool is undefined
   * in the original, so the claim stops there.
   */
  function ClaimAll(pool: seq<Rid>, list: seq<Rid>): Claim
    decreases list
  {
    if list == [] then Claimed(pool)
    else if list[0] !in pool then Lost(pool, list[0])
    else ClaimAll(Erase(pool, list[0]), list[1..])
  }

  /** A claim succeeds exactly when the pool has everything on the list, and then takes just that. */
  lemma {:induction false} ClaimTakesList(pool: seq<Rid>, list: seq<Rid>)
    ensures ClaimAll(pool, list).Claimed? <==> multiset(list) <= multiset(pool)
    ensures ClaimAll(pool, list).Claimed? ==> multiset(ClaimAll(pool, list).pool) == multiset(pool) - multiset(list)
    decreases list
  {
    if list != [] {
      var x := list[0];
      MultisetCons(list);
      EraseMultiset(pool, x);
      if x in pool {
        var rest := Erase(pool, x);
        ClaimTakesList(rest, list[1..]);
        assert multiset(pool) == multiset(rest) + multiset{x};
        MultisetCancel(multiset(list[1..]), multiset(rest), x);
        MultisetCancel(multiset(rest), multiset(list[1..]), x);
      } else {
        assert multiset(list)[x] > 0 == multiset(pool)[x];
      }
    }
  }

  lemma ClaimNothing(pool: seq<Rid>)
    ensures ClaimAll(pool, []) == Claimed(pool)
  {
  }

  /** A claim that fails on a first list fails on any list that starts with it. */
  lemma {:induction false} ClaimSplit(pool: seq<Rid>, a: seq<Rid>, b: seq<Rid>)
    decreases a
    ensures ClaimAll(pool, a).Claimed? ==> ClaimAll(pool, a + b) == ClaimAll(ClaimAll(pool, a).pool, b)
    ensures ClaimAll(pool, a).Lost? ==> ClaimAll(pool, a + b) == ClaimAll(pool, a)
  {
    if a == [] {
      assert a + b == b;
    } else {
      assert (a + b)[0] == a[0] && (a + b)[1..] == a[1..] + b;
      if a[0] in pool {
        ClaimSplit(Erase(pool, a[0]), a[1..], b);
      }
    }
  }

  lemma IdsCons(q: seq<Job>)
    requires q != []
    ensures Ids(q) == [q[0].id] + Ids(q[1..])
    ensures multiset(Ids(q)) == multiset{q[0].id} + multiset(Ids(q[1..]))
  {
  }

  lemma {:induction false} RemoveJobIds(q: seq<Job>, id: int)
    ensures multiset(Ids(RemoveJob(q, id))) == multiset(Ids(q)) - multiset{id}
  {
    if q != [] {
      IdsCons(q);
      if q[0].id != id {
        RemoveJobIds(q[1..], id);
        IdsCons(RemoveJob(q, id));
        assert RemoveJob(q, id)[1..] == RemoveJob(q[1..], id);
      }
    }
  }

  lemma RemoveElsewhere(q: seq<Job>, id: int)
    requires q != [] && q[0].id != id
    ensures RemoveJob(q, id) == [q[0]] + RemoveJob(q[1..], id)
  {
  }

  /** The first job with the id is taken out and everything else stays in its place. */
  lemma {:induction false} RemoveJobSplits(a: seq<Job>, j: Job, b: seq<Job>)
    requires j.id !in Ids(a)
    ensures RemoveJob(a + [j] + b, j.id) == a + b
    ensures RemoveJob(a, j.id) == a
  {
    if a == [] {
      assert a + [j] + b == [j] + b && a + b == b;
      assert ([j] + b)[1..] == b;
    } else {
      assert Ids(a)[0] == a[0].id && Ids(a)[1..] == Ids(a[1..]);
      RemoveJobSplits(a[1..], j, b);
      FirstStays(a, [j], b);
      hide RemoveJob;
      RemoveElsewhere(a + [j] + b, j.id);
      RemoveElsewhere(a, j.id);
      FirstAndRest(a);
    }
  }

  /** So it is for entries of the run queue. */
  lemma {:induction false} RemoveEntrySplits(a: Plan, p: Pair, b: Plan)
    requires p.job.id !in Ids(JobsOf(a))
    ensures RemoveEntry(a + [p] + b, p.job.id) == a + b
    ensures RemoveEntry(a, p.job.id) == a
  {
    if a == [] {
      assert a + [p] + b == [p] + b && a + b == b;
    } else {
      assert Ids(JobsOf(a))[0] == a[0].job.id && Ids(JobsOf(a))[1..] == Ids(JobsOf(a[1..]));
      RemoveEntrySplits(a[1..], p, b);
      FirstStays(a, [p], b);
      FirstAndRest(a);
    }
  }

  /** The jobs that are not in a plan, in their order. */
  function NotIn(q: seq<Job>, plan: Plan): seq<Job> {
    if q == [] then []
    else (if q[0].id in Ids(JobsOf(plan)) then [] else [q[0]]) + NotIn(q[1..], plan)
  }

  /** From a queue of different jobs the removal of a plan leaves the others, in their order. */
  lemma {:induction false} RemoveAllKeepsOrder(q: seq<Job>, plan: Plan)
    requires Distinct(Ids(q))
    ensures RemoveAll(q, plan) == NotIn(q, plan)
    decreases plan
  {
    if plan == [] {
      NothingToRemove(q);
    } else {
      var id := plan[0].job.id;
      RemoveThenRest(q, plan);
      RemoveStaysDistinct(q, id);
      RemoveAllKeepsOrder(RemoveJob(q, id), plan[1..]);
    }
  }

  lemma {:induction false} NothingToRemove(q: seq<Job>)
    ensures NotIn(q, []) == q
  {
    if q != [] {
      NothingToRemove(q[1..]);
      FirstAndRest(q);
    }
  }

  lemma {:induction false} RemoveStaysDistinct(q: seq<Job>, id: int)
    requires Distinct(Ids(q))
    ensures Distinct(Ids(RemoveJob(q, id)))
  {
    RemoveJobIds(q, id);
    DistinctMultiset(Ids(q));
    OnceIsDistinct(Ids(RemoveJob(q, id)));
  }

  lemma {:induction false} RemoveThenRest(q: seq<Job>, plan: Plan)
    requires plan != [] && Distinct(Ids(q))
    ensures NotIn(q, plan) == NotIn(RemoveJob(q, plan[0].job.id), plan[1..])
  {
    hide Distinct;
    var id := plan[0].job.id;
    InPlan(plan);
    if q != [] {
      DistinctRest(q);
      if q[0].id == id {
        OthersAlike(q[1..], plan);
      } else {
        RemoveThenRest(q[1..], plan);
        var rest := RemoveJob(q[1..], id);
        assert RemoveJob(q, id) == [q[0]] + rest;
        assert ([q[0]] + rest)[1..] == rest;
      }
    }
  }

  lemma InPlan(plan: Plan)
    requires plan != []
    ensures forall x :: x in Ids(JobsOf(plan)) <==> x == plan[0].job.id || x in Ids(JobsOf(plan[1..]))
  {
    var ids := Ids(JobsOf(plan));
    assert ids[0] == plan[0].job.id && ids[1..] == Ids(JobsOf(plan[1..]));
    FirstAndRest(ids);
  }

  lemma DistinctRest(q: seq<Job>)
    requires q != [] && Distinct(Ids(q))
    ensures Distinct(Ids(q[1..])) && q[0].id !in Ids(q[1..])
  {
    assert Ids(q[1..]) == Ids(q)[1..];
  }

  lemma {:induction false} OthersAlike(q: seq<Job>, plan: Plan)
    requires plan != [] && plan[0].job.id !in Ids(q)
    ensures NotIn(q, plan) == NotIn(q, plan[1..])
  {
    if q != [] {
      InPlan(plan);
      assert Ids(q)[0] == q[0].id && Ids(q)[1..] == Ids(q[1..]);
      OthersAlike(q[1..], plan);
    }
  }

  /** The resources that are not on a list, in their order. */
  function Unlisted(pool: seq<Rid>, list: seq<Rid>): seq<Rid> {
    if pool == [] then [] else (if pool[0] in list then [] else [pool[0]]) + Unlisted(pool[1..], list)
  }

  /** A successful claim on a pool of different resources leaves the others, in their order. */
  lemma {:induction false} ClaimKeepsOrder(pool: seq<Rid>, list: seq<Rid>)
    requires Distinct(pool) && ClaimAll(pool, list).Claimed?
    ensures ClaimAll(pool, list).pool == Unlisted(pool, list)
    decreases list
  {
    if list == [] {
      AllUnlisted(pool);
    } else {
      var x := list[0];
      EraseThenRest(pool, list);
      EraseMultiset(pool, x);
      DistinctMultiset(pool);
      OnceIsDistinct(Erase(pool, x));
      ClaimKeepsOrder(Erase(pool, x), list[1..]);
    }
  }

  lemma {:induction false} AllUnlisted(pool: seq<Rid>)
    ensures Unlisted(pool, []) == pool
  {
    if pool != [] {
      AllUnlisted(pool[1..]);
      FirstAndRest(pool);
    }
  }

  lemma {:induction false} EraseThenRest(pool: seq<Rid>, list: seq<Rid>)
    requires list != [] && Distinct(pool)
    ensures Unlisted(pool, list) == Unlisted(Erase(pool, list[0]), list[1..])
  {
    FirstAndRest(list);
    if pool != [] {
      assert pool[0] !in pool[1..];
      if pool[0] == list[0] {
        OthersUnlisted(pool[1..], list);
      } else {
        EraseThenRest(pool[1..], list);
        var rest := Erase(pool[1..], list[0]);
        assert ([pool[0]] + rest)[1..] == rest;
      }
    }
  }

  lemma {:induction false} OthersUnlisted(pool: seq<Rid>, list: seq<Rid>)
    requires list != [] && list[0] !in pool
    ensures Unlisted(pool, list) == Unlisted(pool, list[1..])
  {
    if pool != [] {
      FirstAndRest(list);
      OthersUnlisted(pool[1..], list);
    }
  }

  lemma {:induction false} RemoveJobKeeps(q: seq<Job>, id: int)
    ensures forall j :: j in RemoveJob(q, id) ==> j in q
  {
    if q != [] && q[0].id != id {
      RemoveJobKeeps(q[1..], id);
    }
  }
}
