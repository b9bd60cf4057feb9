/**
 * The sorted window of SJTF and Priority, and the picks they make from it: the smallest minimum
 * from a window sorted by time, and the greatest priority from a window sorted by priority.
 */
module Sorting {
  import opened Sequences
  import opened Jobs
  import opened Policies

  predicate Sorts(p: Policy) {
    p.Sjtf? || p.Priority?
  }

  /** The order the window is sorted in before any job is picked. */
  predicate LessEq(p: Policy, a: Job, b: Job)
    requires a.min > 0 && b.min > 0
  {
    if p.Sjtf? then MinCost(a) <= MinCost(b) else a.priority <= b.priority
  }

  /** Picks go to the job with the least key. */
  function Key(p: Policy, j: Job): int {
    if p.Sjtf? then j.min else -j.priority
  }

  ghost predicate AllUse(jobs: seq<Job>) {
    forall j :: j in jobs ==> j.min > 0
  }

  ghost predicate SortedBy(p: Policy, s: seq<Job>)
    requires AllUse(s)
  {
    forall i, k :: 0 <= i < k < |s| ==> LessEq(p, s[i], s[k])
  }

  function Insert(p: Policy, j: Job, s: seq<Job>): seq<Job>
    requires j.min > 0 && AllUse(s)
  {
    if s == [] then [j]
    else
      assert s[0] in s && AllUse(s[1..]) by { AllUseTail(s); }
      if LessEq(p, j, s[0]) then [j] + s else [s[0]] + Insert(p, j, s[1..])
  }

  lemma AllUseTail(s: seq<Job>)
    requires s != [] && AllUse(s)
    ensures s[0].min > 0 && AllUse(s[1..])
  {
    assert s[0] in s;
    forall j | j in s[1..] ensures j in s {}
  }

  lemma {:induction false} InsertPermutes(p: Policy, j: Job, s: seq<Job>)
    requires j.min > 0 && AllUse(s)
    ensures multiset(Insert(p, j, s)) == multiset(s) + multiset{j}
    ensures forall x :: x in Insert(p, j, s) ==> x == j || x in s
  {
    if s != [] {
      AllUseTail(s);
      MultisetCons(s);
      InsertPermutes(p, j, s[1..]);
    }
  }

  lemma {:induction false} InsertSorts(p: Policy, j: Job, s: seq<Job>)
    requires j.min > 0 && AllUse(s) && SortedBy(p, s)
    ensures AllUse(Insert(p, j, s)) && SortedBy(p, Insert(p, j, s))
  {
    if s != [] {
      AllUseTail(s);
      if LessEq(p, j, s[0]) {
        SortedCons(p, j, s);
      } else {
        InsertSorts(p, j, s[1..]);
        InsertPermutes(p, j, s[1..]);
        SortedCons(p, s[0], Insert(p, j, s[1..]));
      }
    }
  }

  lemma SortedCons(p: Policy, j: Job, rest: seq<Job>)
    requires j.min > 0 && AllUse(rest) && SortedBy(p, rest)
    requires forall k :: k in rest ==> LessEq(p, j, k)
    ensures AllUse([j] + rest) && SortedBy(p, [j] + rest)
  {
    var s := [j] + rest;
    assert AllUse(s);
    forall i, k | 0 <= i < k < |s| ensures LessEq(p, s[i], s[k]) {
      assert s[k] == rest[k - 1] && rest[k - 1] in rest;
    }
  }

  /** Some way of sorting; nothing but its contract is used. */
  function Sorted(p: Policy, jobs: seq<Job>): (r: seq<Job>)
    requires AllUse(jobs)
    ensures multiset(r) == multiset(jobs) && AllUse(r) && SortedBy(p, r)
  {
    if jobs == [] then []
    else
      AllUseTail(jobs);
      MultisetCons(jobs);
      var t := Sorted(p, jobs[1..]);
      InsertPermutes(p, jobs[0], t);
      InsertSorts(p, jobs[0], t);
      Insert(p, jobs[0], t)
  }

  /** The position of the first job with the least key. */
  function FirstBest(p: Policy, live: seq<Job>): (k: nat)
    requires live != []
    ensures k < |live|
    ensures forall i :: 0 <= i < |live| ==> Key(p, live[k]) <= Key(p, live[i])
    ensures forall i :: 0 <= i < k ==> Key(p, live[k]) < Key(p, live[i])
  {
    if |live| == 1 then 0
    else
      var front := live[..|live| - 1];
      var k := FirstBest(p, front);
      assert live[k] == front[k] && forall i :: 0 <= i < |front| ==> front[i] == live[i];
      if Key(p, live[|live| - 1]) < Key(p, live[k]) then |live| - 1 else k
  }

  function Without(live: seq<Job>, k: nat): seq<Job>
    requires k < |live|
  {
    live[..k] + live[k + 1..]
  }

  /** The order in which jobs are picked if every job gets its turn. */
  function Picks(p: Policy, live: seq<Job>): (order: seq<Job>)
    ensures |order| == |live|
    decreases |live|
  {
    if live == [] then []
    else
      var k := FirstBest(p, live);
      [live[k]] + Picks(p, Without(live, k))
  }

  lemma WithoutFacts(p: Policy, live: seq<Job>, k: nat)
    requires k < |live| && AllUse(live)
    ensures multiset(live) == multiset{live[k]} + multiset(Without(live, k))
    ensures AllUse(Without(live, k))
    ensures SortedBy(p, live) ==> SortedBy(p, Without(live, k))
    ensures forall j :: j in Without(live, k) ==> exists i :: 0 <= i < |live| && i != k && live[i] == j
  {
    assert live == live[..k] + [live[k]] + live[k + 1..];
    forall j | j in Without(live, k) ensures exists i :: 0 <= i < |live| && i != k && live[i] == j {
      var i :| 0 <= i < |live| - 1 && Without(live, k)[i] == j;
      assert live[if i < k then i else i + 1] == j;
    }
  }

  lemma {:induction false} PicksPermute(p: Policy, live: seq<Job>)
    requires AllUse(live)
    ensures multiset(Picks(p, live)) == multiset(live)
    decreases |live|
  {
    if live != [] {
      var k := FirstBest(p, live);
      WithoutFacts(p, live, k);
      PicksPermute(p, Without(live, k));
    }
  }

  /** Whether `a` may be picked before `b`. */
  predicate Precedes(p: Policy, a: Job, b: Job)
    requires a.min > 0 && b.min > 0
  {
    Key(p, a) < Key(p, b) || (Key(p, a) == Key(p, b) && (p.Sjtf? ==> MinCost(a) <= MinCost(b)))
  }

  lemma FirstPrecedes(p: Policy, live: seq<Job>, j: Job)
    requires Sorts(p) && live != [] && AllUse(live) && SortedBy(p, live)
    requires j in Without(live, FirstBest(p, live))
    ensures j in live && Precedes(p, live[FirstBest(p, live)], j)
  {
    var k := FirstBest(p, live);
    WithoutFacts(p, live, k);
    var i :| 0 <= i < |live| && i != k && live[i] == j;
    if Key(p, j) == Key(p, live[k]) {
      assert k < i;
      assert LessEq(p, live[k], live[i]);
    }
  }

  ghost predicate InOrder(p: Policy, order: seq<Job>)
    requires AllUse(order)
  {
    forall i, k :: 0 <= i < k < |order| ==> Precedes(p, order[i], order[k])
  }

  lemma {:induction false} PicksInOrder(p: Policy, live: seq<Job>)
    requires Sorts(p) && AllUse(live) && SortedBy(p, live)
    ensures AllUse(Picks(p, live)) && InOrder(p, Picks(p, live))
    decreases |live|
  {
    if live != [] {
      var k := FirstBest(p, live);
      var rest := Without(live, k);
      WithoutFacts(p, live, k);
      PicksInOrder(p, rest);
      PicksPermute(p, rest);
      PermutationFacts(Picks(p, rest), rest);
      assert live[k] in live;
      forall j | j in Picks(p, rest) ensures j.min > 0 && Precedes(p, live[k], j) {
        FirstPrecedes(p, live, j);
      }
      InOrderCons(p, live[k], Picks(p, rest));
    }
  }

  lemma InOrderCons(p: Policy, j: Job, rest: seq<Job>)
    requires j.min > 0 && AllUse(rest) && InOrder(p, rest)
    requires forall k :: k in rest ==> Precedes(p, j, k)
    ensures AllUse([j] + rest) && InOrder(p, [j] + rest)
  {
    var order := [j] + rest;
    assert AllUse(order);
    forall i, k | 0 <= i < k < |order| ensures Precedes(p, order[i], order[k]) {
      assert order[k] == rest[k - 1] && rest[k - 1] in rest;
    }
  }

  /** Picking from the sorted window meets the jobs in an order the policy promises. */
  lemma PicksAreAnOrder(p: Policy, window: seq<Job>, sorted: seq<Job>)
    requires Sorts(p) && AllUse(sorted) && SortedBy(p, sorted) && multiset(sorted) == multiset(window)
    ensures OrderFor(p, window, Picks(p, sorted))
  {
    PicksPermute(p, sorted);
    PicksInOrder(p, sorted);
    var order := Picks(p, sorted);
    assert InOrder(p, order);
    assert forall i, k :: 0 <= i < k < |order| ==> Precedes(p, order[i], order[k]);
  }

  /** Every policy has an order to meet the window in. */
  lemma OrderExists(p: Policy, window: seq<Job>) returns (order: seq<Job>)
    requires AllUse(window)
    ensures OrderFor(p, window, order)
  {
    if Sorts(p) {
      var sorted := Sorted(p, window);
      PicksAreAnOrder(p, window, sorted);
      order := Picks(p, sorted);
    } else {
      order := window;
    }
  }
}
