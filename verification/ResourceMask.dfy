/**
 * The resources of a job as a bit mask. Only ids one to four have a bit; the dispatcher counts bits
 * to know how many devices to use.
 */
module ResourceMask {
  import opened Sequences
  import opened Jobs

  /** The bit for the i-th device, counted from zero. */
  function Flag(i: nat): bv8 {
    if i == 0 then 1 else if i == 1 then 2 else if i == 2 then 4 else 8
  }

  predicate IsSet(mask: bv8, i: nat) {
    mask & Flag(i) != 0
  }

  predicate HasBit(r: Rid) {
    1 <= r <= 4
  }

  /** Packing one id sets its bit, if it has one, and leaves the others alone. */
  function PackOne(mask: bv8, r: Rid): bv8 {
    if HasBit(r) then mask | Flag(r - 1) else mask
  }

  lemma PackOneSets(mask: bv8, r: Rid, i: nat)
    requires i < 4
    ensures IsSet(PackOne(mask, r), i) <==> IsSet(mask, i) || r == i + 1
  {
  }

  lemma PackOneStays(mask: bv8, r: Rid)
    requires mask < 16
    ensures PackOne(mask, r) < 16
  {
  }

  /** What the listed ids add up to, as powers of two. */
  function MaskValue(list: seq<Rid>): nat {
    (if 1 in list then 1 else 0) + (if 2 in list then 2 else 0)
    + (if 3 in list then 4 else 0) + if 4 in list then 8 else 0
  }

  lemma MaskFromBits(mask: bv8, list: seq<Rid>)
    requires mask < 16 && forall i: nat :: i < 4 ==> (IsSet(mask, i) <==> i + 1 in list)
    ensures mask as nat == MaskValue(list)
  {
    assert IsSet(mask, 0) <==> 1 in list;
    assert IsSet(mask, 1) <==> 2 in list;
    assert IsSet(mask, 2) <==> 3 in list;
    assert IsSet(mask, 3) <==> 4 in list;
    MaskBits(mask);
  }

  lemma MaskBits(mask: bv8)
    requires mask < 16
    ensures mask as nat == (if IsSet(mask, 0) then 1 else 0) + (if IsSet(mask, 1) then 2 else 0)
                           + (if IsSet(mask, 2) then 4 else 0) + if IsSet(mask, 3) then 8 else 0
  {
    assert mask in {0, 1, 2, 3, 4, 5, 6, 7, 8, 9, 10, 11, 12, 13, 14, 15};
  }

  /** The mask has bit i exactly when id i + 1 is on the list. */
  method PackRids(list: seq<Rid>) returns (mask: bv8)
    ensures forall i: nat :: i < 4 ==> (IsSet(mask, i) <==> i + 1 in list)
    ensures mask as nat == MaskValue(list)
  {
    hide IsSet, PackOne;
    mask := 0;
    NothingSet();
    for k := 0 to |list|
      invariant forall i: nat :: i < 4 ==> (IsSet(mask, i) <==> i + 1 in list[..k])
      invariant mask < 16
    {
      PackOneStays(mask, list[k]);
      assert list[..k + 1] == list[..k] + [list[k]];
      forall i: nat | i < 4 ensures IsSet(PackOne(mask, list[k]), i) <==> i + 1 in list[..k + 1] {
        PackOneSets(mask, list[k], i);
      }
      mask := PackOne(mask, list[k]);
    }
    assert list[..|list|] == list;
    MaskFromBits(mask, list);
  }

  lemma NothingSet()
    ensures forall i: nat :: i < 4 ==> !IsSet(0, i)
  {
  }

  /** How many of the first `k` ids are on the list. */
  function Listed(list: seq<Rid>, k: nat): nat {
    if k == 0 then 0 else Listed(list, k - 1) + if k in list then 1 else 0
  }

  /** How many of the bits below `k` are set. */
  function BitsSet(mask: bv8, k: nat): nat {
    if k == 0 then 0 else BitsSet(mask, k - 1) + if IsSet(mask, k - 1) then 1 else 0
  }

  /** Counts the bits of the four devices. */
  method NDfes(rids: bv8) returns (n: nat)
    ensures n == BitsSet(rids, 4) <= 4
  {
    hide IsSet;
    n := 0;
    for i := 0 to 4
      invariant n == BitsSet(rids, i) <= i
    {
      if IsSet(rids, i) {
        n := n + 1;
      }
    }
  }

  /** The bits of a mask that stands for a list number the listed ids. */
  lemma {:induction false} BitsAreListed(mask: bv8, list: seq<Rid>, k: nat)
    requires k <= 4 && forall i: nat :: i < 4 ==> (IsSet(mask, i) <==> i + 1 in list)
    ensures BitsSet(mask, k) == Listed(list, k)
  {
    hide IsSet;
    if k > 0 {
      BitsAreListed(mask, list, k - 1);
      var i: nat := k - 1;
      assert IsSet(mask, i) <==> i + 1 in list;
    }
  }

  lemma {:induction false} ListedCons(list: seq<Rid>, k: nat)
    requires list != [] && list[0] !in list[1..]
    ensures Listed(list, k) == Listed(list[1..], k) + if 1 <= list[0] <= k then 1 else 0
  {
    if k > 0 {
      ListedCons(list, k - 1);
      assert k in list <==> k == list[0] || k in list[1..] by {
        assert list == [list[0]] + list[1..];
      }
    }
  }

  /** A list of distinct resources is counted in full exactly when none of them has an id above four. */
  lemma {:induction false} ListedInFull(list: seq<Rid>)
    requires Distinct(list)
    ensures Listed(list, 4) <= |list|
    ensures Listed(list, 4) == |list| <==> forall r :: r in list ==> HasBit(r)
  {
    if list == [] {
      assert Listed(list, 4) == 0 by { NoneListed(4); }
    } else {
      assert list[0] !in list[1..];
      ListedCons(list, 4);
      ListedInFull(list[1..]);
      assert list[0] in list && forall r :: r in list <==> r == list[0] || r in list[1..];
    }
  }

  lemma {:induction false} NoneListed(k: nat)
    ensures Listed([], k) == 0
  {
    if k > 0 {
      NoneListed(k - 1);
    }
  }

  /**
   * From the resources of a job to the number of devices: the dispatcher uses as many as the job was
   * given exactly when all of them are among the first four.
   */
  method DevicesFor(list: seq<Rid>) returns (n: nat)
    requires Distinct(list)
    ensures n == Listed(list, 4) <= |list|
    ensures n == |list| <==> forall r :: r in list ==> HasBit(r)
  {
    var mask := PackRids(list);
    n := NDfes(mask);
    BitsAreListed(mask, list, 4);
    ListedInFull(list);
  }
}
