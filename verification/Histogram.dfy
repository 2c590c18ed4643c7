/** lib/histogram.go: counting latencies in buckets. */
module Histogram {

  /** The bucket of a latency: the first whose bounds enclose it, or else the last. */
  function Slot(bounds: seq<int>, latency: int): (i: nat)
    requires bounds != []
    ensures i < |bounds|
  {
    SlotFrom(bounds, latency, 0)
  }

  predicate Encloses(bounds: seq<int>, i: nat, latency: int)
    requires i < |bounds| - 1
  {
    bounds[i] <= latency < bounds[i + 1]
  }

  function SlotFrom(bounds: seq<int>, latency: int, i: nat): (k: nat)
    requires i < |bounds|
    ensures i <= k < |bounds|
    decreases |bounds| - i
  {
    if i == |bounds| - 1 || Encloses(bounds, i, latency) then i else SlotFrom(bounds, latency, i + 1)
  }

  ghost predicate Increasing(bounds: seq<int>) {
    forall i, j :: 0 <= i < j < |bounds| ==> bounds[i] < bounds[j]
  }

  /** Bucket i is meant for [bounds[i], bounds[i+1]), the last one for everything above. */
  predicate Belongs(bounds: seq<int>, i: nat, latency: int)
    requires i < |bounds|
  {
    bounds[i] <= latency && (i < |bounds| - 1 ==> latency < bounds[i + 1])
  }

  lemma {:induction false} SlotFromBelongs(bounds: seq<int>, latency: int, i: nat, k: nat)
    requires Increasing(bounds) && i <= k < |bounds| && bounds[i] <= latency
    ensures SlotFrom(bounds, latency, i) == k <==> Belongs(bounds, k, latency)
    decreases |bounds| - i
  {
    if i == |bounds| - 1 || Encloses(bounds, i, latency) || k == i {
    } else {
      SlotFromBelongs(bounds, latency, i + 1, k);
    }
  }

  lemma {:induction false} SlotFromBelow(bounds: seq<int>, latency: int, i: nat)
    requires Increasing(bounds) && i < |bounds| && latency < bounds[i]
    ensures SlotFrom(bounds, latency, i) == |bounds| - 1
    decreases |bounds| - i
  {
    if i == |bounds| - 1 {
    } else {
      SlotFromBelow(bounds, latency, i + 1);
    }
  }

  /** With increasing bounds a latency goes where it belongs, except that one below the first
      bound goes to the last bucket. */
  lemma {:induction false} SlotIs(bounds: seq<int>, latency: int, k: nat)
    requires Increasing(bounds) && k < |bounds|
    ensures Slot(bounds, latency) == k <==>
            Belongs(bounds, k, latency) || (k == |bounds| - 1 && latency < bounds[0])
  {
    if bounds[0] <= latency {
      SlotFromBelongs(bounds, latency, 0, k);
    } else {
      SlotFromBelow(bounds, latency, 0);
      if k > 0 { assert bounds[0] < bounds[k]; }
    }
  }

  /** 5 is below both bounds and is counted with the latencies from 20 up. */
  lemma {:induction false} BelowGoesLast()
    ensures Slot([10, 20], 5) == 1 && !Belongs([10, 20], 1, 5)
  {
    SlotIs([10, 20], 5, 1);
  }

  /** How many of the latencies went to bucket i. */
  function Tally(bounds: seq<int>, ls: seq<int>, i: nat): nat
    requires bounds != []
  {
    if ls == [] then 0
    else Tally(bounds, ls[..|ls| - 1], i) + (if Slot(bounds, ls[|ls| - 1]) == i then 1 else 0)
  }

  /** How many of the latencies belong to bucket i. */
  function Members(bounds: seq<int>, ls: seq<int>, i: nat): nat
    requires i < |bounds|
  {
    if ls == [] then 0
    else Members(bounds, ls[..|ls| - 1], i) + (if Belongs(bounds, i, ls[|ls| - 1]) then 1 else 0)
  }

  function Below(bounds: seq<int>, ls: seq<int>): nat
    requires bounds != []
  {
    if ls == [] then 0
    else Below(bounds, ls[..|ls| - 1]) + (if ls[|ls| - 1] < bounds[0] then 1 else 0)
  }

  /** Every bucket counts exactly its members; the last one in addition everything below the first
      bound, so it is exact if and only if no latency is below the first bound. */
  lemma {:induction false} TallyCountsMembers(bounds: seq<int>, ls: seq<int>, i: nat)
    requires Increasing(bounds) && i < |bounds|
    ensures Tally(bounds, ls, i) ==
            Members(bounds, ls, i) + (if i == |bounds| - 1 then Below(bounds, ls) else 0)
    ensures Below(bounds, ls) == 0 <==> forall l :: l in ls ==> bounds[0] <= l
  {
    if ls == [] {
    } else {
      var init, last := ls[..|ls| - 1], ls[|ls| - 1];
      assert ls == init + [last];
      TallyCountsMembers(bounds, init, i);
      SlotIs(bounds, last, i);
      if i > 0 { assert bounds[0] < bounds[i]; }
      assert last in ls && forall l :: l in init ==> l in ls;
    }
  }

  function SumTallies(bounds: seq<int>, ls: seq<int>, n: nat): nat
    requires bounds != []
  {
    if n == 0 then 0 else SumTallies(bounds, ls, n - 1) + Tally(bounds, ls, n - 1)
  }

  lemma {:induction false} SumTalliesSnoc(bounds: seq<int>, ls: seq<int>, n: nat)
    requires bounds != []
    ensures ls == [] ==> SumTallies(bounds, ls, n) == 0
    ensures ls != [] ==>
      SumTallies(bounds, ls, n) ==
      SumTallies(bounds, ls[..|ls| - 1], n) + (if Slot(bounds, ls[|ls| - 1]) < n then 1 else 0)
  {
    if n == 0 {
    } else {
      SumTalliesSnoc(bounds, ls, n - 1);
    }
  }

  /** Conservation: whatever the bounds, no latency is lost or counted twice. */
  lemma {:induction false} TalliesSumToTotal(bounds: seq<int>, ls: seq<int>)
    requires bounds != []
    ensures SumTallies(bounds, ls, |bounds|) == |ls|
  {
    SumTalliesSnoc(bounds, ls, |bounds|);
    if ls == [] {
    } else {
      TalliesSumToTotal(bounds, ls[..|ls| - 1]);
    }
  }

  class Histogram {
    const bounds: seq<int>
    var counts: array<nat>
    var total: nat
    ghost var added: seq<int>

    /** counts and total describe the latencies added so far. */
    ghost predicate Valid()
      reads this, counts
    {
      && bounds != []
      && total == |added|
      && (counts.Length != |bounds| ==> added == [])
      && (counts.Length == |bounds| ==>
            forall i :: 0 <= i < |bounds| ==> counts[i] == Tally(bounds, added, i))
    }

    constructor (bounds: seq<int>)
      requires bounds != []
      ensures Valid() && added == [] && this.bounds == bounds && fresh(counts)
    {
      this.bounds := bounds;
      counts := new nat[0];
      total := 0;
      added := [];
    }

    method Add(latency: int)
      requires Valid()
      modifies this, counts
      ensures Valid() && added == old(added) + [latency]
      ensures counts.Length == |bounds| && (counts == old(counts) || fresh(counts))
    {
      if counts.Length != |bounds| {
        counts := new nat[|bounds|](i => 0);
      }
      var i := 0;
      while i < |bounds| - 1
        invariant 0 <= i < |bounds| && Slot(bounds, latency) == SlotFrom(bounds, latency, i)
        invariant counts.Length == |bounds| && (counts == old(counts) || fresh(counts))
        invariant forall k :: 0 <= k < |bounds| ==> counts[k] == Tally(bounds, added, k)
      {
        if bounds[i] <= latency < bounds[i + 1] {
          break;
        }
        i := i + 1;
      }
      total := total + 1;
      counts[i] := counts[i] + 1;
      assert (added + [latency])[..|added|] == added;
      added := added + [latency];
    }
  }
}
