/**
 * Day 24: balancing the sleigh. The packages are split into groups of equal
 * weight; among the groups with the fewest packages the one with the smallest
 * quantum entanglement (product of the weights) goes in the passenger
 * compartment.
 */
module Day24 {
  import opened Wrappers
  import opened Arith

  /** The total weight of some packages, summed from the left. */
  function TotalWeight(packages: seq<nat>): (w: nat)
    ensures w == Sum(packages)
  {
    FoldIsSum(packages, 0);
    SumNatural(packages);
    FoldSum(packages, 0)
  }

  lemma {:induction false} SumNatural(xs: seq<nat>)
    ensures Sum(xs) >= 0
  {
    if |xs| > 0 {
      SumNatural(xs[1..]);
    }
  }

  /** Product folded from the left, starting at `acc`. */
  function FoldProduct(xs: seq<nat>, acc: nat): nat
  {
    if |xs| == 0 then acc else FoldProduct(xs[1..], acc * xs[0])
  }

  /** The plain product, from the right; the empty product is 1. */
  function Product(xs: seq<nat>): nat
  {
    if |xs| == 0 then 1 else xs[0] * Product(xs[1..])
  }

  lemma {:induction false} FoldIsProduct(xs: seq<nat>, acc: nat)
    ensures FoldProduct(xs, acc) == acc * Product(xs)
  {
    if |xs| > 0 {
      FoldIsProduct(xs[1..], acc * xs[0]);
      assert acc * xs[0] * Product(xs[1..]) == acc * (xs[0] * Product(xs[1..]));
    }
  }

  /** The quantum entanglement of a group: the product of its weights. */
  function QuantumEntanglement(group: seq<nat>): (q: nat)
    ensures q == Product(group)
  {
    FoldIsProduct(group, 1);
    FoldProduct(group, 1)
  }

  /** Entanglement distributes over concatenation. */
  lemma {:induction false} ProductAppend(a: seq<nat>, b: seq<nat>)
    ensures Product(a + b) == Product(a) * Product(b)
  {
    if |a| > 0 {
      ProductAppend(a[1..], b);
      assert (a + b)[1..] == a[1..] + b;
      assert a[0] * (Product(a[1..]) * Product(b)) == a[0] * Product(a[1..]) * Product(b);
    } else {
      assert a + b == b;
    }
  }

  /** `g` is `p` with some elements dropped, the rest kept in order. */
  predicate IsSubsequence(g: seq<nat>, p: seq<nat>)
    decreases |p|
  {
    if |g| == 0 then true
    else if |p| == 0 then false
    else (g[0] == p[0] && IsSubsequence(g[1..], p[1..])) || IsSubsequence(g, p[1..])
  }

  /** Puts `first` in front of every group. */
  function Prepend(first: nat, groups: seq<seq<nat>>): (r: seq<seq<nat>>)
    ensures |r| == |groups|
    ensures forall i :: 0 <= i < |r| ==> r[i] == [first] + groups[i]
  {
    seq(|groups|, i requires 0 <= i < |groups| => [first] + groups[i])
  }

  /**
   * Every way to pick at most `maxSize` of the packages, keeping their order,
   * so that their weights add up to `weight`: first the picks that leave the
   * first package out, then those that take it.
   */
  function Groups(packages: seq<nat>, weight: nat, maxSize: nat): seq<seq<nat>>
    decreases |packages|
  {
    if maxSize > 0 && weight > 0 && |packages| > 0 then
      var first := packages[0];
      var without := Groups(packages[1..], weight, maxSize);
      if first <= weight then
        without + Prepend(first, Groups(packages[1..], weight - first, maxSize - 1))
      else
        without
    else if weight == 0 then
      [[]]
    else
      []
  }

  /** A weight of zero is met by the empty group alone. */
  lemma GroupsOfNothing(packages: seq<nat>, maxSize: nat)
    ensures Groups(packages, 0, maxSize) == [[]]
  {
  }

  /** Soundness: every group returned is an ordered pick of the packages of the right weight and size. */
  lemma {:induction false} GroupsSound(packages: seq<nat>, weight: nat, maxSize: nat)
    ensures forall g :: g in Groups(packages, weight, maxSize) ==>
      IsSubsequence(g, packages) && Sum(g) == weight && |g| <= maxSize
    decreases |packages|
  {
    var groups := Groups(packages, weight, maxSize);
    if maxSize > 0 && weight > 0 && |packages| > 0 {
      var first := packages[0];
      var rest := packages[1..];
      GroupsSound(rest, weight, maxSize);
      forall g | g in Groups(rest, weight, maxSize)
        ensures IsSubsequence(g, packages)
      {
        SkipFirst(g, packages);
      }
      if first <= weight {
        var inner := Groups(rest, weight - first, maxSize - 1);
        GroupsSound(rest, weight - first, maxSize - 1);
        forall g | g in Prepend(first, inner)
          ensures IsSubsequence(g, packages) && Sum(g) == weight && |g| <= maxSize
        {
          var i :| 0 <= i < |inner| && Prepend(first, inner)[i] == g;
          assert g == [first] + inner[i];
          assert g[1..] == inner[i];
        }
      }
    } else if weight == 0 {
      assert groups == [[]];
    }
  }

  /** Leaving the first element out keeps a pick of the rest a pick of the whole. */
  lemma SkipFirst(g: seq<nat>, p: seq<nat>)
    requires |p| > 0 && IsSubsequence(g, p[1..])
    ensures IsSubsequence(g, p)
  {
  }

  /** The weights of an ordered pick all occur among the packages. */
  lemma {:induction false} PickedFrom(g: seq<nat>, p: seq<nat>)
    requires IsSubsequence(g, p)
    ensures forall x :: x in g ==> x in p
    decreases |p|
  {
    if |g| > 0 {
      if g[0] == p[0] && IsSubsequence(g[1..], p[1..]) {
        PickedFrom(g[1..], p[1..]);
        assert forall x :: x in g ==> x == g[0] || x in g[1..];
      } else {
        PickedFrom(g, p[1..]);
      }
    }
  }

  /** A non-empty group of positive weights weighs something. */
  lemma {:induction false} PositiveSum(g: seq<nat>)
    requires forall x :: x in g ==> x > 0
    requires |g| > 0
    ensures Sum(g) > 0
  {
    assert g[0] in g;
    SumNatural(g[1..]);
  }

  /**
   * Completeness: when every package weighs something, every ordered pick of
   * the right weight and size is among the groups.
   */
  lemma {:induction false} GroupsComplete(packages: seq<nat>, weight: nat, maxSize: nat, g: seq<nat>)
    requires forall x :: x in packages ==> x > 0
    requires IsSubsequence(g, packages) && Sum(g) == weight && |g| <= maxSize
    ensures g in Groups(packages, weight, maxSize)
    decreases |packages|
  {
    PickedFrom(g, packages);
    if |g| == 0 {
      assert weight == 0;
      assert Groups(packages, weight, maxSize) == [[]];
    } else {
      PositiveSum(g);
      var first := packages[0];
      var rest := packages[1..];
      assert forall x :: x in rest ==> x in packages;
      if g[0] == first && IsSubsequence(g[1..], rest) {
        SumNatural(g[1..]);
        GroupsComplete(rest, weight - first, maxSize - 1, g[1..]);
        var inner := Groups(rest, weight - first, maxSize - 1);
        var i :| 0 <= i < |inner| && inner[i] == g[1..];
        assert Prepend(first, inner)[i] == g;
        assert g in Prepend(first, inner);
      } else {
        GroupsComplete(rest, weight, maxSize, g);
      }
    }
  }

  /** The smallest entanglement among some groups (`Iterator::min` over their entanglements). */
  function MinEntanglement(groups: seq<seq<nat>>): (q: nat)
    requires |groups| > 0
    ensures exists i :: 0 <= i < |groups| && q == QuantumEntanglement(groups[i])
    ensures forall i :: 0 <= i < |groups| ==> q <= QuantumEntanglement(groups[i])
  {
    if |groups| == 1 then
      QuantumEntanglement(groups[0])
    else
      var restMin := MinEntanglement(groups[1..]);
      assert forall i :: 1 <= i < |groups| ==> groups[i] == groups[1..][i - 1];
      Min(QuantumEntanglement(groups[0]), restMin)
  }

  /** The weight each group must have (integer division, as in the program). */
  function GroupWeight(packages: seq<nat>, groupCount: nat): nat
    requires groupCount > 0
  {
    TotalWeight(packages) / groupCount
  }

  /**
   * Tries group sizes 1, 2, … up to the number of packages and, at the first
   * size for which some group has the required weight, returns the smallest
   * entanglement among those groups.
   */
  method FindMinQuantumEntanglement(packages: seq<nat>, groupCount: nat) returns (r: Option<nat>)
    requires groupCount > 0
    ensures var w := GroupWeight(packages, groupCount);
      r.None? <==> forall s :: 1 <= s <= |packages| ==> |Groups(packages, w, s)| == 0
    ensures var w := GroupWeight(packages, groupCount);
      r.Some? ==>
        exists s ::
          && 1 <= s <= |packages| && |Groups(packages, w, s)| > 0
          && (forall t :: 1 <= t < s ==> |Groups(packages, w, t)| == 0)
          && r.value == MinEntanglement(Groups(packages, w, s))
  {
    var weightPerGroup := TotalWeight(packages) / groupCount;
    assert weightPerGroup == GroupWeight(packages, groupCount);
    for groupSize := 1 to |packages| + 1
      invariant forall t :: 1 <= t < groupSize ==> |Groups(packages, weightPerGroup, t)| == 0
    {
      var possibilities := Groups(packages, weightPerGroup, groupSize);
      if |possibilities| > 0 {
        assert 1 <= groupSize <= |packages| && |Groups(packages, weightPerGroup, groupSize)| > 0;
        return Some(MinEntanglement(possibilities));
      }
    }
    return None;
  }

  /**
   * What the search finds: if the first group size with a group of weight `w`
   * (w > 0, all packages positive) is `s`, then no pick of weight `w` has
   * fewer than `s` packages, some pick of `s` packages has the entanglement
   * reported, and no pick of `s` packages has a smaller one.
   */
  lemma FewestPackagesFirst(packages: seq<nat>, w: nat, s: nat)
    requires forall x :: x in packages ==> x > 0
    requires w > 0 && s >= 1 && |Groups(packages, w, s)| > 0
    requires forall t :: 1 <= t < s ==> |Groups(packages, w, t)| == 0
    ensures forall g: seq<nat> :: IsSubsequence(g, packages) && Sum(g) == w ==>
      |g| >= s && (|g| == s ==> MinEntanglement(Groups(packages, w, s)) <= QuantumEntanglement(g))
    ensures exists g: seq<nat> ::
              && IsSubsequence(g, packages) && Sum(g) == w && |g| == s
              && QuantumEntanglement(g) == MinEntanglement(Groups(packages, w, s))
  {
    var groups := Groups(packages, w, s);
    GroupsSound(packages, w, s);
    forall g: seq<nat> | IsSubsequence(g, packages) && Sum(g) == w
      ensures |g| >= s
      ensures |g| == s ==> MinEntanglement(groups) <= QuantumEntanglement(g)
    {
      if |g| < s {
        GroupsComplete(packages, w, |g|, g);
      }
      if |g| == s {
        GroupsComplete(packages, w, s, g);
        var i :| 0 <= i < |groups| && groups[i] == g;
      }
    }
    var i :| 0 <= i < |groups| && MinEntanglement(groups) == QuantumEntanglement(groups[i]);
    var g := groups[i];
    assert g in groups;
  }
}
