/** Day 17 (day-17/src/main.rs): filling containers with eggnog. The count
    is the number of ways to pick containers (told apart by position, not by
    size) that hold exactly the given volume, using at most a given number
    of them. */
module Day17 {
  import opened Wrappers

  /** `count_container_combinations_inner`: with nothing left to fill there
      is one way (take nothing more); otherwise the first container, if the
      limit still allows one, is either left out or, when it fits, used. */
  function Inner(eggnog: nat, containers: seq<nat>, limit: nat): nat
  {
    if eggnog == 0 then 1
    else if |containers| > 0 && limit > 0 then
      var size := containers[0];
      var unused := Inner(eggnog, containers[1..], limit);
      if size <= eggnog then Inner(eggnog - size, containers[1..], limit - 1) + unused
      else unused
    else 0
  }

  /** `count_container_combinations`: as many containers as there are. */
  function Count(eggnog: nat, containers: seq<nat>): nat
  {
    Inner(eggnog, containers, |containers|)
  }

  // A choice of containers is a mask with one flag per container.

  function Prepend(b: bool, masks: seq<seq<bool>>): (r: seq<seq<bool>>)
    ensures |r| == |masks| && forall i :: 0 <= i < |r| ==> r[i] == [b] + masks[i]
  {
    seq(|masks|, i requires 0 <= i < |masks| => [b] + masks[i])
  }

  /** Every mask of length `n`: those leaving out the first container, then
      those using it. */
  function Masks(n: nat): (r: seq<seq<bool>>)
    ensures forall i :: 0 <= i < |r| ==> |r[i]| == n
  {
    if n == 0 then [[]] else Prepend(false, Masks(n - 1)) + Prepend(true, Masks(n - 1))
  }

  /** Every mask of length `n` is listed. */
  lemma MasksComplete(m: seq<bool>)
    ensures m in Masks(|m|)
  {
    var i := MaskIndex(m);
  }

  /** Where a mask sits in the list. */
  lemma {:induction false} MaskIndex(m: seq<bool>) returns (i: nat)
    ensures i < |Masks(|m|)| && Masks(|m|)[i] == m
  {
    if |m| == 0 {
      i := 0;
    } else {
      var k := MaskIndex(m[1..]);
      i := if m[0] then |Masks(|m| - 1)| + k else k;
      MasksAt(|m|, k, m[0]);
      assert m == [m[0]] + m[1..];
    }
  }

  /** The mask at position `k` of the shorter list, extended by `b`, sits at
      `k` (for false) or `k` past the first half (for true). */
  lemma MasksAt(n: nat, k: nat, b: bool)
    requires n > 0 && k < |Masks(n - 1)|
    ensures var i := if b then |Masks(n - 1)| + k else k;
      i < |Masks(n)| && Masks(n)[i] == [b] + Masks(n - 1)[k]
  {
    var ms := Masks(n - 1);
    assert Masks(n) == Prepend(false, ms) + Prepend(true, ms);
  }

  /** No mask is listed twice, so counting listed masks counts choices. */
  lemma {:induction false} MasksDistinct(n: nat)
    ensures forall i, j :: 0 <= i < j < |Masks(n)| ==> Masks(n)[i] != Masks(n)[j]
  {
    if n > 0 {
      MasksDistinct(n - 1);
      var ms := Masks(n - 1);
      var all := Masks(n);
      forall i, j | 0 <= i < j < |all|
        ensures all[i] != all[j]
      {
        if j < |ms| {
          assert all[i][1..] == ms[i] && all[j][1..] == ms[j];
        } else if i >= |ms| {
          assert all[i][1..] == ms[i - |ms|] && all[j][1..] == ms[j - |ms|];
        } else {
          assert all[i][0] != all[j][0];
        }
      }
    }
  }

  /** The volume the chosen containers hold. */
  function Volume(mask: seq<bool>, containers: seq<nat>): nat
    requires |mask| == |containers|
  {
    if |mask| == 0 then 0
    else (if mask[0] then containers[0] else 0) + Volume(mask[1..], containers[1..])
  }

  /** How many containers are chosen. */
  function Chosen(mask: seq<bool>): nat
  {
    if |mask| == 0 then 0 else (if mask[0] then 1 else 0) + Chosen(mask[1..])
  }

  predicate Fits(mask: seq<bool>, containers: seq<nat>, eggnog: nat, limit: nat)
    requires |mask| == |containers|
  {
    Volume(mask, containers) == eggnog && Chosen(mask) <= limit
  }

  /** How many of the listed masks fit. */
  function CountFits(masks: seq<seq<bool>>, containers: seq<nat>, eggnog: nat, limit: nat): nat
    requires forall i :: 0 <= i < |masks| ==> |masks[i]| == |containers|
  {
    if |masks| == 0 then 0
    else (if Fits(masks[0], containers, eggnog, limit) then 1 else 0) + CountFits(masks[1..], containers, eggnog, limit)
  }

  lemma {:induction false} CountAppend(a: seq<seq<bool>>, b: seq<seq<bool>>, containers: seq<nat>, eggnog: nat, limit: nat)
    requires forall i :: 0 <= i < |a| ==> |a[i]| == |containers|
    requires forall i :: 0 <= i < |b| ==> |b[i]| == |containers|
    ensures CountFits(a + b, containers, eggnog, limit) == CountFits(a, containers, eggnog, limit) + CountFits(b, containers, eggnog, limit)
  {
    if |a| == 0 {
      assert a + b == b;
    } else {
      CountAppend(a[1..], b, containers, eggnog, limit);
      assert (a + b)[1..] == a[1..] + b;
    }
  }

  /** Masks leaving the first container out fit as the rest of the mask
      fits the other containers. */
  lemma {:induction false} CountLeftOut(masks: seq<seq<bool>>, containers: seq<nat>, eggnog: nat, limit: nat)
    requires |containers| > 0
    requires forall i :: 0 <= i < |masks| ==> |masks[i]| == |containers| - 1
    ensures CountFits(Prepend(false, masks), containers, eggnog, limit) == CountFits(masks, containers[1..], eggnog, limit)
  {
    if |masks| > 0 {
      var m := [false] + masks[0];
      assert m[1..] == masks[0];
      assert Prepend(false, masks)[1..] == Prepend(false, masks[1..]);
      CountLeftOut(masks[1..], containers, eggnog, limit);
    }
  }

  /** Masks using the first container fit as the rest of the mask fits the
      remaining volume with one container fewer. */
  lemma {:induction false} CountUsed(masks: seq<seq<bool>>, containers: seq<nat>, eggnog: nat, limit: nat)
    requires |containers| > 0
    requires forall i :: 0 <= i < |masks| ==> |masks[i]| == |containers| - 1
    ensures CountFits(Prepend(true, masks), containers, eggnog, limit) ==
      if containers[0] <= eggnog && limit > 0 then CountFits(masks, containers[1..], eggnog - containers[0], limit - 1) else 0
  {
    if |masks| > 0 {
      var m := [true] + masks[0];
      assert m[1..] == masks[0];
      assert Prepend(true, masks)[1..] == Prepend(true, masks[1..]);
      CountUsed(masks[1..], containers, eggnog, limit);
    }
  }

  /** The choices of all the containers: those leaving the first one out,
      counted over the rest, and those using it, counted over the rest with
      its size and one container taken off. */
  lemma MasksSplit(containers: seq<nat>, eggnog: nat, limit: nat)
    requires |containers| > 0
    ensures var ms := Masks(|containers| - 1);
      CountFits(Masks(|containers|), containers, eggnog, limit)
      == CountFits(ms, containers[1..], eggnog, limit)
         + if containers[0] <= eggnog && limit > 0 then CountFits(ms, containers[1..], eggnog - containers[0], limit - 1) else 0
  {
    var ms := Masks(|containers| - 1);
    CountAppend(Prepend(false, ms), Prepend(true, ms), containers, eggnog, limit);
    CountLeftOut(ms, containers, eggnog, limit);
    CountUsed(ms, containers, eggnog, limit);
  }

  /** Nothing to fill, positive sizes: only the empty choice fits. */
  lemma {:induction false} EmptyOnly(containers: seq<nat>, limit: nat)
    requires forall i :: 0 <= i < |containers| ==> containers[i] > 0
    ensures CountFits(Masks(|containers|), containers, 0, limit) == 1
  {
    if |containers| > 0 {
      MasksSplit(containers, 0, limit);
      EmptyOnly(containers[1..], limit);
    }
  }

  /** Something to fill but no container allowed: nothing fits. */
  lemma {:induction false} NoneAllowed(containers: seq<nat>, eggnog: nat)
    requires eggnog > 0
    ensures CountFits(Masks(|containers|), containers, eggnog, 0) == 0
  {
    if |containers| > 0 {
      MasksSplit(containers, eggnog, 0);
      NoneAllowed(containers[1..], eggnog);
    }
  }

  /** The recursion counts the choices of at most `limit` containers that
      hold exactly `eggnog`, each choice once (for containers of positive
      size: a container of size 0 is not counted once nothing is left to
      fill). */
  lemma {:induction false} InnerCounts(eggnog: nat, containers: seq<nat>, limit: nat)
    requires forall i :: 0 <= i < |containers| ==> containers[i] > 0
    ensures Inner(eggnog, containers, limit) == CountFits(Masks(|containers|), containers, eggnog, limit)
  {
    if eggnog == 0 {
      EmptyOnly(containers, limit);
    } else if |containers| == 0 {
      assert Inner(eggnog, containers, limit) == 0;
      assert CountFits(Masks(|containers|), containers, eggnog, limit) == 0;
    } else if limit == 0 {
      NoneAllowed(containers, eggnog);
      assert Inner(eggnog, containers, limit) == 0;
    } else {
      MasksSplit(containers, eggnog, limit);
      InnerCounts(eggnog, containers[1..], limit);
      if containers[0] <= eggnog {
        InnerCounts(eggnog - containers[0], containers[1..], limit - 1);
      }
      assert Inner(eggnog, containers, limit) == CountFits(Masks(|containers|), containers, eggnog, limit);
    }
  }

  /** Allowing one more container never loses a combination. */
  lemma {:induction false} InnerMonotone(eggnog: nat, containers: seq<nat>, limit: nat)
    ensures Inner(eggnog, containers, limit) <= Inner(eggnog, containers, limit + 1)
    decreases |containers|
  {
    if eggnog > 0 && |containers| > 0 {
      InnerMonotone(eggnog, containers[1..], limit);
      if containers[0] <= eggnog && limit > 0 {
        InnerMonotone(eggnog - containers[0], containers[1..], limit - 1);
      }
    }
  }

  lemma {:induction false} InnerMonotoneUpTo(eggnog: nat, containers: seq<nat>, j: nat, k: nat)
    requires j <= k
    ensures Inner(eggnog, containers, j) <= Inner(eggnog, containers, k)
    decreases k - j
  {
    if j < k {
      InnerMonotone(eggnog, containers, j);
      InnerMonotoneUpTo(eggnog, containers, j + 1, k);
    }
  }

  /** A limit above the number of containers changes nothing. */
  lemma {:induction false} InnerSaturates(eggnog: nat, containers: seq<nat>, limit: nat)
    requires limit >= |containers|
    ensures Inner(eggnog, containers, limit) == Count(eggnog, containers)
  {
    if eggnog > 0 && |containers| > 0 {
      var rest := containers[1..];
      InnerSaturates(eggnog, rest, limit);
      InnerSaturates(eggnog, rest, |containers|);
      if containers[0] <= eggnog {
        InnerSaturates(eggnog - containers[0], rest, limit - 1);
        InnerSaturates(eggnog - containers[0], rest, |containers| - 1);
      }
    }
  }

  /** The first limit in `from .. bound` with a positive count. */
  function FirstPositive(eggnog: nat, containers: seq<nat>, from: nat, bound: nat): (r: Option<nat>)
    ensures r.Some? ==> (from <= r.value < bound && Inner(eggnog, containers, r.value) > 0 &&
      forall j :: from <= j < r.value ==> Inner(eggnog, containers, j) == 0)
    ensures r.None? ==> forall j :: from <= j < bound ==> Inner(eggnog, containers, j) == 0
    decreases bound - from
  {
    if from >= bound then None
    else if Inner(eggnog, containers, from) > 0 then Some(from)
    else FirstPositive(eggnog, containers, from + 1, bound)
  }

  /** `count_container_combinations_of_minimum` as written: the limits
      tried are `0 .. len`, which leaves out the limit `len` itself. */
  function MinimumAsWritten(eggnog: nat, containers: seq<nat>): (r: Option<nat>)
    ensures r.Some? ==> exists l :: 0 <= l < |containers| && r.value == Inner(eggnog, containers, l) > 0
  {
    match FirstPositive(eggnog, containers, 0, |containers|)
    case None => None
    case Some(l) => Some(Inner(eggnog, containers, l))
  }

  /** The minimum with the limits `0 ..= len`: the number of combinations
      of the fewest containers that can hold the eggnog. */
  function Minimum(eggnog: nat, containers: seq<nat>): (r: Option<nat>)
    ensures r.Some? ==> exists l :: (0 <= l <= |containers| && r.value == Inner(eggnog, containers, l) > 0 &&
      forall j :: 0 <= j < l ==> Inner(eggnog, containers, j) == 0)
  {
    match FirstPositive(eggnog, containers, 0, |containers| + 1)
    case None => None
    case Some(l) => Some(Inner(eggnog, containers, l))
  }

  /** The corrected minimum finds something exactly when some combination
      exists. */
  lemma MinimumExists(eggnog: nat, containers: seq<nat>)
    ensures Minimum(eggnog, containers).Some? <==> Count(eggnog, containers) > 0
  {
    var r := FirstPositive(eggnog, containers, 0, |containers| + 1);
    if r.Some? {
      InnerMonotoneUpTo(eggnog, containers, r.value, |containers|);
    }
  }

  /** How many of the listed masks fit with exactly `size` containers. */
  function CountExactly(masks: seq<seq<bool>>, containers: seq<nat>, eggnog: nat, size: nat): nat
    requires forall i :: 0 <= i < |masks| ==> |masks[i]| == |containers|
  {
    if |masks| == 0 then 0
    else
      var here := if Volume(masks[0], containers) == eggnog && Chosen(masks[0]) == size then 1 else 0;
      here + CountExactly(masks[1..], containers, eggnog, size)
  }

  lemma {:induction false} CountSplit(masks: seq<seq<bool>>, containers: seq<nat>, eggnog: nat, size: nat)
    requires size > 0
    requires forall i :: 0 <= i < |masks| ==> |masks[i]| == |containers|
    ensures CountFits(masks, containers, eggnog, size) ==
      CountExactly(masks, containers, eggnog, size) + CountFits(masks, containers, eggnog, size - 1)
  {
    if |masks| > 0 {
      CountSplit(masks[1..], containers, eggnog, size);
    }
  }

  /** At the smallest limit with a combination, every combination counted
      uses exactly that many containers: the minimum counts the ways to use
      the fewest containers. */
  lemma MinimumCountsFewest(eggnog: nat, containers: seq<nat>, size: nat)
    requires forall i :: 0 <= i < |containers| ==> containers[i] > 0
    requires size > 0 && Inner(eggnog, containers, size - 1) == 0
    ensures Inner(eggnog, containers, size) == CountExactly(Masks(|containers|), containers, eggnog, size)
  {
    InnerCounts(eggnog, containers, size);
    InnerCounts(eggnog, containers, size - 1);
    CountSplit(Masks(|containers|), containers, eggnog, size);
  }

  /** One container that holds exactly the eggnog: one combination, of one
      container, but the limits `0 .. 1` never allow it. */
  lemma AllContainersMissed(containers: seq<nat>)
    requires containers == [5]
    ensures Count(5, containers) == 1
    ensures MinimumAsWritten(5, containers) == None
    ensures Minimum(5, containers) == Some(1)
  {
    assert Inner(5, containers, 0) == 0;
    assert Inner(5, containers, 1) == 1 by {
      assert Inner(0, containers[1..], 0) == 1;
      assert Inner(5, containers[1..], 1) == 0;
    }
  }

  /** The recursion on the test containers with limits up to 2. */
  lemma SmallLimits(c0: seq<nat>)
    requires c0 == [20, 15, 10, 5, 5]
    ensures Inner(25, c0, 0) == 0 && Inner(25, c0, 1) == 0 && Inner(25, c0, 2) == 3
  {
    var c1 := c0[1..];
    var c2 := c1[1..];
    var c3 := c2[1..];
    var c4 := c3[1..];
    var c5 := c4[1..];
    assert c1 == [15, 10, 5, 5] && c2 == [10, 5, 5] && c3 == [5, 5] && c4 == [5] && c5 == [];
    assert Inner(25, c0, 0) == 0;
    assert Inner(25, c5, 1) == 0;
    assert Inner(20, c5, 0) == 0;
    assert Inner(25, c4, 1) == 0;
    assert Inner(20, c4, 0) == 0;
    assert Inner(25, c3, 1) == 0;
    assert Inner(15, c3, 0) == 0;
    assert Inner(25, c2, 1) == 0;
    assert Inner(10, c2, 0) == 0;
    assert Inner(25, c1, 1) == 0;
    assert Inner(5, c1, 0) == 0;
    assert Inner(25, c0, 1) == 0;
    assert Inner(25, c5, 2) == 0;
    assert Inner(20, c5, 1) == 0;
    assert Inner(25, c4, 2) == 0;
    assert Inner(15, c5, 0) == 0;
    assert Inner(20, c4, 1) == 0;
    assert Inner(25, c3, 2) == 0;
    assert Inner(15, c5, 1) == 0;
    assert Inner(10, c5, 0) == 0;
    assert Inner(15, c4, 1) == 0;
    assert Inner(10, c4, 0) == 0;
    assert Inner(15, c3, 1) == 0;
    assert Inner(25, c2, 2) == 0;
    assert Inner(10, c5, 1) == 0;
    assert Inner(5, c5, 0) == 0;
    assert Inner(10, c4, 1) == 0;
    assert Inner(5, c4, 0) == 0;
    assert Inner(10, c3, 1) == 0;
    assert Inner(10, c2, 1) == 1;
    assert Inner(25, c1, 2) == 1;
    assert Inner(5, c5, 1) == 0;
    assert Inner(5, c4, 1) == 1;
    assert Inner(5, c3, 1) == 2;
    assert Inner(5, c2, 1) == 2;
    assert Inner(5, c1, 1) == 2;
    assert Inner(25, c0, 2) == 3;
  }

  /** The recursion on the test containers with every container allowed. */
  lemma FullLimit(c0: seq<nat>)
    requires c0 == [20, 15, 10, 5, 5]
    ensures Inner(25, c0, 5) == 4
  {
    var c1 := c0[1..];
    var c2 := c1[1..];
    var c3 := c2[1..];
    var c4 := c3[1..];
    var c5 := c4[1..];
    assert c1 == [15, 10, 5, 5] && c2 == [10, 5, 5] && c3 == [5, 5] && c4 == [5] && c5 == [];
    assert Inner(25, c5, 5) == 0;
    assert Inner(20, c5, 4) == 0;
    assert Inner(25, c4, 5) == 0;
    assert Inner(15, c5, 3) == 0;
    assert Inner(20, c4, 4) == 0;
    assert Inner(25, c3, 5) == 0;
    assert Inner(15, c5, 4) == 0;
    assert Inner(10, c5, 3) == 0;
    assert Inner(15, c4, 4) == 0;
    assert Inner(5, c5, 2) == 0;
    assert Inner(10, c4, 3) == 0;
    assert Inner(15, c3, 4) == 0;
    assert Inner(25, c2, 5) == 0;
    assert Inner(10, c5, 4) == 0;
    assert Inner(5, c5, 3) == 0;
    assert Inner(10, c4, 4) == 0;
    assert Inner(5, c4, 3) == 1;
    assert Inner(10, c3, 4) == 1;
    assert Inner(10, c2, 4) == 2;
    assert Inner(25, c1, 5) == 2;
    assert Inner(5, c5, 4) == 0;
    assert Inner(5, c4, 4) == 1;
    assert Inner(5, c3, 4) == 2;
    assert Inner(5, c2, 4) == 2;
    assert Inner(5, c1, 4) == 2;
    assert Inner(25, c0, 5) == 4;
  }

  /** The tests: containers of 20, 15, 10, 5 and 5 litres and 25 litres of
      eggnog. */
  lemma Examples(containers: seq<nat>)
    requires containers == [20, 15, 10, 5, 5]
    ensures Count(25, containers) == 4
    ensures Minimum(25, containers) == Some(3)
    ensures MinimumAsWritten(25, containers) == Some(3)
  {
    SmallLimits(containers);
    FullLimit(containers);
  }
}
