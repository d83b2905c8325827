/** Small shared helpers: an optional value and the saturating arithmetic the
    Rust sources use on unsigned integers. */
module Wrappers {

  datatype Option<+T> = None | Some(value: T)

  /** `usize::saturating_sub`: the difference, or 0 when it would underflow. */
  function SaturatingSub(a: nat, b: nat): (r: nat)
    ensures r <= a
    ensures b <= a ==> r + b == a
    ensures a <= b ==> r == 0
  {
    if a >= b then a - b else 0
  }

  function Max(a: int, b: int): (r: int)
    ensures r >= a && r >= b && (r == a || r == b)
  {
    if a >= b then a else b
  }

  function Min(a: int, b: int): (r: int)
    ensures r <= a && r <= b && (r == a || r == b)
  {
    if a <= b then a else b
  }

  /** `collect::<Option<Vec<_>>>()` over a mapped iterator: every element
      converted, or `None` at the first one that fails. */
  function CollectAll<A, B>(f: A -> Option<B>, xs: seq<A>): Option<seq<B>>
  {
    if |xs| == 0 then Some([])
    else
      match f(xs[0])
      case None => None
      case Some(y) =>
        match CollectAll(f, xs[1..])
        case None => None
        case Some(ys) => Some([y] + ys)
  }

  /** A successful run holds one result per element, each the element's own. */
  lemma {:induction false} CollectAllSound<A, B>(f: A -> Option<B>, xs: seq<A>)
    ensures var r := CollectAll(f, xs);
      r.Some? ==> |r.value| == |xs| && forall i :: 0 <= i < |xs| ==> f(xs[i]) == Some(r.value[i])
  {
    if |xs| > 0 && f(xs[0]).Some? && CollectAll(f, xs[1..]).Some? {
      CollectAllSound(f, xs[1..]);
      var r := [f(xs[0]).value] + CollectAll(f, xs[1..]).value;
      forall i | 1 <= i < |xs|
        ensures f(xs[i]) == Some(r[i])
      {
        assert xs[i] == xs[1..][i - 1];
      }
    }
  }

  /** One element that fails makes the whole run fail. */
  lemma {:induction false} CollectAllFailing<A, B>(f: A -> Option<B>, xs: seq<A>, i: nat)
    requires i < |xs| && f(xs[i]).None?
    ensures CollectAll(f, xs).None?
  {
    if i > 0 {
      CollectAllFailing(f, xs[1..], i - 1);
    }
  }

  /** A failed run has an element that fails. */
  lemma {:induction false} CollectAllFailure<A, B>(f: A -> Option<B>, xs: seq<A>) returns (i: nat)
    requires CollectAll(f, xs).None?
    ensures i < |xs| && f(xs[i]).None?
  {
    if f(xs[0]).None? {
      i := 0;
    } else {
      var k := CollectAllFailure(f, xs[1..]);
      i := k + 1;
    }
  }
}
