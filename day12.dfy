/** Day 12 (day-12/src/main.rs): JSAbacusFramework.io. The numbers in a
    JSON document are added up; in the second part every object that has
    the string "red" among its values is ignored together with everything
    inside it. The JSON parser is not part of this model: its result is an
    input. */
module Day12 {
  import opened Wrappers
  import opened Arith

  type I64 = x: int | -0x8000_0000_0000_0000 <= x < 0x8000_0000_0000_0000
  type U64 = x: int | 0 <= x < 0x1_0000_0000_0000_0000

  /** A parsed JSON value. An object is its list of entries in the map's
      iteration order. */
  datatype Json =
    | Null
    | Bool(b: bool)
    | I64(i: I64)
    | U64(u: U64)
    | F64(f: real)
    | Str(s: string)
    | Array(items: seq<Json>)
    | Object(entries: seq<(string, Json)>)

  /** `u64 as isize` on a 64-bit target: the bits are kept, so values from
      2^63 on come out negative. */
  function U64AsIsize(u: U64): (r: I64)
    ensures u < 0x8000_0000_0000_0000 ==> r == u
    ensures u >= 0x8000_0000_0000_0000 ==> r == u - 0x1_0000_0000_0000_0000
  {
    if u < 0x8000_0000_0000_0000 then u else u - 0x1_0000_0000_0000_0000
  }

  /** `f64 as isize`: the fraction is dropped, rounding toward zero. */
  function F64AsIsize(f: real): (r: int)
    ensures f >= 0.0 ==> r as real <= f < r as real + 1.0
    ensures f < 0.0 ==> r as real - 1.0 < f <= r as real
  {
    if f >= 0.0 then f.Floor else -((-f).Floor)
  }

  /** The number a leaf stands for, as an `isize`. */
  function Number(j: Json): int
  {
    match j
    case I64(i) => i
    case U64(u) => U64AsIsize(u)
    case F64(f) => F64AsIsize(f)
    case _ => 0
  }

  /** `add_up_numbers_part1` */
  function Part1(j: Json): int
  {
    match j
    case Array(items) => FoldSum(seq(|items|, k requires 0 <= k < |items| => Part1(items[k])), 0)
    case Object(entries) => FoldSum(seq(|entries|, k requires 0 <= k < |entries| => Part1(entries[k].1)), 0)
    case _ => Number(j)
  }

  /** Some value of the object is the string "red". */
  predicate HasRed(entries: seq<(string, Json)>)
  {
    exists k :: 0 <= k < |entries| && entries[k].1 == Str("red")
  }

  /** `add_up_numbers_part2` */
  function Part2(j: Json): int
  {
    match j
    case Array(items) => FoldSum(seq(|items|, k requires 0 <= k < |items| => Part2(items[k])), 0)
    case Object(entries) =>
      if HasRed(entries) then 0
      else FoldSum(seq(|entries|, k requires 0 <= k < |entries| => Part2(entries[k].1)), 0)
    case _ => Number(j)
  }

  /** `parse_and_add_up_numbers_part1/2`: a document that does not parse
      counts 0. */
  function ParseAndAddUp(parsed: Option<Json>, part2: bool): (r: int)
    ensures parsed.None? ==> r == 0
    ensures parsed.Some? && !part2 ==> r == Sum(Leaves(parsed.value))
    ensures parsed.Some? && part2 ==> r == Sum(Leaves(Prune(parsed.value)))
  {
    match parsed
    case None => 0
    case Some(j) =>
      if part2 then
        Part2IsPruned(j);
        Part1Leaves(Prune(j));
        Part2(j)
      else
        Part1Leaves(j);
        Part1(j)
  }

  function Concat(ss: seq<seq<int>>): seq<int>
  {
    if |ss| == 0 then [] else ss[0] + Concat(ss[1..])
  }

  /** Every number in the document, in document order. */
  function Leaves(j: Json): seq<int>
  {
    match j
    case Array(items) => Concat(seq(|items|, k requires 0 <= k < |items| => Leaves(items[k])))
    case Object(entries) => Concat(seq(|entries|, k requires 0 <= k < |entries| => Leaves(entries[k].1)))
    case I64(_) => [Number(j)]
    case U64(_) => [Number(j)]
    case F64(_) => [Number(j)]
    case _ => []
  }

  /** Summing the pieces one by one is summing them glued together. */
  lemma {:induction false} SumConcat(ss: seq<seq<int>>)
    ensures Sum(Concat(ss)) == Sum(seq(|ss|, k requires 0 <= k < |ss| => Sum(ss[k])))
  {
    if |ss| > 0 {
      SumConcat(ss[1..]);
      SumAppend(ss[0], Concat(ss[1..]));
      var sums := seq(|ss|, k requires 0 <= k < |ss| => Sum(ss[k]));
      assert sums[1..] == seq(|ss[1..]|, k requires 0 <= k < |ss[1..]| => Sum(ss[1..][k]));
    }
  }

  /** Part 1 adds up every number in the document: strings, booleans and
      null count nothing. */
  lemma {:induction false} Part1Leaves(j: Json)
    ensures Part1(j) == Sum(Leaves(j))
    decreases j
  {
    match j
    case Array(items) =>
      var parts := seq(|items|, k requires 0 <= k < |items| => Part1(items[k]));
      var leaves := seq(|items|, k requires 0 <= k < |items| => Leaves(items[k]));
      forall k | 0 <= k < |items| {
        Part1Leaves(items[k]);
      }
      FoldIsSum(parts, 0);
      SumConcat(leaves);
      assert parts == seq(|leaves|, k requires 0 <= k < |leaves| => Sum(leaves[k]));
    case Object(entries) =>
      var parts := seq(|entries|, k requires 0 <= k < |entries| => Part1(entries[k].1));
      var leaves := seq(|entries|, k requires 0 <= k < |entries| => Leaves(entries[k].1));
      forall k | 0 <= k < |entries| {
        Part1Leaves(entries[k].1);
      }
      FoldIsSum(parts, 0);
      SumConcat(leaves);
      assert parts == seq(|leaves|, k requires 0 <= k < |leaves| => Sum(leaves[k]));
    case _ =>
  }

  /** The document with every object that has a "red" value emptied. */
  function Prune(j: Json): Json
  {
    match j
    case Array(items) => Array(seq(|items|, k requires 0 <= k < |items| => Prune(items[k])))
    case Object(entries) =>
      if HasRed(entries) then Object([])
      else Object(seq(|entries|, k requires 0 <= k < |entries| => (entries[k].0, Prune(entries[k].1))))
    case _ => j
  }

  /** Part 2 is part 1 of the pruned document. */
  lemma {:induction false} Part2IsPruned(j: Json)
    ensures Part2(j) == Part1(Prune(j))
    decreases j
  {
    match j
    case Array(items) =>
      forall k | 0 <= k < |items| {
        Part2IsPruned(items[k]);
      }
      var pruned := Prune(j).items;
      assert seq(|items|, k requires 0 <= k < |items| => Part2(items[k]))
          == seq(|pruned|, k requires 0 <= k < |pruned| => Part1(pruned[k]));
    case Object(entries) =>
      if !HasRed(entries) {
        forall k | 0 <= k < |entries| {
          Part2IsPruned(entries[k].1);
        }
        var pruned := Prune(j).entries;
        assert seq(|entries|, k requires 0 <= k < |entries| => Part2(entries[k].1))
            == seq(|pruned|, k requires 0 <= k < |pruned| => Part1(pruned[k].1));
      }
    case _ =>
  }

  /** No object anywhere has a "red" value. */
  predicate RedFree(j: Json)
  {
    match j
    case Array(items) => forall k :: 0 <= k < |items| ==> RedFree(items[k])
    case Object(entries) => !HasRed(entries) && forall k :: 0 <= k < |entries| ==> RedFree(entries[k].1)
    case _ => true
  }

  /** Without "red" objects nothing is pruned; a "red" inside an array
      prunes nothing. */
  lemma {:induction false} RedFreeUnpruned(j: Json)
    requires RedFree(j)
    ensures Prune(j) == j
    decreases j
  {
    match j
    case Array(items) =>
      forall k | 0 <= k < |items| {
        RedFreeUnpruned(items[k]);
      }
      assert Prune(j).items == items;
    case Object(entries) =>
      forall k | 0 <= k < |entries| {
        RedFreeUnpruned(entries[k].1);
      }
      assert Prune(j).entries == entries;
    case _ =>
  }
  /** Without "red" objects both parts agree. */
  lemma Part2RedFree(j: Json)
    requires RedFree(j)
    ensures Part2(j) == Part1(j)
  {
    RedFreeUnpruned(j);
    Part2IsPruned(j);
  }

  /** An object with a "red" value counts nothing in part 2, whatever it
      holds. */
  lemma RedObject(entries: seq<(string, Json)>, k: nat)
    requires k < |entries| && entries[k].1 == Str("red")
    ensures Part2(Object(entries)) == 0
  {
  }

  /** An array counts the sum of what its items count. */
  lemma ArrayParts(items: seq<Json>, parts1: seq<int>, parts2: seq<int>)
    requires |parts1| == |items| && forall k :: 0 <= k < |items| ==> parts1[k] == Part1(items[k])
    requires |parts2| == |items| && forall k :: 0 <= k < |items| ==> parts2[k] == Part2(items[k])
    ensures Part1(Array(items)) == Sum(parts1)
    ensures Part2(Array(items)) == Sum(parts2)
  {
    assert parts1 == seq(|items|, k requires 0 <= k < |items| => Part1(items[k]));
    assert parts2 == seq(|items|, k requires 0 <= k < |items| => Part2(items[k]));
    FoldIsSum(parts1, 0);
    FoldIsSum(parts2, 0);
  }

  /** An object counts the sum of what its values count, and in part 2
      only when none of them is "red". */
  lemma ObjectParts(entries: seq<(string, Json)>, parts1: seq<int>, parts2: seq<int>)
    requires |parts1| == |entries| && forall k :: 0 <= k < |entries| ==> parts1[k] == Part1(entries[k].1)
    requires |parts2| == |entries| && forall k :: 0 <= k < |entries| ==> parts2[k] == Part2(entries[k].1)
    ensures Part1(Object(entries)) == Sum(parts1)
    ensures Part2(Object(entries)) == if HasRed(entries) then 0 else Sum(parts2)
  {
    assert parts1 == seq(|entries|, k requires 0 <= k < |entries| => Part1(entries[k].1));
    assert parts2 == seq(|entries|, k requires 0 <= k < |entries| => Part2(entries[k].1));
    FoldIsSum(parts1, 0);
    FoldIsSum(parts2, 0);
  }

  /** [1,2,3] */
  lemma Example1()
    ensures Part1(Array([I64(1), I64(2), I64(3)])) == 6
    ensures Part2(Array([I64(1), I64(2), I64(3)])) == 6
  {
    ArrayParts([I64(1), I64(2), I64(3)], [1, 2, 3], [1, 2, 3]);
  }

  /** {"a":2,"b":4} */
  lemma Example2()
    ensures Part1(Object([("a", I64(2)), ("b", I64(4))])) == 6
  {
    ObjectParts([("a", I64(2)), ("b", I64(4))], [2, 4], [2, 4]);
  }

  /** [[[3]]] */
  lemma Example3()
    ensures Part1(Array([Array([Array([I64(3)])])])) == 3
  {
    ArrayParts([I64(3)], [3], [3]);
    ArrayParts([Array([I64(3)])], [3], [3]);
    ArrayParts([Array([Array([I64(3)])])], [3], [3]);
  }

  /** {"a":{"b":4},"c":-1} */
  lemma Example4()
    ensures Part1(Object([("a", Object([("b", I64(4))])), ("c", I64(-1))])) == 3
  {
    ObjectParts([("b", I64(4))], [4], [4]);
    ObjectParts([("a", Object([("b", I64(4))])), ("c", I64(-1))], [4, -1], [4, -1]);
  }

  /** {"a":[-1,1]} and [-1,{"a":1}] */
  lemma Example5()
    ensures Part1(Object([("a", Array([I64(-1), I64(1)]))])) == 0
    ensures Part1(Array([I64(-1), Object([("a", I64(1))])])) == 0
  {
    ArrayParts([I64(-1), I64(1)], [-1, 1], [-1, 1]);
    ObjectParts([("a", Array([I64(-1), I64(1)]))], [0], [0]);
    ObjectParts([("a", I64(1))], [1], [1]);
    ArrayParts([I64(-1), Object([("a", I64(1))])], [-1, 1], [-1, 1]);
  }

  /** [] and {} */
  lemma Example6()
    ensures Part1(Array([])) == 0 && Part1(Object([])) == 0
  {
    ArrayParts([], [], []);
    ObjectParts([], [], []);
  }

  /** [1,{"c":"red","b":2},3] */
  lemma Example7()
    ensures Part2(Array([I64(1), Object([("c", Str("red")), ("b", I64(2))]), I64(3)])) == 4
  {
    RedObject([("c", Str("red")), ("b", I64(2))], 0);
    ObjectParts([("c", Str("red")), ("b", I64(2))], [0, 2], [0, 2]);
    ArrayParts([I64(1), Object([("c", Str("red")), ("b", I64(2))]), I64(3)], [1, 2, 3], [1, 0, 3]);
  }

  /** {"d":"red","e":[1,2,3,4],"f":5} */
  lemma Example8()
    ensures Part2(Object([("d", Str("red")), ("e", Array([I64(1), I64(2), I64(3), I64(4)])), ("f", I64(5))])) == 0
  {
    RedObject([("d", Str("red")), ("e", Array([I64(1), I64(2), I64(3), I64(4)])), ("f", I64(5))], 0);
  }

  /** [1,"red",5]: a "red" in an array is just a string. */
  lemma Example9()
    ensures Part2(Array([I64(1), Str("red"), I64(5)])) == 6
  {
    ArrayParts([I64(1), Str("red"), I64(5)], [1, 0, 5], [1, 0, 5]);
  }
}
