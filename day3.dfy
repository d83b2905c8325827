/** Day 3 (day-3/src/main.rs): Santa walks an infinite grid of houses
    following arrows and leaves a present at every house he stands on; the
    answer is the number of houses that got at least one. With Robo-Santa the
    moves are dealt out alternately to the two of them. */
module Day3 {
  import opened Wrappers

  datatype Direction = North | East | South | West

  type Coordinates = (int, int)

  /** `Direction::from_char`: the four arrows, nothing else. */
  function FromChar(c: char): (d: Option<Direction>)
    ensures d.Some? <==> c in {'^', '>', 'v', '<'}
  {
    match c
    case '^' => Some(North)
    case '>' => Some(East)
    case 'v' => Some(South)
    case '<' => Some(West)
    case _ => None
  }

  /** The arrow that stands for a direction: the inverse of `FromChar`. */
  function ToChar(d: Direction): (c: char)
    ensures FromChar(c) == Some(d)
  {
    match d
    case North => '^'
    case East => '>'
    case South => 'v'
    case West => '<'
  }

  /** `parse_directions`: the arrows of the input in order, other characters
      dropped. */
  function ParseDirections(input: string): (ds: seq<Direction>)
    ensures |ds| <= |input|
  {
    if |input| == 0 then []
    else
      var rest := ParseDirections(input[1..]);
      match FromChar(input[0])
      case Some(d) => [d] + rest
      case None => rest
  }

  /** The arrows of a list of directions. */
  function Arrows(ds: seq<Direction>): (s: string)
    ensures |s| == |ds|
  {
    if |ds| == 0 then [] else [ToChar(ds[0])] + Arrows(ds[1..])
  }

  /** Parsing the arrows of directions gives them back. */
  lemma {:induction false} ParseArrows(ds: seq<Direction>)
    ensures ParseDirections(Arrows(ds)) == ds
  {
    if |ds| > 0 {
      ParseArrows(ds[1..]);
      assert Arrows(ds)[1..] == Arrows(ds[1..]);
    }
  }

  /** Characters that are not arrows make no difference. */
  lemma {:induction false} ParseIgnoresOthers(a: string, c: char, b: string)
    requires FromChar(c).None?
    ensures ParseDirections(a + [c] + b) == ParseDirections(a + b)
  {
    if |a| == 0 {
      assert a + [c] + b == [c] + b;
      assert ([c] + b)[1..] == b;
      assert a + b == b;
    } else {
      ParseIgnoresOthers(a[1..], c, b);
      assert (a + [c] + b)[1..] == a[1..] + [c] + b;
      assert (a + b)[1..] == a[1..] + b;
    }
  }

  /** `split_directions`: the moves at even positions and those at odd
      positions, each in their original order. */
  function SplitDirections(ds: seq<Direction>): (r: (seq<Direction>, seq<Direction>))
    ensures |r.0| == (|ds| + 1) / 2 && |r.1| == |ds| / 2
    ensures forall i :: 0 <= i < |r.0| ==> r.0[i] == ds[2 * i]
    ensures forall i :: 0 <= i < |r.1| ==> r.1[i] == ds[2 * i + 1]
  {
    if |ds| == 0 then ([], [])
    else
      var rest := SplitDirections(ds[1..]);
      ([ds[0]] + rest.1, rest.0)
  }

  /** Dealing the halves back out alternately restores the list. */
  function Interleave(even: seq<Direction>, odd: seq<Direction>): seq<Direction>
    requires |odd| <= |even| <= |odd| + 1
    decreases |even| + |odd|
  {
    if |even| == 0 then [] else [even[0]] + Interleave(odd, even[1..])
  }

  lemma {:induction false} SplitInterleave(ds: seq<Direction>)
    ensures var (even, odd) := SplitDirections(ds); Interleave(even, odd) == ds
  {
    if |ds| > 0 {
      SplitInterleave(ds[1..]);
      var rest := SplitDirections(ds[1..]);
      assert ([ds[0]] + rest.1)[1..] == rest.1;
    }
  }

  /** One step from `c` in direction `d`. */
  function Move(c: Coordinates, d: Direction): (n: Coordinates)
    ensures (if n.0 < c.0 then c.0 - n.0 else n.0 - c.0) + (if n.1 < c.1 then c.1 - n.1 else n.1 - c.1) == 1
  {
    var (x, y) := c;
    match d
    case North => (x, y + 1)
    case East => (x + 1, y)
    case South => (x, y - 1)
    case West => (x - 1, y)
  }

  /** The houses reached, in order, walking `ds` from `c` (not counting `c`). */
  function Walk(c: Coordinates, ds: seq<Direction>): (hs: seq<Coordinates>)
    ensures |hs| == |ds|
    decreases |ds|
  {
    if |ds| == 0 then [] else [Move(c, ds[0])] + Walk(Move(c, ds[0]), ds[1..])
  }

  /** Presents per house after one more present at `c`. */
  function Visit(m: map<Coordinates, nat>, c: Coordinates): (m': map<Coordinates, nat>)
    ensures m'.Keys == m.Keys + {c}
    ensures m'[c] == (if c in m then m[c] else 0) + 1
    ensures forall h :: h in m && h != c ==> m'[h] == m[h]
  {
    m[c := (if c in m then m[c] else 0) + 1]
  }

  /** Presents per house after one present at each house of `hs`, in order. */
  function Deliver(m: map<Coordinates, nat>, hs: seq<Coordinates>): map<Coordinates, nat>
    decreases |hs|
  {
    if |hs| == 0 then m else Deliver(Visit(m, hs[0]), hs[1..])
  }

  /** How often `h` occurs in `hs`. */
  function Occurrences(hs: seq<Coordinates>, h: Coordinates): nat
  {
    if |hs| == 0 then 0 else (if hs[0] == h then 1 else 0) + Occurrences(hs[1..], h)
  }

  /** After delivering, the visited houses are the old ones plus those on the
      way, and each house has one present more per time it was visited. */
  lemma {:induction false} DeliverCounts(m: map<Coordinates, nat>, hs: seq<Coordinates>)
    ensures Deliver(m, hs).Keys == m.Keys + set h | h in hs
    ensures forall h :: h in Deliver(m, hs) ==>
      Deliver(m, hs)[h] == (if h in m then m[h] else 0) + Occurrences(hs, h)
    decreases |hs|
  {
    if |hs| > 0 {
      DeliverCounts(Visit(m, hs[0]), hs[1..]);
      assert (set h | h in hs) == {hs[0]} + set h | h in hs[1..];
    }
  }

  class Town {
    var housePresents: map<Coordinates, nat>

    /** `Town::new`: no presents anywhere. */
    constructor ()
      ensures housePresents == map[]
    {
      housePresents := map[];
    }

    /** `visit_house`: one more present at `c`, returning how many it has. */
    method VisitHouse(c: Coordinates) returns (presents: nat)
      modifies this
      ensures housePresents == Visit(old(housePresents), c)
      ensures presents == housePresents[c] && presents >= 1
    {
      presents := (if c in housePresents then housePresents[c] else 0) + 1;
      housePresents := housePresents[c := presents];
    }

    /** `houses_visited`: the houses with at least one present. */
    function HousesVisited(): nat
      reads this
    {
      |housePresents.Keys|
    }
  }

  class Santa {
    const town: Town
    var coordinates: Coordinates

    /** `Santa::new`: starts at the origin and leaves a present there. */
    constructor (town: Town)
      modifies town
      ensures this.town == town && coordinates == (0, 0)
      ensures town.housePresents == Visit(old(town.housePresents), (0, 0))
    {
      this.town := town;
      coordinates := (0, 0);
      new;
      var _ := town.VisitHouse((0, 0));
    }

    /** `go_to_next_house`: one step, one present at the new house, and the
        number of presents that house now has. */
    method GoToNextHouse(d: Direction) returns (presents: nat)
      modifies this, town
      ensures coordinates == Move(old(coordinates), d)
      ensures town.housePresents == Visit(old(town.housePresents), coordinates)
      ensures presents == town.housePresents[coordinates]
    {
      coordinates := Move(coordinates, d);
      presents := town.VisitHouse(coordinates);
    }
  }

  /** `Santa::visit_town`: a new Santa walks all the directions. */
  method VisitTown(town: Town, directions: seq<Direction>)
    modifies town
    ensures town.housePresents == Deliver(old(town.housePresents), [(0, 0)] + Walk((0, 0), directions))
  {
    var santa := new Santa(town);
    for i := 0 to |directions|
      invariant santa.town == town
      invariant santa.coordinates == if i == 0 then (0, 0) else Walk((0, 0), directions)[i - 1]
      invariant town.housePresents == Deliver(old(town.housePresents), [(0, 0)] + Walk((0, 0), directions)[..i])
    {
      var _ := santa.GoToNextHouse(directions[i]);
      WalkStep((0, 0), directions, i);
      DeliverSnoc(old(town.housePresents), [(0, 0)] + Walk((0, 0), directions)[..i], santa.coordinates);
      assert [(0, 0)] + Walk((0, 0), directions)[..i + 1]
        == [(0, 0)] + Walk((0, 0), directions)[..i] + [santa.coordinates];
    }
    assert Walk((0, 0), directions)[..|directions|] == Walk((0, 0), directions);
  }

  /** The house reached by step `i` is one move from the one before it. */
  lemma {:induction false} WalkStep(c: Coordinates, ds: seq<Direction>, i: nat)
    requires i < |ds|
    ensures Walk(c, ds)[i] == Move(if i == 0 then c else Walk(c, ds)[i - 1], ds[i])
    decreases i
  {
    if i > 0 {
      WalkStep(Move(c, ds[0]), ds[1..], i - 1);
    }
  }

  lemma {:induction false} DeliverSnoc(m: map<Coordinates, nat>, hs: seq<Coordinates>, h: Coordinates)
    ensures Deliver(m, hs + [h]) == Visit(Deliver(m, hs), h)
    decreases |hs|
  {
    if |hs| == 0 {
      assert hs + [h] == [h];
    } else {
      DeliverSnoc(Visit(m, hs[0]), hs[1..], h);
      assert (hs + [h])[1..] == hs[1..] + [h];
    }
  }

  /** Part one: the number of houses one Santa visits is the number of
      distinct places on his walk, the origin included. */
  lemma HousesOfOneSanta(directions: seq<Direction>)
    ensures Deliver(map[], [(0, 0)] + Walk((0, 0), directions)).Keys
      == {(0, 0)} + set h | h in Walk((0, 0), directions)
  {
    var hs := [(0, 0)] + Walk((0, 0), directions);
    DeliverCounts(map[], hs);
    assert (set h | h in hs) == {(0, 0)} + set h | h in Walk((0, 0), directions);
  }

  /** Part two: Santa and Robo-Santa share a town, so the houses visited
      are the origin and the places of both walks. */
  lemma HousesOfTwoSantas(directions: seq<Direction>)
    ensures var (santa, robo) := SplitDirections(directions);
      Deliver(Deliver(map[], [(0, 0)] + Walk((0, 0), santa)), [(0, 0)] + Walk((0, 0), robo)).Keys
      == {(0, 0)} + (set h | h in Walk((0, 0), santa)) + (set h | h in Walk((0, 0), robo))
  {
    var (santa, robo) := SplitDirections(directions);
    var first := [(0, 0)] + Walk((0, 0), santa);
    var second := [(0, 0)] + Walk((0, 0), robo);
    DeliverCounts(map[], first);
    DeliverCounts(Deliver(map[], first), second);
    assert (set h | h in first) == {(0, 0)} + set h | h in Walk((0, 0), santa);
    assert (set h | h in second) == {(0, 0)} + set h | h in Walk((0, 0), robo);
  }

  /** Counting the houses of a walk whose places are known. */
  lemma HousesOfKnownWalk(ds: seq<Direction>, walk: seq<Coordinates>, houses: set<Coordinates>)
    requires Walk((0, 0), ds) == walk
    requires houses == {(0, 0)} + set h | h in walk
    ensures Deliver(map[], [(0, 0)] + Walk((0, 0), ds)).Keys == houses
  {
    HousesOfOneSanta(ds);
  }

  /** The test vectors of part one: ">" reaches 2 houses, "^>v<" 4. */
  lemma OneSantaExamples()
    ensures |Deliver(map[], [(0, 0)] + Walk((0, 0), ParseDirections(">"))).Keys| == 2
    ensures |Deliver(map[], [(0, 0)] + Walk((0, 0), ParseDirections("^>v<"))).Keys| == 4
  {
    OneStepParse();
    OneStepHouses();
    HousesOfKnownWalk([East], [(1, 0)], {(0, 0), (1, 0)});
    SquareParse();
    SquareWalk();
    SquareHouses();
    HousesOfKnownWalk([North, East, South, West], [(0, 1), (1, 1), (1, 0), (0, 0)], {(0, 0), (0, 1), (1, 1), (1, 0)});
  }

  lemma OneStepParse()
    ensures ParseDirections(">") == [East]
  {
  }

  lemma OneStepHouses()
    ensures Walk((0, 0), [East]) == [(1, 0)]
    ensures {(0, 0)} + (set h | h in [(1, 0)]) == {(0, 0), (1, 0)}
    ensures |{(0, 0), (1, 0)}| == 2
  {
    assert (set h | h in [(1, 0)]) == {(1, 0)};
    assert (1, 0) !in {(0, 0)};
  }

  lemma SquareHouses()
    ensures {(0, 0)} + (set h | h in [(0, 1), (1, 1), (1, 0), (0, 0)]) == {(0, 0), (0, 1), (1, 1), (1, 0)}
    ensures |{(0, 0), (0, 1), (1, 1), (1, 0)}| == 4
  {
    var s1: set<Coordinates> := {(0, 0)};
    var s2 := s1 + {(0, 1)};
    var s3 := s2 + {(1, 1)};
    assert |s3| == 3 by {
      assert (0, 1) !in s1 && |s2| == 2;
      assert (1, 1) !in s2;
    }
    assert (1, 0) !in s3;
    assert s3 + {(1, 0)} == {(0, 0), (0, 1), (1, 1), (1, 0)};
  }

  lemma SquareParse()
    ensures ParseDirections("^>v<") == [North, East, South, West]
  {
    var ds := [North, East, South, West];
    ParseArrows(ds);
    assert Arrows(ds) == "^>v<" by {
      assert ds[1..] == [East, South, West];
      assert ds[1..][1..] == [South, West];
      assert ds[1..][1..][1..] == [West];
    }
  }

  lemma SquareWalk()
    ensures Walk((0, 0), [North, East, South, West]) == [(0, 1), (1, 1), (1, 0), (0, 0)]
  {
    var ds := [North, East, South, West];
    assert ds[1..] == [East, South, West];
    assert ds[1..][1..] == [South, West];
    assert ds[1..][1..][1..] == [West];
    assert Walk((1, 0), [West]) == [(0, 0)];
    assert Walk((1, 1), [South, West]) == [(1, 0), (0, 0)];
    assert Walk((0, 1), [East, South, West]) == [(1, 1), (1, 0), (0, 0)];
  }

  /** `n` times up and down again: the arrows "^v" repeated. */
  function ZigZag(n: nat): (ds: seq<Direction>)
    ensures |ds| == 2 * n
  {
    if n == 0 then [] else [North, South] + ZigZag(n - 1)
  }

  lemma {:induction false} ZigZagAt(n: nat, i: nat)
    requires i < 2 * n
    ensures ZigZag(n)[i] == if i % 2 == 0 then North else South
    decreases n
  {
    if i >= 2 {
      ZigZagAt(n - 1, i - 2);
    }
  }

  lemma ZigZagArrows(n: nat)
    requires n > 0
    ensures Arrows(ZigZag(n)) == "^v" + Arrows(ZigZag(n - 1))
  {
    var ds := ZigZag(n);
    assert ds[1..] == [South] + ZigZag(n - 1);
    assert ds[1..][1..] == ZigZag(n - 1);
  }

  lemma ZigZagParse()
    ensures ParseDirections("^v") == ZigZag(1)
    ensures ParseDirections("^v^v^v^v^v") == ZigZag(5)
  {
    ZigZagArrows(1);
    ZigZagArrows(2);
    ZigZagArrows(3);
    ZigZagArrows(4);
    ZigZagArrows(5);
    assert Arrows(ZigZag(1)) == "^v";
    assert Arrows(ZigZag(2)) == "^v^v";
    assert Arrows(ZigZag(3)) == "^v^v^v";
    assert Arrows(ZigZag(4)) == "^v^v^v^v";
    assert Arrows(ZigZag(5)) == "^v^v^v^v^v";
    ParseArrows(ZigZag(1));
    ParseArrows(ZigZag(5));
  }

  lemma {:induction false} ZigZagWalkAt(n: nat, i: nat)
    requires i < 2 * n
    ensures Walk((0, 0), ZigZag(n))[i] == if i % 2 == 0 then (0, 1) else (0, 0)
    decreases i
  {
    WalkStep((0, 0), ZigZag(n), i);
    ZigZagAt(n, i);
    if i > 0 {
      ZigZagWalkAt(n, i - 1);
    }
  }

  /** Going up and down, one Santa only ever stands on two houses. */
  lemma ZigZagOneSanta(n: nat)
    requires n > 0
    ensures (set h | h in Walk((0, 0), ZigZag(n))) == {(0, 1), (0, 0)}
  {
    var w := Walk((0, 0), ZigZag(n));
    forall h | h in w
      ensures h in {(0, 1), (0, 0)}
    {
      var i :| 0 <= i < |w| && w[i] == h;
      ZigZagWalkAt(n, i);
    }
    ZigZagWalkAt(n, 0);
    ZigZagWalkAt(n, 1);
  }

  /** `n` steps in the same direction. */
  function Straight(d: Direction, n: nat): (ds: seq<Direction>)
    ensures |ds| == n && forall i :: 0 <= i < n ==> ds[i] == d
  {
    seq(n, _ => d)
  }

  /** Dealing out "^v" repeated gives Santa every up and Robo-Santa every
      down. */
  lemma ZigZagSplit(n: nat)
    ensures SplitDirections(ZigZag(n)) == (Straight(North, n), Straight(South, n))
  {
    var r := SplitDirections(ZigZag(n));
    forall i | 0 <= i < n
      ensures r.0[i] == North && r.1[i] == South
    {
      ZigZagAt(n, 2 * i);
      ZigZagAt(n, 2 * i + 1);
    }
    assert |r.0| == n && |r.1| == n;
    assert r.0 == Straight(North, n);
    assert r.1 == Straight(South, n);
  }

  lemma {:induction false} StraightWalkAt(d: Direction, n: nat, i: nat)
    requires d == North || d == South
    requires i < n
    ensures Walk((0, 0), Straight(d, n))[i] == (0, if d == North then i + 1 else -(i + 1))
    decreases i
  {
    WalkStep((0, 0), Straight(d, n), i);
    if i > 0 {
      StraightWalkAt(d, n, i - 1);
    }
  }

  /** The houses of the column x = 0 from y = -n to y = n. */
  function Column(n: nat): set<Coordinates>
  {
    if n == 0 then {(0, 0)} else Column(n - 1) + {(0, n), (0, -(n as int))}
  }

  lemma {:induction false} ColumnHas(n: nat, h: Coordinates)
    ensures h in Column(n) <==> h.0 == 0 && -(n as int) <= h.1 <= n
  {
    if n > 0 {
      ColumnHas(n - 1, h);
    }
  }

  lemma {:induction false} ColumnSize(n: nat)
    ensures |Column(n)| == 2 * n + 1
  {
    if n > 0 {
      ColumnSize(n - 1);
      ColumnHas(n - 1, (0, n));
      ColumnHas(n - 1, (0, -(n as int)));
    }
  }

  /** Santa going up `n` times and Robo-Santa going down `n` times cover the
      column from -n to n. */
  lemma UpAndDown(n: nat)
    ensures {(0, 0)} + (set h | h in Walk((0, 0), Straight(North, n)))
      + (set h | h in Walk((0, 0), Straight(South, n))) == Column(n)
  {
    var up := Walk((0, 0), Straight(North, n));
    var down := Walk((0, 0), Straight(South, n));
    var s := {(0, 0)} + (set h | h in up) + (set h | h in down);
    forall h | h in s
      ensures h in Column(n)
    {
      ColumnHas(n, h);
      if h in up {
        var i :| 0 <= i < n && up[i] == h;
        StraightWalkAt(North, n, i);
      } else if h in down {
        var i :| 0 <= i < n && down[i] == h;
        StraightWalkAt(South, n, i);
      }
    }
    forall h | h in Column(n)
      ensures h in s
    {
      ColumnHas(n, h);
      if h.1 > 0 {
        StraightWalkAt(North, n, h.1 - 1);
        assert up[h.1 - 1] == h;
      } else if h.1 < 0 {
        StraightWalkAt(South, n, -h.1 - 1);
        assert down[-h.1 - 1] == h;
      }
    }
  }

  /** The houses two Santas visit on `n` times "^v". */
  lemma ZigZagTwoSantas(n: nat)
    ensures var (santa, robo) := SplitDirections(ZigZag(n));
      |Deliver(Deliver(map[], [(0, 0)] + Walk((0, 0), santa)), [(0, 0)] + Walk((0, 0), robo)).Keys| == 2 * n + 1
  {
    HousesOfTwoSantas(ZigZag(n));
    ZigZagSplit(n);
    UpAndDown(n);
    ColumnSize(n);
  }

  /** The one-Santa test on "^v^v^v^v^v": only 2 houses. */
  lemma OneSantaZigZagExample()
    ensures |Deliver(map[], [(0, 0)] + Walk((0, 0), ParseDirections("^v^v^v^v^v"))).Keys| == 2
  {
    ZigZagParse();
    OneSantaZigZag(5);
  }

  lemma OneSantaZigZag(n: nat)
    requires n > 0
    ensures |Deliver(map[], [(0, 0)] + Walk((0, 0), ZigZag(n))).Keys| == 2
  {
    HousesOfOneSanta(ZigZag(n));
    ZigZagOneSanta(n);
    var houses: set<Coordinates> := {(0, 0), (0, 1)};
    assert |houses| == 2;
    assert {(0, 0)} + {(0, 1), (0, 0)} == houses;
  }

  /** The two-Santa tests on "^v" and "^v^v^v^v^v": 3 and 11 houses. */
  lemma TwoSantasZigZagExamples()
    ensures var (santa, robo) := SplitDirections(ParseDirections("^v"));
      |Deliver(Deliver(map[], [(0, 0)] + Walk((0, 0), santa)), [(0, 0)] + Walk((0, 0), robo)).Keys| == 3
    ensures var (santa, robo) := SplitDirections(ParseDirections("^v^v^v^v^v"));
      |Deliver(Deliver(map[], [(0, 0)] + Walk((0, 0), santa)), [(0, 0)] + Walk((0, 0), robo)).Keys| == 11
  {
    ZigZagParse();
    ZigZagTwoSantas(1);
    ZigZagTwoSantas(5);
  }

  lemma SquareSplit()
    ensures SplitDirections([North, East, South, West]) == ([North, South], [East, West])
  {
    var ds := [North, East, South, West];
    var r := SplitDirections(ds);
    assert |r.0| == 2 && |r.1| == 2;
    assert r.0 == [ds[0], ds[2]];
    assert r.1 == [ds[1], ds[3]];
  }

  lemma BackAndForth()
    ensures Walk((0, 0), [North, South]) == [(0, 1), (0, 0)]
    ensures Walk((0, 0), [East, West]) == [(1, 0), (0, 0)]
  {
    assert [North, South][1..] == [South];
    assert [East, West][1..] == [West];
  }

  /** Counting the houses of two walks whose places are known. */
  lemma HousesOfKnownWalks(santa: seq<Direction>, robo: seq<Direction>,
                           first: seq<Coordinates>, second: seq<Coordinates>, houses: set<Coordinates>)
    requires Walk((0, 0), santa) == first && Walk((0, 0), robo) == second
    requires houses == {(0, 0)} + (set h | h in first) + (set h | h in second)
    ensures Deliver(Deliver(map[], [(0, 0)] + Walk((0, 0), santa)), [(0, 0)] + Walk((0, 0), robo)).Keys == houses
  {
    DeliverCounts(map[], [(0, 0)] + first);
    DeliverCounts(Deliver(map[], [(0, 0)] + first), [(0, 0)] + second);
    assert (set h | h in [(0, 0)] + first) == {(0, 0)} + set h | h in first;
    assert (set h | h in [(0, 0)] + second) == {(0, 0)} + set h | h in second;
  }

  /** The two-Santa test on "^>v<": Santa goes up and back, Robo-Santa right
      and back, 3 houses in all. */
  lemma SquareTwoSantas()
    ensures var (santa, robo) := SplitDirections(ParseDirections("^>v<"));
      |Deliver(Deliver(map[], [(0, 0)] + Walk((0, 0), santa)), [(0, 0)] + Walk((0, 0), robo)).Keys| == 3
  {
    SquareParse();
    SquareSplit();
    UpRightAndBack([North, South], [East, West]);
  }

  lemma UpRightAndBack(santa: seq<Direction>, robo: seq<Direction>)
    requires santa == [North, South] && robo == [East, West]
    ensures |Deliver(Deliver(map[], [(0, 0)] + Walk((0, 0), santa)), [(0, 0)] + Walk((0, 0), robo)).Keys| == 3
  {
    BackAndForth();
    var first, second := [(0, 1), (0, 0)], [(1, 0), (0, 0)];
    assert (set h | h in first) == {(0, 1), (0, 0)};
    assert (set h | h in second) == {(1, 0), (0, 0)};
    var houses: set<Coordinates> := {(0, 0), (0, 1), (1, 0)};
    assert |houses| == 3;
    HousesOfKnownWalks(santa, robo, first, second, houses);
  }
}
