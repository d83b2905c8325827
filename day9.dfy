/** Day 9 (day-9/src/main.rs): Santa's routes between cities. A graph keeps
    the first distance given for each ordered pair of cities; the route
    search walks from a city to unvisited neighbours, in either direction
    of a connection, until it is stuck, and keeps the shortest (or longest)
    total. */
module Day9 {
  import opened Wrappers
  import opened Strings

  type Connections = map<(string, string), nat>

  /** The `cmp` handed to the search: `cmp::min` or `cmp::max`. */
  datatype Criterion = Shortest | Longest

  function Choose(criterion: Criterion, a: nat, b: nat): (r: nat)
    ensures r == a || r == b
    ensures criterion.Shortest? ==> r <= a && r <= b
    ensures criterion.Longest? ==> r >= a && r >= b
  {
    if criterion.Shortest? then Min(a, b) else Max(a, b)
  }

  /** `a` is at least as good as `b`. */
  predicate Better(criterion: Criterion, a: nat, b: nat)
  {
    if criterion.Shortest? then a <= b else a >= b
  }

  /** `r` is a value of `values` at least as good as all of them. */
  predicate IsBest(criterion: Criterion, r: nat, values: set<nat>)
  {
    r in values && forall v :: v in values ==> Better(criterion, r, v)
  }

  /** The best value of a non-empty set. */
  ghost function Best(criterion: Criterion, values: set<nat>): (r: nat)
    requires values != {}
    ensures r in values && forall v :: v in values ==> Better(criterion, r, v)
  {
    BestExists(criterion, values);
    var r :| IsBest(criterion, r, values);
    r
  }

  lemma {:induction false} BestExists(criterion: Criterion, values: set<nat>)
    requires values != {}
    ensures exists r :: IsBest(criterion, r, values)
    decreases |values|
  {
    var x :| x in values;
    if values != {x} {
      var rest := values - {x};
      BestExists(criterion, rest);
      var r :| IsBest(criterion, r, rest);
      var c := Choose(criterion, r, x);
      forall v | v in values
        ensures Better(criterion, c, v)
      {
        if v != x {
          assert v in rest;
        }
      }
      assert IsBest(criterion, c, values);
    } else {
      assert IsBest(criterion, x, values);
    }
  }

  /** Adding one value to a set changes its best value as `cmp` says. */
  lemma BestAdd(criterion: Criterion, values: set<nat>, x: nat)
    requires values != {}
    ensures Best(criterion, values + {x}) == Choose(criterion, Best(criterion, values), x)
  {
    var b := Best(criterion, values + {x});
    var c := Choose(criterion, Best(criterion, values), x);
    assert Better(criterion, c, b) && Better(criterion, b, c);
  }

  /** Moving one element from `remaining` to `done` keeps their union and
      their disjointness and shrinks `remaining`. */
  lemma MoveOne<T>(remaining: set<T>, done: set<T>, o: T)
    requires o in remaining && remaining !! done
    ensures remaining - {o} + (done + {o}) == remaining + done
    ensures (remaining - {o}) !! (done + {o})
    ensures |remaining - {o}| < |remaining|
  {
    assert remaining == remaining - {o} + {o};
  }

  /** Every city named by a connection. */
  function Cities(connections: Connections): set<string>
  {
    (set k | k in connections :: k.0) + (set k | k in connections :: k.1)
  }

  /** The city at the other end of connection `k`, seen from `city`. */
  function OtherEnd(k: (string, string), city: string): (r: Option<string>)
    ensures r.Some? ==> (k.0 == city && r.value == k.1) || (k.1 == city && r.value == k.0)
    ensures r.None? <==> k.0 != city && k.1 != city
  {
    if k.0 == city then Some(k.1) else if k.1 == city then Some(k.0) else None
  }

  /** The connections the search follows from `city`: its neighbours, in
      either direction, that are not on the stack, with their distance. */
  function Options(connections: Connections, city: string, stack: seq<string>): set<(string, nat)>
  {
    set k | k in connections && OtherEnd(k, city).Some? && OtherEnd(k, city).value !in stack
      :: (OtherEnd(k, city).value, connections[k])
  }

  /** Connections are used in both directions. */
  lemma OptionsBothWays(connections: Connections, a: string, b: string, stack: seq<string>)
    requires (a, b) in connections && b !in stack
    ensures a != b ==> (b, connections[(a, b)]) in Options(connections, a, stack)
    ensures a != b && a !in stack ==> (a, connections[(a, b)]) in Options(connections, b, stack)
  {
    assert OtherEnd((a, b), a) == Some(b);
    if a != b {
      assert OtherEnd((a, b), b) == Some(a);
    }
  }

  function ToSet(s: seq<string>): set<string>
  {
    set x | x in s
  }

  /** The search never leaves the stack: how many cities are still free. */
  function Free(connections: Connections, stack: seq<string>, city: string): nat
  {
    |Cities(connections) - (ToSet(stack) + {city})|
  }

  /** Following an option takes a city off the free ones. */
  lemma FreeDecreases(connections: Connections, stack: seq<string>, city: string, o: (string, nat))
    requires o in Options(connections, city, stack + [city])
    ensures o.0 in Cities(connections) && o.0 !in stack + [city]
    ensures Free(connections, stack + [city], o.0) < Free(connections, stack, city)
  {
    var k :| k in connections && OtherEnd(k, city).Some? && OtherEnd(k, city).value !in stack + [city]
      && o == (OtherEnd(k, city).value, connections[k]);
    assert o.0 in Cities(connections);
    var before := Cities(connections) - (ToSet(stack) + {city});
    var after := Cities(connections) - (ToSet(stack + [city]) + {o.0});
    assert after == before - {o.0};
  }

  /** What `find_route_inner` computes from `city` with `stack` already
      visited: 0 when no neighbour is free, otherwise the best, over the
      free neighbours, of the distance to it plus the route from it. */
  ghost function RouteFrom(connections: Connections, criterion: Criterion, city: string, stack: seq<string>): nat
    decreases Free(connections, stack, city)
  {
    var next := stack + [city];
    var options := Options(connections, city, next);
    if options == {} then 0
    else
      Best(criterion, Legs(connections, criterion, city, stack, options))
  }

  /** The totals of following each of `chosen` from `city`. */
  ghost function Legs(connections: Connections, criterion: Criterion, city: string, stack: seq<string>, chosen: set<(string, nat)>): (r: set<nat>)
    requires chosen <= Options(connections, city, stack + [city])
    ensures chosen != {} ==> r != {}
    decreases Free(connections, stack, city), 1
  {
    var r := set o | o in chosen :: Leg(connections, criterion, city, stack, o);
    if chosen != {} then
      var o :| o in chosen;
      assert Leg(connections, criterion, city, stack, o) in r;
      r
    else r
  }

  /** The routes from each of `starts` with nothing visited yet. */
  ghost function Routes(connections: Connections, criterion: Criterion, starts: set<string>): (r: set<nat>)
    ensures starts != {} ==> r != {}
  {
    var r := set a | a in starts :: RouteFrom(connections, criterion, a, []);
    if starts != {} then
      var a :| a in starts;
      assert RouteFrom(connections, criterion, a, []) in r;
      r
    else r
  }

  /** Following option `o` from `city`: its distance plus the route on. */
  ghost function Leg(connections: Connections, criterion: Criterion, city: string, stack: seq<string>, o: (string, nat)): nat
    requires o in Options(connections, city, stack + [city])
    decreases Free(connections, stack, city), 0
  {
    FreeDecreases(connections, stack, city, o);
    RouteFrom(connections, criterion, o.0, stack + [city]) + o.1
  }

  lemma LegIn(connections: Connections, criterion: Criterion, city: string, stack: seq<string>,
              chosen: set<(string, nat)>, o: (string, nat))
    requires chosen <= Options(connections, city, stack + [city]) && o in chosen
    ensures Leg(connections, criterion, city, stack, o) in Legs(connections, criterion, city, stack, chosen)
  {
  }

  /** The totals of following two options. */
  lemma LegsTwo(connections: Connections, criterion: Criterion, city: string, stack: seq<string>,
                o1: (string, nat), o2: (string, nat))
    requires {o1, o2} <= Options(connections, city, stack + [city])
    ensures Legs(connections, criterion, city, stack, {o1, o2})
      == {Leg(connections, criterion, city, stack, o1), Leg(connections, criterion, city, stack, o2)}
  {
    LegsAdd(connections, criterion, city, stack, {}, o1);
    LegsAdd(connections, criterion, city, stack, {o1}, o2);
    assert Legs(connections, criterion, city, stack, {}) == {};
    assert {} + {o1} == {o1} && {o1} + {o2} == {o1, o2};
  }

  lemma LegsAdd(connections: Connections, criterion: Criterion, city: string, stack: seq<string>,
                done: set<(string, nat)>, o: (string, nat))
    requires done + {o} <= Options(connections, city, stack + [city])
    ensures Legs(connections, criterion, city, stack, done + {o})
      == Legs(connections, criterion, city, stack, done) + {Leg(connections, criterion, city, stack, o)}
  {
    LegIn(connections, criterion, city, stack, done + {o}, o);
    var after := Legs(connections, criterion, city, stack, done + {o});
    var before := Legs(connections, criterion, city, stack, done);
    forall v | v in after
      ensures v in before || v == Leg(connections, criterion, city, stack, o)
    {
      var p := LegFor(connections, criterion, city, stack, done + {o}, v);
      if p != o {
        assert p in done;
      }
    }
    forall v | v in before
      ensures v in after
    {
      var p := LegFor(connections, criterion, city, stack, done, v);
      LegIn(connections, criterion, city, stack, done + {o}, p);
    }
  }

  /** The starting node a total of `Routes` comes from. */
  lemma RouteFor(connections: Connections, criterion: Criterion, starts: set<string>, v: nat) returns (a: string)
    requires v in Routes(connections, criterion, starts)
    ensures a in starts && RouteFrom(connections, criterion, a, []) == v
  {
    a :| a in starts && RouteFrom(connections, criterion, a, []) == v;
  }

  lemma RoutesAdd(connections: Connections, criterion: Criterion, done: set<string>, a: string)
    ensures Routes(connections, criterion, done + {a})
      == Routes(connections, criterion, done) + {RouteFrom(connections, criterion, a, [])}
  {
    var after := Routes(connections, criterion, done + {a});
    var before := Routes(connections, criterion, done);
    forall v | v in after
      ensures v in before || v == RouteFrom(connections, criterion, a, [])
    {
      var c := RouteFor(connections, criterion, done + {a}, v);
      if c != a {
        assert c in done;
      }
    }
    forall v | v in before
      ensures v in after
    {
      var c := RouteFor(connections, criterion, done, v);
      assert c in done + {a};
    }
  }

  /** `optimal` is what the source's `fold` holds after following `done`:
      nothing before the first, the best so far after. */
  ghost predicate Folded(connections: Connections, criterion: Criterion, city: string, stack: seq<string>,
                         done: set<(string, nat)>, optimal: Option<nat>)
  {
    && done <= Options(connections, city, stack + [city])
    && (done == {} ==> optimal.None?)
    && (done != {} ==> optimal == Some(Best(criterion, Legs(connections, criterion, city, stack, done))))
  }

  /** Folding one more option into the best so far, as the source's `fold`
      does: the first one is taken as it is, later ones are combined with
      `cmp`. */
  lemma LegsStep(connections: Connections, criterion: Criterion, city: string, stack: seq<string>,
                 done: set<(string, nat)>, o: (string, nat), optimal: Option<nat>, d: nat)
    requires o in Options(connections, city, stack + [city])
    requires Folded(connections, criterion, city, stack, done, optimal)
    requires d == RouteFrom(connections, criterion, o.0, stack + [city]) + o.1
    ensures Folded(connections, criterion, city, stack, done + {o},
                   Some(match optimal
                        case Some(value) => Choose(criterion, value, d)
                        case None => d))
  {
    var leg := Leg(connections, criterion, city, stack, o);
    assert leg == d;
    var before := Legs(connections, criterion, city, stack, done);
    LegsAdd(connections, criterion, city, stack, done, o);
    if done != {} {
      BestAdd(criterion, before, leg);
    } else {
      assert before + {leg} == {leg};
    }
  }

  /** The same for the starting nodes in `find_route`. */
  lemma RoutesStep(connections: Connections, criterion: Criterion, done: set<string>, a: string, optimal: Option<nat>)
    requires done == {} ==> optimal.None?
    requires done != {} ==> optimal == Some(Best(criterion, Routes(connections, criterion, done)))
    ensures var route := RouteFrom(connections, criterion, a, []);
      (match optimal
       case Some(value) => Choose(criterion, value, route)
       case None => route) == Best(criterion, Routes(connections, criterion, done + {a}))
  {
    var route := RouteFrom(connections, criterion, a, []);
    var before := Routes(connections, criterion, done);
    RoutesAdd(connections, criterion, done, a);
    if done != {} {
      BestAdd(criterion, before, route);
    } else {
      assert before + {route} == {route};
    }
  }

  /** A walk from `city`: each step goes to a free neighbour, and the walk
      ends where no neighbour is free. */
  ghost predicate IsWalk(connections: Connections, city: string, stack: seq<string>, walk: seq<(string, nat)>)
    decreases |walk|
  {
    var options := Options(connections, city, stack + [city]);
    if |walk| == 0 then options == {}
    else walk[0] in options && IsWalk(connections, walk[0].0, stack + [city], walk[1..])
  }

  function Cost(walk: seq<(string, nat)>): nat
  {
    if |walk| == 0 then 0 else walk[0].1 + Cost(walk[1..])
  }

  /** The option a total of `Legs` comes from. */
  lemma LegFor(connections: Connections, criterion: Criterion, city: string, stack: seq<string>,
               chosen: set<(string, nat)>, v: nat) returns (o: (string, nat))
    requires chosen <= Options(connections, city, stack + [city])
    requires v in Legs(connections, criterion, city, stack, chosen)
    ensures o in chosen && Leg(connections, criterion, city, stack, o) == v
  {
    o :| o in chosen && Leg(connections, criterion, city, stack, o) == v;
  }

  /** `walk` is a walk from `city` whose cost is the route the search reports. */
  ghost predicate Achieves(connections: Connections, criterion: Criterion, city: string, stack: seq<string>,
                           walk: seq<(string, nat)>)
  {
    IsWalk(connections, city, stack, walk) && Cost(walk) == RouteFrom(connections, criterion, city, stack)
  }

  /** Some walk from `city` has the cost the search reports. */
  lemma RouteAchieved(connections: Connections, criterion: Criterion, city: string, stack: seq<string>)
    ensures exists walk :: Achieves(connections, criterion, city, stack, walk)
  {
    var walk := AchievingWalk(connections, criterion, city, stack);
  }

  /** The walk that follows the best option at every step. */
  lemma {:induction false} AchievingWalk(connections: Connections, criterion: Criterion, city: string, stack: seq<string>)
    returns (walk: seq<(string, nat)>)
    ensures Achieves(connections, criterion, city, stack, walk)
    decreases Free(connections, stack, city)
  {
    var next := stack + [city];
    var options := Options(connections, city, next);
    if options == {} {
      DeadEnd(connections, criterion, city, stack);
      walk := [];
    } else {
      var o := LegFor(connections, criterion, city, stack, options,
                      Best(criterion, Legs(connections, criterion, city, stack, options)));
      FreeDecreases(connections, stack, city, o);
      var rest := AchievingWalk(connections, criterion, o.0, next);
      AchievesStep(connections, criterion, city, stack, o, rest);
      walk := [o] + rest;
    }
  }

  /** Following the best option and then a walk achieving the route from
      there achieves the route from `city`. */
  lemma AchievesStep(connections: Connections, criterion: Criterion, city: string, stack: seq<string>,
                     o: (string, nat), rest: seq<(string, nat)>)
    requires o in Options(connections, city, stack + [city])
    requires Leg(connections, criterion, city, stack, o)
      == Best(criterion, Legs(connections, criterion, city, stack, Options(connections, city, stack + [city])))
    requires Achieves(connections, criterion, o.0, stack + [city], rest)
    ensures Achieves(connections, criterion, city, stack, [o] + rest)
  {
    var walk := [o] + rest;
    assert walk[1..] == rest && walk[0] == o;
    assert IsWalk(connections, city, stack, walk);
    assert Cost(walk) == o.1 + Cost(rest);
  }

  /** No walk from `city` beats the route the search reports. */
  lemma {:induction false} RouteOptimal(connections: Connections, criterion: Criterion, city: string, stack: seq<string>, walk: seq<(string, nat)>)
    requires IsWalk(connections, city, stack, walk)
    ensures Better(criterion, RouteFrom(connections, criterion, city, stack), Cost(walk))
    decreases |walk|
  {
    if |walk| > 0 {
      var next := stack + [city];
      var o := walk[0];
      FreeDecreases(connections, stack, city, o);
      RouteOptimal(connections, criterion, o.0, next, walk[1..]);
      var values := Legs(connections, criterion, city, stack, Options(connections, city, next));
      LegIn(connections, criterion, city, stack, Options(connections, city, next), o);
    }
  }

  /** A city without free neighbours ends the route: it adds 0. */
  lemma DeadEnd(connections: Connections, criterion: Criterion, city: string, stack: seq<string>)
    requires Options(connections, city, stack + [city]) == {}
    ensures RouteFrom(connections, criterion, city, stack) == 0
  {
  }

  /** The stack `find_route_inner` pushes to and pops from. */
  class Stack {
    var items: seq<string>

    constructor()
      ensures items == []
    {
      items := [];
    }

    method Push(city: string)
      modifies this
      ensures items == old(items) + [city]
    {
      items := items + [city];
    }

    method Pop()
      requires |items| > 0
      modifies this
      ensures items == old(items)[..|old(items)| - 1]
    {
      items := items[..|items| - 1];
    }
  }

  class Graph {
    var nodes: set<string>
    var connections: Connections

    /** Every node is named by a connection and every connection's ends are
        nodes. */
    predicate Valid()
      reads this
    {
      nodes == Cities(connections)
    }

    constructor()
      ensures nodes == {} && connections == map[] && Valid()
    {
      nodes := {};
      connections := map[];
    }

    /** `add_connection`: the first distance recorded for an ordered pair
        is kept; both cities become nodes. */
    method AddConnection(a: string, b: string, distance: nat)
      requires Valid()
      modifies this
      ensures Valid()
      ensures (a, b) in old(connections) ==> connections == old(connections)
      ensures (a, b) !in old(connections) ==> connections == old(connections)[(a, b) := distance]
      ensures nodes == old(nodes) + {a, b}
    {
      if (a, b) !in connections {
        connections := connections[(a, b) := distance];
      }
      nodes := nodes + {a, b};
      assert Cities(connections) == old(Cities(connections)) + {a, b} by {
        assert (a, b) in connections;
      }
    }

    /** `find_route_inner`: push `city`, follow every free neighbour in
        whatever order the map yields them, combine with `cmp`, pop. */
    method FindRouteInner(city: string, stack: Stack, criterion: Criterion) returns (r: Option<nat>)
      modifies stack
      ensures stack.items == old(stack.items)
      ensures r == Some(RouteFrom(connections, criterion, city, old(stack.items)))
      decreases Free(connections, stack.items, city), 1
    {
      ghost var entry := stack.items;
      stack.Push(city);
      var options := Options(connections, city, stack.items);
      var optimal: Option<nat>;
      if options == {} {
        optimal := Some(0);
      } else {
        optimal := FollowOptions(city, entry, options, {}, None, stack, criterion);
        assert options + {} == options;
      }
      stack.Pop();
      assert stack.items == entry;
      r := optimal;
    }

    /** The `fold` of `find_route_inner` over the free neighbours, taken in
        whatever order the map yields them, with `city` on top of the
        stack: `done` have been followed, giving `optimal`, and `remaining`
        are still to follow. */
    method FollowOptions(city: string, ghost entry: seq<string>, remaining: set<(string, nat)>,
                         ghost done: set<(string, nat)>, optimal: Option<nat>, stack: Stack, criterion: Criterion)
      returns (r: Option<nat>)
      requires stack.items == entry + [city]
      requires remaining + done == Options(connections, city, stack.items) && remaining !! done
      requires remaining + done != {}
      requires Folded(connections, criterion, city, entry, done, optimal)
      modifies stack
      ensures stack.items == old(stack.items)
      ensures r == Some(Best(criterion, Legs(connections, criterion, city, entry, remaining + done)))
      decreases Free(connections, entry, city), 0, |remaining|
    {
      if remaining == {} {
        assert remaining + done == done;
        r := optimal;
      } else {
        var o :| o in remaining;
        FreeDecreases(connections, entry, city, o);
        var sub := FindRouteInner(o.0, stack, criterion);
        // The recursion always yields a route, so the source's `map`s
        // never see None.
        var d: nat := sub.value + o.1;
        LegsStep(connections, criterion, city, entry, done, o, optimal, d);
        var next: Option<nat> := Some(match optimal
                         case Some(value) => Choose(criterion, value, d)
                         case None => d);
        MoveOne(remaining, done, o);
        r := FollowOptions(city, entry, remaining - {o}, done + {o}, next, stack, criterion);
      }
    }

    /** `find_route`: the best route over every starting node, or None for
        a graph without nodes. */
    method FindRoute(criterion: Criterion) returns (r: Option<nat>)
      ensures nodes == {} ==> r == None
      ensures nodes != {} ==> r == Some(Best(criterion, Routes(connections, criterion, nodes)))
    {
      var stack := new Stack();
      var optimal: Option<nat> := None;
      var remaining := nodes;
      ghost var done: set<string> := {};
      while remaining != {}
        invariant remaining + done == nodes && remaining !! done
        invariant stack.items == []
        invariant done == {} ==> optimal.None?
        invariant done != {} ==> optimal == Some(Best(criterion, Routes(connections, criterion, done)))
        decreases remaining
      {
        var a :| a in remaining;
        var sub := FindRouteInner(a, stack, criterion);
        RoutesStep(connections, criterion, done, a, optimal);
        var d := sub.value;
        optimal := Some(match optimal
                        case Some(value) => Choose(criterion, value, d)
                        case None => d);
        remaining := remaining - {a};
        done := done + {a};
      }
      assert done == nodes;
      r := optimal;
    }

    /** `find_shortest_route` */
    method FindShortestRoute() returns (r: Option<nat>)
      ensures nodes == {} ==> r == None
      ensures nodes != {} ==> r == Some(Best(Shortest, Routes(connections, Shortest, nodes)))
    {
      r := FindRoute(Shortest);
    }

    /** `find_longest_route` */
    method FindLongestRoute() returns (r: Option<nat>)
      ensures nodes == {} ==> r == None
      ensures nodes != {} ==> r == Some(Best(Longest, Routes(connections, Longest, nodes)))
    {
      r := FindRoute(Longest);
    }

    /** `parse_connections`: every line reads `A to B = distance`; a line
        that does not stops the parse with `false` (the source panics). */
    method ParseConnections(lines: seq<string>) returns (ok: bool)
      requires Valid()
      modifies this
      ensures Valid()
      ensures ok ==> forall i :: 0 <= i < |lines| ==> ParseConnection(lines[i]).Some?
      ensures ok ==> connections == Connected(old(connections), lines)
    {
      var i := 0;
      while i < |lines|
        invariant 0 <= i <= |lines| && Valid()
        invariant forall j :: 0 <= j < i ==> ParseConnection(lines[j]).Some?
        invariant Connected(old(connections), lines) == Connected(connections, lines[i..])
      {
        assert lines[i..][1..] == lines[i + 1..];
        match ParseConnection(lines[i])
        case None =>
          return false;
        case Some(c) =>
          AddConnection(c.0, c.1, c.2);
        i := i + 1;
      }
      return true;
    }
  }

  /** One line `A to B = distance`: the first, third and fifth words. */
  function ParseConnection(line: string): (r: Option<(string, string, nat)>)
    ensures r.Some? <==> |Words(line)| >= 5 && ParseUsize(Words(line)[4]).Some?
    ensures r.Some? ==> r.value.0 == Words(line)[0] && r.value.1 == Words(line)[2]
    ensures r.Some? ==> Some(r.value.2) == ParseUsize(Words(line)[4])
  {
    var words := Words(line);
    if |words| < 5 then None
    else
      match ParseUsize(words[4])
      case None => None
      case Some(d) => Some((words[0], words[2], d))
  }

  /** The partner of `ParseConnection`: the line that states a connection
      reads back as that connection. */
  lemma ParseConnectionText(a: string, b: string, distance: nat)
    requires |a| > 0 && NoWhitespace(a) && |b| > 0 && NoWhitespace(b)
    requires distance <= UsizeMax
    ensures ParseConnection(Unwords([a, "to", b, "=", Decimal(distance)])) == Some((a, b, distance))
  {
    var ws := [a, "to", b, "=", Decimal(distance)];
    DecimalWord(distance);
    forall i | 0 <= i < |ws|
      ensures |ws[i]| > 0 && NoWhitespace(ws[i])
    {
    }
    WordsUnwords(ws);
    ParseUsizeDecimal(distance);
  }

  /** The connections after adding every parsable line in order. */
  function Connected(connections: Connections, lines: seq<string>): Connections
    decreases |lines|
  {
    if |lines| == 0 then connections
    else
      match ParseConnection(lines[0])
      case None => Connected(connections, lines[1..])
      case Some(c) =>
        Connected(if (c.0, c.1) in connections then connections else connections[(c.0, c.1) := c.2], lines[1..])
  }
}

module Day9Example {
  import opened Wrappers
  import opened Day9

  /** Three cities, every pair connected once. */
  function Triangle(a: string, b: string, c: string, x: nat, y: nat, z: nat): Connections
  {
    map[(a, b) := x, (a, c) := y, (b, c) := z]
  }

  /** The distance between two different corners of the triangle. */
  function Distance(a: string, b: string, c: string, x: nat, y: nat, z: nat, u: string, v: string): nat
  {
    if {u, v} == {a, b} then x else if {u, v} == {a, c} then y else z
  }

  predicate Corners(a: string, b: string, c: string, p: string, q: string, r: string)
  {
    a != b && a != c && b != c && {p, q, r} == {a, b, c} && p != q && p != r && q != r
  }

  /** The connection between two different corners. */
  lemma Edge(a: string, b: string, c: string, x: nat, y: nat, z: nat, u: string, v: string) returns (k: (string, string))
    requires a != b && a != c && b != c && u in {a, b, c} && v in {a, b, c} && u != v
    ensures var t := Triangle(a, b, c, x, y, z);
      && k in t && {k.0, k.1} == {u, v} && t[k] == Distance(a, b, c, x, y, z, u, v)
      && OtherEnd(k, u) == Some(v)
  {
    if {u, v} == {a, b} {
      k := (a, b);
    } else if {u, v} == {a, c} {
      k := (a, c);
    } else {
      assert {u, v} == {b, c};
      k := (b, c);
    }
  }

  /** Every option from `u` leads to a corner not on `stack`, at its
      distance. */
  lemma OptionsWithin(a: string, b: string, c: string, x: nat, y: nat, z: nat, u: string, stack: seq<string>, o: (string, nat))
    requires a != b && a != c && b != c && u in {a, b, c} && u in stack
    requires o in Options(Triangle(a, b, c, x, y, z), u, stack)
    ensures o.0 in {a, b, c} && o.0 !in stack && o.1 == Distance(a, b, c, x, y, z, u, o.0)
  {
    var t := Triangle(a, b, c, x, y, z);
    var k :| k in t && OtherEnd(k, u).Some? && OtherEnd(k, u).value !in stack && o == (OtherEnd(k, u).value, t[k]);
  }

  lemma TriangleOptions(a: string, b: string, c: string, x: nat, y: nat, z: nat, p: string, q: string, r: string)
    requires Corners(a, b, c, p, q, r)
    ensures var t := Triangle(a, b, c, x, y, z);
      && Options(t, r, [p, q, r]) == {}
      && Options(t, q, [p, q]) == {(r, Distance(a, b, c, x, y, z, q, r))}
      && Options(t, p, [p]) == {(q, Distance(a, b, c, x, y, z, p, q)), (r, Distance(a, b, c, x, y, z, p, r))}
  {
    OptionsAtLast(a, b, c, x, y, z, p, q, r);
    OptionsAtSecond(a, b, c, x, y, z, p, q, r);
    OptionsAtFirst(a, b, c, x, y, z, p, q, r);
  }

  lemma OptionsAtLast(a: string, b: string, c: string, x: nat, y: nat, z: nat, p: string, q: string, r: string)
    requires Corners(a, b, c, p, q, r)
    ensures Options(Triangle(a, b, c, x, y, z), r, [p, q, r]) == {}
  {
    var t := Triangle(a, b, c, x, y, z);
    forall o | o in Options(t, r, [p, q, r])
      ensures false
    {
      OptionsWithin(a, b, c, x, y, z, r, [p, q, r], o);
    }
  }

  lemma OptionsAtSecond(a: string, b: string, c: string, x: nat, y: nat, z: nat, p: string, q: string, r: string)
    requires Corners(a, b, c, p, q, r)
    ensures Options(Triangle(a, b, c, x, y, z), q, [p, q]) == {(r, Distance(a, b, c, x, y, z, q, r))}
  {
    var t := Triangle(a, b, c, x, y, z);
    var qr := Edge(a, b, c, x, y, z, q, r);
    forall o | o in Options(t, q, [p, q])
      ensures o == (r, Distance(a, b, c, x, y, z, q, r))
    {
      OptionsWithin(a, b, c, x, y, z, q, [p, q], o);
    }
  }

  lemma OptionsAtFirst(a: string, b: string, c: string, x: nat, y: nat, z: nat, p: string, q: string, r: string)
    requires Corners(a, b, c, p, q, r)
    ensures Options(Triangle(a, b, c, x, y, z), p, [p])
      == {(q, Distance(a, b, c, x, y, z, p, q)), (r, Distance(a, b, c, x, y, z, p, r))}
  {
    var t := Triangle(a, b, c, x, y, z);
    var pq := Edge(a, b, c, x, y, z, p, q);
    var pr := Edge(a, b, c, x, y, z, p, r);
    forall o | o in Options(t, p, [p])
      ensures o == (q, Distance(a, b, c, x, y, z, p, q)) || o == (r, Distance(a, b, c, x, y, z, p, r))
    {
      OptionsWithin(a, b, c, x, y, z, p, [p], o);
    }
  }

  lemma BestSingle(criterion: Criterion, v: nat)
    ensures Best(criterion, {v}) == v
  {
  }

  lemma BestPair(criterion: Criterion, u: nat, v: nat)
    ensures Best(criterion, {u, v}) == Choose(criterion, u, v)
  {
    BestSingle(criterion, u);
    BestAdd(criterion, {u}, v);
    assert {u} + {v} == {u, v};
  }

  /** From the second corner only the third is left. */
  lemma TriangleSecond(a: string, b: string, c: string, x: nat, y: nat, z: nat, p: string, q: string, r: string, criterion: Criterion)
    requires Corners(a, b, c, p, q, r)
    ensures RouteFrom(Triangle(a, b, c, x, y, z), criterion, q, [p]) == Distance(a, b, c, x, y, z, q, r)
  {
    var t := Triangle(a, b, c, x, y, z);
    var d := Distance(a, b, c, x, y, z, q, r);
    TriangleOptions(a, b, c, x, y, z, p, q, r);
    assert [p] + [q] == [p, q] && [p, q] + [r] == [p, q, r];
    DeadEnd(t, criterion, r, [p, q]);
    var o := (r, d);
    LegsAdd(t, criterion, q, [p], {}, o);
    assert Legs(t, criterion, q, [p], {}) == {};
    assert {} + {o} == {o};
    assert Leg(t, criterion, q, [p], o) == d;
    BestSingle(criterion, d);
  }

  /** From the first corner, the better of the two ways round. */
  lemma TriangleRoute(a: string, b: string, c: string, x: nat, y: nat, z: nat, p: string, q: string, r: string, criterion: Criterion)
    requires Corners(a, b, c, p, q, r)
    ensures RouteFrom(Triangle(a, b, c, x, y, z), criterion, p, [])
      == Choose(criterion, Distance(a, b, c, x, y, z, p, q) + Distance(a, b, c, x, y, z, q, r),
                           Distance(a, b, c, x, y, z, p, r) + Distance(a, b, c, x, y, z, r, q))
  {
    var t := Triangle(a, b, c, x, y, z);
    var dq := Distance(a, b, c, x, y, z, p, q);
    var dr := Distance(a, b, c, x, y, z, p, r);
    TriangleOptions(a, b, c, x, y, z, p, q, r);
    assert [] + [p] == [p];
    TriangleSecond(a, b, c, x, y, z, p, q, r, criterion);
    TriangleSecond(a, b, c, x, y, z, p, r, q, criterion);
    var oq := (q, dq);
    var or := (r, dr);
    LegsTwo(t, criterion, p, [], oq, or);
    var lq := Leg(t, criterion, p, [], oq);
    var lr := Leg(t, criterion, p, [], or);
    BestPair(criterion, lq, lr);
  }

  /** The best over the three starting corners. */
  lemma TriangleBest(a: string, b: string, c: string, x: nat, y: nat, z: nat, criterion: Criterion)
    requires a != b && a != c && b != c
    ensures var t := Triangle(a, b, c, x, y, z);
      Best(criterion, Routes(t, criterion, {a, b, c}))
      == Choose(criterion, Choose(criterion, RouteFrom(t, criterion, a, []), RouteFrom(t, criterion, b, [])),
                           RouteFrom(t, criterion, c, []))
  {
    var t := Triangle(a, b, c, x, y, z);
    var ra, rb, rc := RouteFrom(t, criterion, a, []), RouteFrom(t, criterion, b, []), RouteFrom(t, criterion, c, []);
    RoutesAdd(t, criterion, {}, a);
    RoutesAdd(t, criterion, {a}, b);
    RoutesAdd(t, criterion, {a, b}, c);
    assert Routes(t, criterion, {}) == {};
    assert {} + {a} == {a} && {a} + {b} == {a, b} && {a, b} + {c} == {a, b, c};
    assert Routes(t, criterion, {a, b}) == {ra, rb};
    BestPair(criterion, ra, rb);
    BestAdd(criterion, {ra, rb}, rc);
    assert {ra, rb} + {rc} == Routes(t, criterion, {a, b, c});
  }

  /** The three cities of the route test. */
  const TestConnections := Triangle("London", "Dublin", "Belfast", 464, 518, 141)

  lemma TestDistances()
    ensures var (a, b, c) := ("London", "Dublin", "Belfast");
      && Distance(a, b, c, 464, 518, 141, a, b) == 464 && Distance(a, b, c, 464, 518, 141, b, a) == 464
      && Distance(a, b, c, 464, 518, 141, a, c) == 518 && Distance(a, b, c, 464, 518, 141, c, a) == 518
      && Distance(a, b, c, 464, 518, 141, b, c) == 141 && Distance(a, b, c, 464, 518, 141, c, b) == 141
  {
    var a, b, c := "London", "Dublin", "Belfast";
    assert {a, b} == {b, a} && {a, c} == {c, a} && {b, c} == {c, b};
    assert {b, c} != {a, b} && {b, c} != {a, c} && {a, c} != {a, b} by {
      assert a !in {b, c} && b !in {a, c} && c !in {a, b};
    }
  }

  lemma TestRoutes(criterion: Criterion)
    ensures RouteFrom(TestConnections, criterion, "London", []) == Choose(criterion, 464 + 141, 518 + 141)
    ensures RouteFrom(TestConnections, criterion, "Dublin", []) == Choose(criterion, 464 + 518, 141 + 518)
    ensures RouteFrom(TestConnections, criterion, "Belfast", []) == Choose(criterion, 518 + 464, 141 + 464)
  {
    var a, b, c := "London", "Dublin", "Belfast";
    TestDistances();
    assert Corners(a, b, c, a, b, c) && Corners(a, b, c, b, a, c) && Corners(a, b, c, c, a, b) by {
      assert {a, b, c} == {b, a, c} == {c, a, b};
    }
    TriangleRoute(a, b, c, 464, 518, 141, a, b, c, criterion);
    TriangleRoute(a, b, c, 464, 518, 141, b, a, c, criterion);
    TriangleRoute(a, b, c, 464, 518, 141, c, a, b, criterion);
  }

  /** The shortest route is 605 and the longest 982. */
  lemma TestBest()
    ensures Best(Shortest, Routes(TestConnections, Shortest, {"London", "Dublin", "Belfast"})) == 605
    ensures Best(Longest, Routes(TestConnections, Longest, {"London", "Dublin", "Belfast"})) == 982
  {
    TestRoutes(Shortest);
    TestRoutes(Longest);
    TriangleBest("London", "Dublin", "Belfast", 464, 518, 141, Shortest);
    TriangleBest("London", "Dublin", "Belfast", 464, 518, 141, Longest);
  }

  /** The route tests: the graph built by three `add_connection` calls. */
  method RouteTest() returns (shortest: Option<nat>, longest: Option<nat>)
    ensures shortest == Some(605) && longest == Some(982)
  {
    var graph := new Graph();
    graph.AddConnection("London", "Dublin", 464);
    graph.AddConnection("London", "Belfast", 518);
    graph.AddConnection("Dublin", "Belfast", 141);
    assert graph.connections == TestConnections;
    assert graph.nodes == {"London", "Dublin", "Belfast"};
    TestBest();
    shortest := graph.FindShortestRoute();
    longest := graph.FindLongestRoute();
  }
}
