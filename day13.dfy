/** Day 13 (day-13/src/main.rs): Knights of the Dinner Table. Guests sit at
    a round table; each guest gains or loses happiness next to each of
    their two neighbours, and the best seating maximises the total. */
module Day13 {
  import opened Wrappers
  import opened Arith
  import opened Strings

  /** `Person`: a name and the happiness change next to each other guest. */
  datatype Person = Person(name: string, nextTo: map<string, int>)

  /** A `Vec` never holds more than `isize::MAX` elements. */
  const IsizeMax: int := 0x7FFF_FFFF_FFFF_FFFF
  const IsizeMin: int := -0x8000_0000_0000_0000
  const UsizeModulus: int := 0x1_0000_0000_0000_0000

  /** `Table::index`: `(index + len) as usize % len`, so that the seat
      before the first is the last and the seat after the last is the
      first. */
  function Seat(n: nat, index: int): (r: nat)
    requires 0 < n <= IsizeMax
    ensures r < n
  {
    ((index + n) % UsizeModulus) % n
  }

  /** The neighbours of seat `i` at a table of `n`. */
  function Left(n: nat, i: nat): nat
    requires n > 0
  {
    if i == 0 then n - 1 else i - 1
  }

  function Right(n: nat, i: nat): nat
  {
    if i + 1 == n then 0 else i + 1
  }

  /** Indices from `-len` on do not wrap as `usize`. */
  lemma SeatNoWrap(n: nat, index: int)
    requires 0 < n <= IsizeMax && 0 <= index + n <= 2 * n
    ensures Seat(n, index) == (index + n) % n
  {
    ModUnique(index + n, UsizeModulus, 0, index + n);
  }

  /** The index wraps round at both ends. */
  lemma SeatHere(n: nat, i: nat)
    requires 0 < n <= IsizeMax && i < n
    ensures Seat(n, i) == i
  {
    SeatNoWrap(n, i);
    ModUnique(i + n, n, 1, i);
  }

  lemma SeatLeft(n: nat, i: nat)
    requires 0 < n <= IsizeMax && i < n
    ensures Seat(n, i - 1) == Left(n, i)
  {
    SeatNoWrap(n, i - 1);
    if i == 0 {
      ModUnique(n - 1, n, 0, n - 1);
    } else {
      ModUnique(i - 1 + n, n, 1, i - 1);
    }
  }

  lemma SeatRight(n: nat, i: nat)
    requires 0 < n <= IsizeMax && i < n
    ensures Seat(n, i + 1) == Right(n, i)
  {
    SeatNoWrap(n, i + 1);
    if i + 1 == n {
      ModUnique(2 * n, n, 2, 0);
    } else {
      ModUnique(i + 1 + n, n, 1, i + 1);
    }
  }

  /** `position(|p| p == self)`: the first seat holding `p`. */
  function Position(table: seq<Person>, p: Person): (i: nat)
    requires p in table
    ensures i < |table| && table[i] == p && p !in table[..i]
  {
    if table[0] == p then 0
    else
      var i := Position(table[1..], p);
      assert table[..i + 1] == [table[0]] + table[1..][..i];
      i + 1
  }

  /** What `p` feels next to `other`: 0 when `p` has no opinion. */
  function Preference(p: Person, other: Person): int
  {
    if other.name in p.nextTo then p.nextTo[other.name] else 0
  }

  /** `Person::calculate_happiness`: the preferences toward the guests on
      both sides of the first seat holding `p`. */
  function PersonHappiness(p: Person, table: seq<Person>): int
    requires p in table && |table| <= IsizeMax
  {
    var i := Position(table, p);
    Preference(p, table[Seat(|table|, i - 1)]) + Preference(p, table[Seat(|table|, i + 1)])
  }

  /** What each guest feels, in seat order (the mapped iterator). */
  function Happinesses(table: seq<Person>): (hs: seq<int>)
    requires |table| <= IsizeMax
    ensures |hs| == |table|
  {
    seq(|table|, k requires 0 <= k < |table| => PersonHappiness(table[k], table))
  }

  /** `Table::calculate_happiness`: the fold adding up each guest's
      happiness, from the first seat to the last. */
  function TableHappiness(table: seq<Person>): int
    requires |table| <= IsizeMax
  {
    FoldSum(Happinesses(table), 0)
  }

  /** What the guest in seat `i` feels about both neighbours. */
  function SeatScore(table: seq<Person>, i: nat): int
    requires i < |table|
  {
    var n := |table|;
    Preference(table[i], table[Left(n, i)]) + Preference(table[i], table[Right(n, i)])
  }

  function SeatScores(table: seq<Person>): (scores: seq<int>)
    ensures |scores| == |table|
  {
    seq(|table|, i requires 0 <= i < |table| => SeatScore(table, i))
  }

  predicate Distinct(table: seq<Person>)
  {
    forall i, j :: 0 <= i < j < |table| ==> table[i] != table[j]
  }

  /** With every guest seated once, a guest's position is their seat. */
  lemma PositionOfSeat(table: seq<Person>, k: nat)
    requires k < |table| && Distinct(table)
    ensures Position(table, table[k]) == k
  {
    var i := Position(table, table[k]);
    assert table[i] == table[k];
  }

  lemma PersonSeatScore(table: seq<Person>, k: nat)
    requires k < |table| <= IsizeMax && Distinct(table)
    ensures PersonHappiness(table[k], table) == SeatScore(table, k)
  {
    PositionOfSeat(table, k);
    SeatLeft(|table|, k);
    SeatRight(|table|, k);
  }

  /** Each guest's happiness is the score of their seat. */
  lemma HappinessesAreScores(table: seq<Person>)
    requires |table| <= IsizeMax && Distinct(table)
    ensures Happinesses(table) == SeatScores(table)
  {
    forall k | 0 <= k < |table|
      ensures Happinesses(table)[k] == SeatScores(table)[k]
    {
      PersonSeatScore(table, k);
    }
  }

  /** With every guest seated once, the table's happiness is the sum of
      what each seat feels about its two neighbours. */
  lemma TableIsSeatSum(table: seq<Person>)
    requires |table| <= IsizeMax && Distinct(table)
    ensures TableHappiness(table) == Sum(SeatScores(table))
  {
    FoldIsSum(Happinesses(table), 0);
    HappinessesAreScores(table);
  }

  /** The table turned by one seat. */
  function Rotate(table: seq<Person>): seq<Person>
    requires |table| > 0
  {
    table[1..] + [table[0]]
  }

  lemma RotateSeat(table: seq<Person>, i: nat)
    requires i < |table|
    ensures SeatScore(Rotate(table), i) == SeatScore(table, Right(|table|, i))
  {
    var n := |table|;
    var r := Rotate(table);
    if i + 1 < n {
      assert r[i] == table[i + 1];
      assert r[Left(n, i)] == table[Left(n, i + 1)];
      assert r[Right(n, i)] == table[Right(n, i + 1)];
    } else {
      assert r[i] == table[0];
      assert r[Left(n, i)] == table[Left(n, 0)];
      assert r[Right(n, i)] == table[Right(n, 0)];
    }
  }

  lemma RotateScores(table: seq<Person>)
    requires |table| > 0
    ensures SeatScores(Rotate(table)) == SeatScores(table)[1..] + [SeatScores(table)[0]]
  {
    forall i | 0 <= i < |table|
      ensures SeatScores(Rotate(table))[i] == (SeatScores(table)[1..] + [SeatScores(table)[0]])[i]
    {
      RotateSeat(table, i);
    }
  }

  /** A round table has no head: turning it changes nobody's
      happiness. */
  lemma RotateHappiness(table: seq<Person>)
    requires 0 < |table| <= IsizeMax && Distinct(table)
    ensures Distinct(Rotate(table))
    ensures TableHappiness(Rotate(table)) == TableHappiness(table)
  {
    var r := Rotate(table);
    forall i, j | 0 <= i < j < |r|
      ensures r[i] != r[j]
    {
      if j + 1 < |table| {
        assert r[i] == table[i + 1] && r[j] == table[j + 1];
      } else {
        assert r[i] == table[i + 1] && r[j] == table[0];
      }
    }
    TableIsSeatSum(table);
    TableIsSeatSum(r);
    RotateScores(table);
    var s := SeatScores(table);
    SumAppend(s[1..], [s[0]]);
    SumAppend([s[0]], s[1..]);
    assert [s[0]] + s[1..] == s;
  }

  // Seatings

  /** Every way to put `x` somewhere into `t`. */
  function Insertions(x: Person, t: seq<Person>): (r: seq<seq<Person>>)
    ensures |r| == |t| + 1
    ensures forall i :: 0 <= i <= |t| ==> r[i] == t[..i] + [x] + t[i..]
  {
    seq(|t| + 1, i requires 0 <= i <= |t| => t[..i] + [x] + t[i..])
  }

  function Flatten(ss: seq<seq<seq<Person>>>): seq<seq<Person>>
  {
    if |ss| == 0 then [] else ss[0] + Flatten(ss[1..])
  }

  /** Whatever is in one of the lists is in the flattened list. */
  lemma {:induction false} FlattenHas(ss: seq<seq<seq<Person>>>, j: nat, t: seq<Person>)
    requires j < |ss| && t in ss[j]
    ensures t in Flatten(ss)
  {
    if j > 0 {
      FlattenHas(ss[1..], j - 1, t);
    }
  }

  /** The list an element of the flattened list comes from. */
  lemma {:induction false} FlattenWhich(ss: seq<seq<seq<Person>>>, t: seq<Person>) returns (j: nat)
    requires t in Flatten(ss)
    ensures j < |ss| && t in ss[j]
  {
    if t in ss[0] {
      j := 0;
    } else {
      var k := FlattenWhich(ss[1..], t);
      j := k + 1;
    }
  }

  /** `x` inserted everywhere into each order of `ts`. */
  function InsertEach(x: Person, ts: seq<seq<Person>>): (r: seq<seq<seq<Person>>>)
    ensures |r| == |ts| && forall j :: 0 <= j < |ts| ==> r[j] == Insertions(x, ts[j])
  {
    seq(|ts|, j requires 0 <= j < |ts| => Insertions(x, ts[j]))
  }

  /** The orders of `s` that the permutation iterator visits: one per
      way of seating the guests, built by inserting the first guest into
      every order of the others. */
  function Seatings(s: seq<Person>): seq<seq<Person>>
  {
    if |s| == 0 then [[]] else Flatten(InsertEach(s[0], Seatings(s[1..])))
  }

  /** Every seating holds the same guests. */
  lemma {:induction false} SeatingsSound(s: seq<Person>, t: seq<Person>)
    requires t in Seatings(s)
    ensures multiset(t) == multiset(s)
  {
    if |s| > 0 {
      var rest := Seatings(s[1..]);
      var j := FlattenWhich(InsertEach(s[0], rest), t);
      SeatingsSound(s[1..], rest[j]);
      InsertionsSound(s[0], rest[j], t);
      MultisetFront(s);
    }
  }

  lemma MultisetFront(s: seq<Person>)
    requires |s| > 0
    ensures multiset(s) == multiset{s[0]} + multiset(s[1..])
  {
    assert s == [s[0]] + s[1..];
  }

  lemma InsertionsSound(x: Person, u: seq<Person>, t: seq<Person>)
    requires t in Insertions(x, u)
    ensures multiset(t) == multiset{x} + multiset(u)
  {
    var i :| 0 <= i <= |u| && t == u[..i] + [x] + u[i..];
    assert u == u[..i] + u[i..];
  }

  /** Every order of the guests is a seating. */
  lemma {:induction false} SeatingsComplete(s: seq<Person>, t: seq<Person>)
    requires multiset(t) == multiset(s)
    ensures t in Seatings(s)
  {
    if |s| == 0 {
      assert |t| == |multiset(t)|;
    } else {
      var i := FindGuest(s, t);
      var u := TakeOut(t, i);
      SeatingsComplete(s[1..], u);
      var rest := Seatings(s[1..]);
      var j :| 0 <= j < |rest| && rest[j] == u;
      FlattenHas(InsertEach(s[0], rest), j, t);
    }
  }

  /** The first guest of `s` sits somewhere in any order of the same
      guests, and the others are the rest of `s`. */
  lemma FindGuest(s: seq<Person>, t: seq<Person>) returns (i: nat)
    requires |s| > 0 && multiset(t) == multiset(s)
    ensures i < |t| && t[i] == s[0]
    ensures multiset(s[1..]) == multiset(t) - multiset{t[i]}
  {
    MultisetFront(s);
    assert s[0] in multiset(t);
    i :| 0 <= i < |t| && t[i] == s[0];
  }

  /** Taking the guest in seat `i` out of `t`; putting them back in the
      same place gives `t` again. */
  lemma TakeOut(t: seq<Person>, i: nat) returns (u: seq<Person>)
    requires i < |t|
    ensures multiset(u) == multiset(t) - multiset{t[i]}
    ensures |u| == |t| - 1 && t == Insertions(t[i], u)[i]
  {
    u := t[..i] + t[i + 1..];
    assert t == t[..i] + [t[i]] + t[i + 1..];
    assert multiset(t) == multiset(t[..i]) + multiset{t[i]} + multiset(t[i + 1..]);
    assert u[..i] == t[..i] && u[i..] == t[i + 1..];
  }

  function MaxOf(xs: seq<int>): (m: int)
    requires |xs| > 0
    ensures m in xs && forall x :: x in xs ==> x <= m
  {
    if |xs| == 1 then xs[0]
    else
      var m := MaxOf(xs[1..]);
      assert forall x :: x in xs ==> x == xs[0] || x in xs[1..];
      Max(xs[0], m)
  }

  /** `find_max_happiness`: the best table happiness over every order the
      permutation iterator produces. */
  function MaxHappiness(persons: seq<Person>): int
    requires |persons| <= IsizeMax
  {
    var tables := Seatings(persons);
    SeatingsComplete(persons, persons);
    forall k | 0 <= k < |tables| ensures |tables[k]| == |persons| {
      SeatingsSound(persons, tables[k]);
      assert |multiset(tables[k])| == |multiset(persons)|;
    }
    MaxOf(seq(|tables|, k requires 0 <= k < |tables| => TableHappiness(tables[k])))
  }

  /** The maximum is reached by some seating of the same guests, and no
      seating of them does better. */
  lemma MaxHappinessIsBest(persons: seq<Person>, table: seq<Person>)
    requires |persons| <= IsizeMax
    requires multiset(table) == multiset(persons)
    ensures |table| == |persons|
    ensures TableHappiness(table) <= MaxHappiness(persons)
  {
    assert |multiset(table)| == |multiset(persons)|;
    SeatingsComplete(persons, table);
    var tables := Seatings(persons);
    var k :| 0 <= k < |tables| && tables[k] == table;
    forall k | 0 <= k < |tables| ensures |tables[k]| == |persons| {
      SeatingsSound(persons, tables[k]);
      assert |multiset(tables[k])| == |multiset(persons)|;
    }
    var scores := seq(|tables|, k requires 0 <= k < |tables| => TableHappiness(tables[k]));
    assert scores[k] in scores;
  }

  lemma MaxHappinessReached(persons: seq<Person>) returns (table: seq<Person>)
    requires |persons| <= IsizeMax
    ensures multiset(table) == multiset(persons) && |table| == |persons|
    ensures TableHappiness(table) == MaxHappiness(persons)
  {
    var tables := Seatings(persons);
    SeatingsComplete(persons, persons);
    forall k | 0 <= k < |tables| ensures |tables[k]| == |persons| {
      SeatingsSound(persons, tables[k]);
      assert |multiset(tables[k])| == |multiset(persons)|;
    }
    var scores := seq(|tables|, k requires 0 <= k < |tables| => TableHappiness(tables[k]));
    var k :| 0 <= k < |scores| && scores[k] == MaxHappiness(persons);
    table := tables[k];
    SeatingsSound(persons, table);
  }

  /** The order the guests arrive in does not change the answer. */
  lemma MaxHappinessOrderFree(a: seq<Person>, b: seq<Person>)
    requires |a| <= IsizeMax && multiset(a) == multiset(b)
    ensures |b| == |a|
    ensures MaxHappiness(a) == MaxHappiness(b)
  {
    assert |multiset(a)| == |multiset(b)|;
    var ta := MaxHappinessReached(a);
    var tb := MaxHappinessReached(b);
    MaxHappinessIsBest(a, tb);
    MaxHappinessIsBest(b, ta);
  }

  // Parsing

  /** One line `A would gain|lose N happiness units by sitting next to B.`:
      the words at 0, 2, 3 and 10, with the last character of the
      neighbour's name cut off and the units negated for "lose". */
  function ParseLine(line: string): (r: Option<(string, int, string)>)
    ensures r.Some? <==>
      && |Words(line)| >= 11
      && ParseSigned(Words(line)[3], IsizeMin, IsizeMax).Some?
      && !(Words(line)[2] == "lose" && ParseSigned(Words(line)[3], IsizeMin, IsizeMax).value == IsizeMin)
    ensures r.Some? ==> r.value.0 == Words(line)[0]
    ensures r.Some? ==> var units := ParseSigned(Words(line)[3], IsizeMin, IsizeMax).value;
      r.value.1 == if Words(line)[2] == "lose" then -units else units
    ensures r.Some? ==> var other := Words(line)[10];
      other == r.value.2 + [other[|other| - 1]]
  {
    var words := Words(line);
    if |words| < 11 then None
    else
      match ParseSigned(words[3], IsizeMin, IsizeMax)
      case None => None
      case Some(units) =>
        var other := words[10];
        var name := other[..|other| - 1];
        if words[2] == "lose" then
          if units == IsizeMin then None else Some((words[0], -units, name))
        else Some((words[0], units, name))
  }

  /** The line the puzzle input uses for a preference. */
  function LineText(name: string, units: int, other: string): string
    requires |name| > 0 && NoWhitespace(name) && |other| > 0 && NoWhitespace(other)
  {
    var gainLose := if units < 0 then "lose" else "gain";
    var amount := if units < 0 then -units else units;
    Unwords([name, "would", gainLose, Decimal(amount), "happiness", "units", "by", "sitting", "next", "to", other + "."])
  }

  /** Reading a preference line gives back what it says. */
  lemma ParseLineText(name: string, units: int, other: string)
    requires |name| > 0 && NoWhitespace(name) && |other| > 0 && NoWhitespace(other) && other[|other| - 1] != '.'
    requires -IsizeMax <= units <= IsizeMax
    ensures ParseLine(LineText(name, units, other)) == Some((name, units, other))
  {
    var amount := if units < 0 then -units else units;
    LineWords(name, units, other);
    ParseSignedDecimal(amount, IsizeMin, IsizeMax);
    assert (other + ".")[..|other|] == other;
  }

  /** The words of a preference line are the pieces it was glued from. */
  lemma LineWords(name: string, units: int, other: string)
    requires |name| > 0 && NoWhitespace(name) && |other| > 0 && NoWhitespace(other)
    ensures Words(LineText(name, units, other))
      == [name, "would", if units < 0 then "lose" else "gain", Decimal(if units < 0 then -units else units),
          "happiness", "units", "by", "sitting", "next", "to", other + "."]
  {
    var amount := if units < 0 then -units else units;
    assert NoWhitespace(other + ".") by {
      assert forall i :: 0 <= i < |other| ==> (other + ".")[i] == other[i];
    }
    DecimalWord(amount);
    WordsUnwords([name, "would", if units < 0 then "lose" else "gain", Decimal(amount), "happiness", "units", "by", "sitting", "next", "to", other + "."]);
  }

  /** Recording that `name` feels `units` next to `other`: the guest is
      created on first sight, and a later line for the same neighbour
      wins. */
  function Record(guests: map<string, Person>, name: string, units: int, other: string): (r: map<string, Person>)
    ensures r.Keys == guests.Keys + {name}
    ensures r[name].name == (if name in guests then guests[name].name else name)
    ensures r[name].nextTo == (if name in guests then guests[name].nextTo else map[])[other := units]
    ensures forall g :: g in guests && g != name ==> r[g] == guests[g]
  {
    var p := if name in guests then guests[name] else Person(name, map[]);
    guests[name := Person(p.name, p.nextTo[other := units])]
  }

  /** Every guest is filed under their own name. */
  predicate Filed(guests: map<string, Person>)
  {
    forall g :: g in guests ==> guests[g].name == g
  }

  /** The guests after the given lines, or `None` at the first line that
      does not parse. */
  function Guests(guests: map<string, Person>, lines: seq<string>): (r: Option<map<string, Person>>)
    ensures Filed(guests) && r.Some? ==> Filed(r.value)
    decreases |lines|
  {
    if |lines| == 0 then Some(guests)
    else
      match ParseLine(lines[0])
      case None => None
      case Some(entry) => Guests(Record(guests, entry.0, entry.1, entry.2), lines[1..])
  }

  /** `parse_persons`: a map from name to guest, filled line by line, then
      emptied into a vector in the map's (arbitrary) order. */
  method ParsePersons(input: string) returns (r: Option<seq<Person>>)
    ensures r.None? <==> Guests(map[], Lines(input)).None?
    ensures r.Some? ==> var guests := Guests(map[], Lines(input)).value;
      |r.value| == |guests| && Distinct(r.value)
      && forall i :: 0 <= i < |r.value| ==> r.value[i].name in guests && guests[r.value[i].name] == r.value[i]
  {
    var guests := ReadGuests(Lines(input));
    if guests.None? {
      return None;
    }
    var persons := IntoValues(guests.value);
    return Some(persons);
  }

  /** The `for` loop of `parse_persons`: each line recorded in turn, the
      first line that does not parse ending the run. */
  method ReadGuests(lines: seq<string>) returns (r: Option<map<string, Person>>)
    ensures r == Guests(map[], lines)
  {
    var guests: map<string, Person> := map[];
    var i := 0;
    while i < |lines|
      invariant 0 <= i <= |lines|
      invariant Guests(map[], lines) == Guests(guests, lines[i..])
    {
      assert lines[i..][1..] == lines[i + 1..];
      match ParseLine(lines[i])
      case None =>
        return None;
      case Some(entry) =>
        guests := Record(guests, entry.0, entry.1, entry.2);
      i := i + 1;
    }
    assert lines[i..] == [];
    return Some(guests);
  }

  /** `into_iter().map(|(_, v)| v).collect()`: every guest of the map
      once, in some order. */
  method IntoValues(guests: map<string, Person>) returns (persons: seq<Person>)
    requires Filed(guests)
    ensures |persons| == |guests| && Distinct(persons)
    ensures forall i :: 0 <= i < |persons| ==> persons[i].name in guests && guests[persons[i].name] == persons[i]
  {
    var all := guests;
    persons := [];
    while all.Keys != {}
      invariant all.Keys <= guests.Keys
      invariant forall g :: g in all ==> all[g] == guests[g]
      invariant |persons| + |all| == |guests|
      invariant forall k :: 0 <= k < |persons| ==> persons[k].name in guests && persons[k].name !in all && guests[persons[k].name] == persons[k]
      invariant Distinct(persons)
      decreases |all|
    {
      var g :| g in all;
      persons := persons + [guests[g]];
      all := all - {g};
    }
  }

  /** A two-guest table: each guest has both neighbours on the same
      side, so each preference counts twice. */
  lemma TwoGuests(table: seq<Person>, a: string, b: string, x: int, y: int)
    requires a != b && table == [Person(a, map[b := x]), Person(b, map[a := y])]
    ensures TableHappiness(table) == 2 * x + 2 * y
  {
    assert table[0].name != table[1].name;
    TableIsSeatSum(table);
    assert SeatScore(table, 0) == 2 * x;
    assert SeatScore(table, 1) == 2 * y;
    assert SeatScores(table) == [2 * x, 2 * y];
    assert [2 * x, 2 * y][1..] == [2 * y] && [2 * y][1..] == [];
    assert Sum([2 * y]) == 2 * y + Sum([]);
    assert Sum([2 * x, 2 * y]) == 2 * x + Sum([2 * y]);
  }
}
