/** Day 20 (day-20/src/main.rs): Infinite Elves and Infinite Houses. Elf
    `e` delivers to houses e, 2e, 3e, ...; the sieves add up, house by
    house, the numbers of the elves that visit it. */
module Day20 {
  import opened Wrappers
  import opened Arith

  /** Elf `e` visits house `h`: `h` is a positive multiple of `e`, and in
      part 2 (`lazy`) at most the 50th one. */
  predicate Visits(e: nat, h: nat, lazy: bool)
  {
    e > 0 && h > 0 && h % e == 0 && (!lazy || h <= 50 * e)
  }

  /** What the elves `lo .. hi` bring to house `h` (divided by the presents
      per elf). */
  function Delivered(h: nat, lo: nat, hi: nat, lazy: bool): nat
    decreases hi
  {
    if hi <= lo then 0
    else Delivered(h, lo, hi - 1, lazy) + (if Visits(hi - 1, h, lazy) then hi - 1 else 0)
  }

  /** The sum of the divisors of `h`. */
  function Sigma(h: nat): nat
  {
    Delivered(h, 1, h + 1, false)
  }

  /** The sum of the divisors `e` of `h` with `h <= 50 e`: the elves that
      still deliver there in part 2. */
  function LazySigma(h: nat): nat
  {
    Delivered(h, 1, h + 1, true)
  }

  lemma {:induction false} DeliveredSplit(h: nat, lo: nat, mid: nat, hi: nat, lazy: bool)
    requires lo <= mid <= hi
    ensures Delivered(h, lo, hi, lazy) == Delivered(h, lo, mid, lazy) + Delivered(h, mid, hi, lazy)
    decreases hi
  {
    if mid < hi {
      DeliveredSplit(h, lo, mid, hi - 1, lazy);
    }
  }

  /** No elf past `h` visits house `h`. */
  lemma {:induction false} NoneBeyond(h: nat, hi: nat, lazy: bool)
    requires h > 0
    ensures Delivered(h, h + 1, hi, lazy) == 0
    decreases hi
  {
    if hi > h + 1 {
      NoneBeyond(h, hi - 1, lazy);
      assert h % (hi - 1) == h;
    }
  }

  /** Elves `lo .. n` for any `n` past house `h` bring it what all of its
      visitors from `lo` on bring. */
  lemma AllVisitors(h: nat, lo: nat, n: nat, lazy: bool)
    requires 0 < h < n && lo <= h + 1
    ensures Delivered(h, lo, n, lazy) == Delivered(h, lo, h + 1, lazy)
  {
    DeliveredSplit(h, lo, h + 1, n, lazy);
    NoneBeyond(h, n, lazy);
  }

  /** Every house `h >= 2` is visited by elf 1 and by elf `h`. */
  lemma SigmaAtLeast(h: nat, lazy: bool)
    requires h >= 1
    ensures Delivered(h, 1, h + 1, lazy) >= h
    ensures h >= 2 && !lazy ==> Delivered(h, 1, h + 1, lazy) >= h + 1
  {
    DeliveredSplit(h, 1, h, h + 1, lazy);
    assert h % h == 0 && h / h == 1;
    if h >= 2 {
      DeliveredSplit(h, 1, 2, h, lazy);
      assert Delivered(h, 1, 2, lazy) == (if Visits(1, h, lazy) then 1 else 0);
    }
  }

  /** No house 0 is ever visited. */
  lemma {:induction false} NoHouseZero(lo: nat, hi: nat, lazy: bool)
    ensures Delivered(0, lo, hi, lazy) == 0
    decreases hi
  {
    if hi > lo {
      NoHouseZero(lo, hi - 1, lazy);
    }
  }

  /** Two multiples of `e` less than `e` apart are equal. */
  lemma NextMultiple(e: nat, k: nat, h: nat)
    requires e > 0 && k % e == 0 && h % e == 0 && k <= h < k + e
    ensures h == k
  {
    assert k == (k / e) * e && h == (h / e) * e;
    assert (h / e - k / e) * e == h - k;
    MulZero(h / e - k / e, e);
  }

  lemma NextModulus(e: nat, k: nat)
    requires e > 0 && k % e == 0
    ensures (k + e) % e == 0
  {
    assert k == (k / e) * e;
    ModUnique(k + e, e, k / e + 1, 0);
  }

  /** The next visit of elf `e` at house `k` adds house `k` to those below
      `k` it has visited. */
  lemma VisitStep(e: nat, k: nat, h: nat)
    requires e > 0 && k % e == 0 && k > 0
    ensures (Visits(e, h, false) && h < k + e) <==> ((Visits(e, h, false) && h < k) || h == k)
  {
    if Visits(e, h, false) && k <= h < k + e {
      NextMultiple(e, k, h);
    }
  }

  /** The part 1 loop of one elf: houses e, 2e, ... below the end of the
      array each get `e`. */
  method VisitAll(houses: array<nat>, elve: nat)
    requires elve > 0
    modifies houses
    ensures forall h :: 0 <= h < houses.Length ==>
      houses[h] == old(houses[h]) + (if Visits(elve, h, false) then elve else 0)
  {
    var houseId := elve;
    while houseId < houses.Length
      invariant houseId % elve == 0 && houseId > 0
      invariant forall h :: 0 <= h < houses.Length ==>
        houses[h] == old(houses[h]) + (if Visits(elve, h, false) && h < houseId then elve else 0)
      decreases houses.Length - houseId
    {
      forall h | 0 <= h < houses.Length
        ensures (Visits(elve, h, false) && h < houseId + elve) <==>
          ((Visits(elve, h, false) && h < houseId) || h == houseId)
      {
        VisitStep(elve, houseId, h);
      }
      NextModulus(elve, houseId);
      houses[houseId] := houses[houseId] + elve;
      houseId := houseId + elve;
    }
  }

  /** The sieve of `find_house_part1`: every house starts at 1 (elf 1) and
      elves `2 .. div` visit their multiples below `div`. */
  method DeliverPart1(div: nat) returns (houses: array<nat>)
    ensures houses.Length == div && fresh(houses)
    ensures div > 0 ==> houses[0] == 1
    ensures forall h :: 1 <= h < div ==> houses[h] == Sigma(h)
  {
    houses := new nat[div](_ => 1);
    var elve := 2;
    while elve < div
      invariant 2 <= elve && (elve <= div || elve == 2)
      invariant forall h :: 0 <= h < div ==> houses[h] == 1 + Delivered(h, 2, elve, false)
    {
      VisitAll(houses, elve);
      elve := elve + 1;
    }
    NoHouseZero(2, elve, false);
    forall h | 1 <= h < div
      ensures houses[h] == Sigma(h)
    {
      AllVisitors(h, 2, div, false);
      DeliveredSplit(h, 1, 2, h + 1, false);
      assert Delivered(h, 1, 2, false) == 1;
    }
  }

  /** After `i` visits, elf `e` has been to the houses below `(i + 1) e`;
      with `i` at 50 or every house of the array reached, those are its
      part 2 houses. */
  lemma FiftyVisits(e: nat, i: nat, length: nat, h: nat)
    requires e > 0 && i <= 50 && h < length
    requires i == 50 || length <= (i + 1) * e
    ensures (Visits(e, h, false) && h < (i + 1) * e) <==> Visits(e, h, true)
  {
    if i < 50 {
      assert (i + 1) * e <= 50 * e by {
        assert 50 * e - (i + 1) * e == (49 - i) * e;
      }
    } else if Visits(e, h, false) && 50 * e < h {
      assert (50 * e) % e == 0 by {
        ModUnique(50 * e, e, 50, 0);
      }
      if h < 51 * e {
        NextMultiple(e, 50 * e, h);
      }
    }
  }

  /** The part 2 loop of one elf: houses e, 2e, ..., at most 50 of them,
      below the end of the array each get `e`. */
  method VisitFifty(houses: array<nat>, elve: nat)
    requires elve > 0
    modifies houses
    ensures forall h :: 0 <= h < houses.Length ==>
      houses[h] == old(houses[h]) + (if Visits(elve, h, true) then elve else 0)
  {
    var houseId := elve;
    var i := 0;
    while houseId < houses.Length && i < 50
      invariant houseId == (i + 1) * elve && i <= 50
      invariant houseId % elve == 0
      invariant forall h :: 0 <= h < houses.Length ==>
        houses[h] == old(houses[h]) + (if Visits(elve, h, false) && h < houseId then elve else 0)
      decreases houses.Length - houseId
    {
      forall h | 0 <= h < houses.Length
        ensures (Visits(elve, h, false) && h < houseId + elve) <==>
          ((Visits(elve, h, false) && h < houseId) || h == houseId)
      {
        VisitStep(elve, houseId, h);
      }
      NextModulus(elve, houseId);
      houses[houseId] := houses[houseId] + elve;
      houseId := houseId + elve;
      i := i + 1;
    }
    forall h | 0 <= h < houses.Length
      ensures (Visits(elve, h, false) && h < houseId) <==> Visits(elve, h, true)
    {
      FiftyVisits(elve, i, houses.Length, h);
    }
  }

  /** The sieve of `find_house_part2`: every house starts at 0 and elves
      `1 .. div` visit up to 50 of their multiples below `div`. */
  method DeliverPart2(div: nat) returns (houses: array<nat>)
    ensures houses.Length == div && fresh(houses)
    ensures div > 0 ==> houses[0] == 0
    ensures forall h :: 1 <= h < div ==> houses[h] == LazySigma(h)
  {
    houses := new nat[div](_ => 0);
    var elve := 1;
    while elve < div
      invariant 1 <= elve && (elve <= div || elve == 1)
      invariant forall h :: 0 <= h < div ==> houses[h] == Delivered(h, 1, elve, true)
    {
      VisitFifty(houses, elve);
      elve := elve + 1;
    }
    NoHouseZero(1, elve, true);
    forall h | 1 <= h < div
      ensures houses[h] == LazySigma(h)
    {
      AllVisitors(h, 1, div, true);
    }
  }

  /** `Iterator::position`: the first index whose value reaches `bound`. */
  function Position(s: seq<nat>, bound: nat): (r: Option<nat>)
    ensures r.Some? ==> r.value < |s| && s[r.value] >= bound && forall i :: 0 <= i < r.value ==> s[i] < bound
    ensures r.None? ==> forall i :: 0 <= i < |s| ==> s[i] < bound
  {
    if |s| == 0 then None
    else if s[0] >= bound then Some(0)
    else
      match Position(s[1..], bound)
      case Some(i) => Some(i + 1)
      case None => None
  }

  /** `find_house_part1`: the first house whose divisor sum reaches
      `minimumPresents / 10`, among houses `0 .. div`; house 0 counts as
      having 1, and `None` is the panic when no house qualifies. */
  method FindHousePart1(minimumPresents: nat) returns (house: Option<nat>)
    ensures var div := minimumPresents / 10;
      && (house.Some? <==> (div == 1 || div >= 3))
      && (house == Some(0) <==> div == 1)
      && (house.Some? && house.value > 0 ==>
            house.value < div && Sigma(house.value) >= div &&
            forall h :: 1 <= h < house.value ==> Sigma(h) < div)
  {
    var div := minimumPresents / 10;
    var houses := DeliverPart1(div);
    house := Position(houses[..], div);
    if div >= 3 {
      SigmaAtLeast(div - 1, false);
      assert houses[..][div - 1] >= div;
    }
  }

  /** `find_house_part2`: the first house whose lazy divisor sum reaches
      `minimumPresents / 11`, among houses `0 .. div`; `None` is the panic
      when no house qualifies. */
  method FindHousePart2(minimumPresents: nat) returns (house: Option<nat>)
    ensures var div := minimumPresents / 11;
      && (house.Some? ==>
            1 <= house.value < div && LazySigma(house.value) >= div &&
            forall h :: 1 <= h < house.value ==> LazySigma(h) < div)
      && (house.None? ==> forall h :: 1 <= h < div ==> LazySigma(h) < div)
  {
    var div := minimumPresents / 11;
    var houses := DeliverPart2(div);
    house := Position(houses[..], div);
    if house.None? {
      assert forall h :: 1 <= h < div ==> houses[..][h] < div;
    }
  }

  /** The first house that gets at least `minimumPresents` presents, ten per
      elf: the search `find_house_part1_slow` makes. */
  method FindHousePart1Corrected(minimumPresents: nat) returns (house: nat)
    ensures house >= 1 && 10 * Sigma(house) >= minimumPresents
    ensures forall h :: 1 <= h < house ==> 10 * Sigma(h) < minimumPresents
  {
    var div := (minimumPresents + 9) / 10;
    var houses := DeliverPart1(div + 2);
    var first := Position(houses[1..], div);
    if div >= 1 {
      SigmaAtLeast(div, false);
      assert houses[1..][div - 1] >= div;
    } else {
      assert houses[1..][0] >= div;
    }
    house := first.value + 1;
    assert houses[1..][house - 1] == Sigma(house);
    forall h | 1 <= h < house
      ensures 10 * Sigma(h) < minimumPresents
    {
      assert houses[1..][h - 1] == Sigma(h);
    }
  }

  lemma Sigma1()
    ensures Sigma(1) == 1
  {
    DeliveredNext(1, 1, 0);
  }

  lemma Sigma2()
    ensures Sigma(2) == 3
  {
    DeliveredNext(2, 1, 0);
    DeliveredNext(2, 2, 1);
  }

  lemma Sigma3()
    ensures Sigma(3) == 4
  {
    DeliveredNext(3, 1, 0);
    DeliveredNext(3, 2, 1);
    DeliveredNext(3, 3, 1);
  }

  lemma Sigma4()
    ensures Sigma(4) == 7
  {
    DeliveredNext(4, 1, 0);
    DeliveredNext(4, 2, 1);
    DeliveredNext(4, 3, 3);
    DeliveredNext(4, 4, 3);
  }

  /** One more elf: it adds its number when it divides the house. */
  lemma DeliveredNext(h: nat, e: nat, s: nat)
    requires 1 <= e && Delivered(h, 1, e, false) == s
    ensures Delivered(h, 1, e + 1, false) == s + (if h > 0 && h % e == 0 then e else 0)
  {
  }

  lemma Sigma5()
    ensures Sigma(5) == 6
  {
    DeliveredNext(5, 1, 0);
    DeliveredNext(5, 2, 1);
    DeliveredNext(5, 3, 1);
    DeliveredNext(5, 4, 1);
    DeliveredNext(5, 5, 1);
  }

  lemma Sigma6()
    ensures Sigma(6) == 12
  {
    DeliveredNext(6, 1, 0);
    DeliveredNext(6, 2, 1);
    DeliveredNext(6, 3, 3);
    DeliveredNext(6, 4, 6);
    DeliveredNext(6, 5, 6);
    DeliveredNext(6, 6, 6);
  }

  lemma Sigma7()
    ensures Sigma(7) == 8
  {
    DeliveredNext(7, 1, 0);
    DeliveredNext(7, 2, 1);
    DeliveredNext(7, 3, 1);
    DeliveredNext(7, 4, 1);
    DeliveredNext(7, 5, 1);
    DeliveredNext(7, 6, 1);
    DeliveredNext(7, 7, 1);
  }

  lemma Sigma8()
    ensures Sigma(8) == 15
  {
    DeliveredNext(8, 1, 0);
    DeliveredNext(8, 2, 1);
    DeliveredNext(8, 3, 3);
    DeliveredNext(8, 4, 3);
    DeliveredNext(8, 5, 7);
    DeliveredNext(8, 6, 7);
    DeliveredNext(8, 7, 7);
    DeliveredNext(8, 8, 7);
  }

  lemma Sigma9()
    ensures Sigma(9) == 13
  {
    DeliveredNext(9, 1, 0);
    DeliveredNext(9, 2, 1);
    DeliveredNext(9, 3, 1);
    DeliveredNext(9, 4, 4);
    DeliveredNext(9, 5, 4);
    DeliveredNext(9, 6, 4);
    DeliveredNext(9, 7, 4);
    DeliveredNext(9, 8, 4);
    DeliveredNext(9, 9, 4);
  }

  lemma SmallSigmas()
    ensures Sigma(1) == 1 && Sigma(2) == 3 && Sigma(3) == 4 && Sigma(4) == 7
    ensures Sigma(5) == 6 && Sigma(6) == 12 && Sigma(7) == 8 && Sigma(8) == 15
    ensures Sigma(9) == 13
  {
    Sigma1();
    Sigma2();
    Sigma3();
    Sigma4();
    Sigma5();
    Sigma6();
    Sigma7();
    Sigma8();
    Sigma9();
  }

  /** The first house whose divisor sum reaches `bound` is unique. */
  lemma FirstHouseIs(house: nat, bound: nat, answer: nat)
    requires 1 <= answer && Sigma(answer) >= bound && forall h :: 1 <= h < answer ==> Sigma(h) < bound
    requires 1 <= house && Sigma(house) >= bound && forall h :: 1 <= h < house ==> Sigma(h) < bound
    ensures house == answer
  {
  }

  /** House 4 is the first whose divisor sum reaches 7. */
  lemma FirstReaching7()
    ensures Sigma(4) >= 7 && forall h :: 1 <= h < 4 ==> Sigma(h) < 7
  {
    Sigma4();
    forall h | 1 <= h < 4
      ensures Sigma(h) < 7
    {
      if h == 1 { Sigma1(); } else if h == 2 { Sigma2(); } else { Sigma3(); }
    }
  }

  /** House 6 is the first whose divisor sum reaches 10. */
  lemma FirstReaching10()
    ensures Sigma(6) >= 10 && forall h :: 1 <= h < 6 ==> Sigma(h) < 10
  {
    Sigma6();
    forall h | 1 <= h < 6
      ensures Sigma(h) < 10
    {
      if h == 1 { Sigma1(); } else if h == 2 { Sigma2(); } else if h == 3 { Sigma3(); } else if h == 4 { Sigma4(); } else { Sigma5(); }
    }
  }

  /** House 8 is the first whose divisor sum reaches 13. */
  lemma FirstReaching13()
    ensures Sigma(8) >= 13 && forall h :: 1 <= h < 8 ==> Sigma(h) < 13
  {
    Sigma8();
    forall h | 1 <= h < 8
      ensures Sigma(h) < 13
    {
      if h == 1 { Sigma1(); } else if h == 2 { Sigma2(); } else if h == 3 { Sigma3(); } else if h == 4 { Sigma4(); } else if h == 5 { Sigma5(); } else if h == 6 { Sigma6(); } else { Sigma7(); }
    }
  }

  /** House 6 is the first whose divisor sum reaches 8. */
  lemma FirstReaching8()
    ensures Sigma(6) >= 8 && forall h :: 1 <= h < 6 ==> Sigma(h) < 8
  {
    Sigma6();
    forall h | 1 <= h < 6
      ensures Sigma(h) < 8
    {
      if h == 1 { Sigma1(); } else if h == 2 { Sigma2(); } else if h == 3 { Sigma3(); } else if h == 4 { Sigma4(); } else { Sigma5(); }
    }
  }

  /** The tests of `find_house_part1`. */
  method FindHouseExamples() returns (a: Option<nat>, b: Option<nat>, c: Option<nat>)
    ensures a == Some(4) && b == Some(6) && c == Some(8)
  {
    a := FindHousePart1(70);
    FirstReaching7();
    FirstHouseIs(a.value, 7, 4);
    b := FindHousePart1(100);
    FirstReaching10();
    FirstHouseIs(b.value, 10, 6);
    c := FindHousePart1(130);
    FirstReaching13();
    FirstHouseIs(c.value, 13, 8);
  }

  /** With 75 presents wanted, `find_house_part1` answers house 4, which
      gets 70; house 6 is the first to get 75. */
  method FindHouseShortfall() returns (asWritten: Option<nat>, corrected: nat)
    ensures asWritten == Some(4) && 10 * Sigma(4) < 75
    ensures corrected == 6 && 10 * Sigma(6) >= 75
  {
    asWritten := FindHousePart1(75);
    FirstReaching7();
    FirstHouseIs(asWritten.value, 7, 4);
    corrected := FindHousePart1Corrected(75);
    FirstReaching8();
    FirstHouseIs(corrected, 8, 6);
  }
}
