/** The shop search of day 21 (day-21/src/main.rs): every loadout the shop
    allows is tried against the boss, and the cheapest winning and the
    dearest losing loadouts are reported. */
module Day21 {
  import opened Wrappers
  import opened Day22Equipment
  import opened Day21Game

  /** The choices for an optional slot: every item, then nothing. */
  function Slot(items: seq<Item>): (slot: seq<Option<Item>>)
    ensures |slot| == |items| + 1 && slot[|items|] == None
  {
    seq(|items|, i requires 0 <= i < |items| => Some(items[i])) + [None]
  }

  /** A slot holds nothing or one of the shop's items. */
  lemma SlotMembers(items: seq<Item>, o: Option<Item>)
    ensures o in Slot(items) <==> o == None || (o.Some? && o.value in items)
  {
    var slot := Slot(items);
    if o.Some? && o.value in items {
      var i :| 0 <= i < |items| && items[i] == o.value;
      assert slot[i] == o;
    }
  }

  /** The concatenation of the first `n` lists of `ss`, in order. */
  function Flatten(ss: seq<seq<Equipment>>, n: nat): seq<Equipment>
    requires n <= |ss|
  {
    if n == 0 then [] else Flatten(ss, n - 1) + ss[n - 1]
  }

  lemma {:induction false} FlattenMembers(ss: seq<seq<Equipment>>, n: nat, e: Equipment)
    requires n <= |ss|
    ensures e in Flatten(ss, n) <==> exists i :: 0 <= i < n && e in ss[i]
  {
    if n > 0 {
      FlattenMembers(ss, n - 1, e);
    }
  }

  /** One entry per round of the innermost loop: a fixed weapon, armor and
      left ring with the next right ring, or nothing when the two rings are
      equal. */
  function RightRingChoices(w: Item, a: Option<Item>, l: Option<Item>, rings: seq<Option<Item>>): (c: seq<seq<Equipment>>)
    ensures |c| == |rings|
  {
    seq(|rings|, m requires 0 <= m < |rings| => if l != rings[m] then [Equipment(w, a, l, rings[m])] else [])
  }

  /** One entry per round of the left-ring loop. */
  function LeftRingChoices(w: Item, a: Option<Item>, rings: seq<Option<Item>>): (c: seq<seq<Equipment>>)
    ensures |c| == |rings|
  {
    seq(|rings|, k requires 0 <= k < |rings| => Flatten(RightRingChoices(w, a, rings[k], rings), |rings|))
  }

  /** One entry per round of the armor loop. */
  function ArmorChoices(w: Item, armors: seq<Option<Item>>, rings: seq<Option<Item>>): (c: seq<seq<Equipment>>)
    ensures |c| == |armors|
  {
    seq(|armors|, j requires 0 <= j < |armors| => Flatten(LeftRingChoices(w, armors[j], rings), |rings|))
  }

  /** One entry per round of the weapon loop. */
  function WeaponChoices(weapons: seq<Item>, armors: seq<Option<Item>>, rings: seq<Option<Item>>): (c: seq<seq<Equipment>>)
    ensures |c| == |weapons|
  {
    seq(|weapons|, i requires 0 <= i < |weapons| => Flatten(ArmorChoices(weapons[i], armors, rings), |armors|))
  }

  /** Every loadout `get_all_equipments` generates, in its order. */
  function Loadouts(shop: Shop): seq<Equipment>
  {
    Flatten(WeaponChoices(shop.weapons, Slot(shop.armors), Slot(shop.rings)), |shop.weapons|)
  }

  /** An optional slot holding nothing or an item of the list. */
  predicate FromShop(o: Option<Item>, items: seq<Item>)
  {
    o.None? || o.value in items
  }

  /** What a generated loadout is: one weapon from the shop, armor from the
      shop or none, and two ring slots from the shop or empty that differ. */
  predicate Allowed(shop: Shop, e: Equipment)
  {
    e.weapon in shop.weapons && FromShop(e.armor, shop.armors)
    && FromShop(e.leftRing, shop.rings) && FromShop(e.rightRing, shop.rings)
    && e.leftRing != e.rightRing
  }

  lemma RightRingsMembers(w: Item, a: Option<Item>, l: Option<Item>, rings: seq<Option<Item>>, e: Equipment)
    ensures e in Flatten(RightRingChoices(w, a, l, rings), |rings|)
      <==> e.weapon == w && e.armor == a && e.leftRing == l && e.rightRing in rings && l != e.rightRing
  {
    var c := RightRingChoices(w, a, l, rings);
    FlattenMembers(c, |c|, e);
    if e.weapon == w && e.armor == a && e.leftRing == l && e.rightRing in rings && l != e.rightRing {
      var m :| 0 <= m < |rings| && rings[m] == e.rightRing;
      assert e in c[m];
    }
  }

  lemma LeftRingsMembers(w: Item, a: Option<Item>, rings: seq<Option<Item>>, e: Equipment)
    ensures e in Flatten(LeftRingChoices(w, a, rings), |rings|)
      <==> e.weapon == w && e.armor == a && e.leftRing in rings && e.rightRing in rings && e.leftRing != e.rightRing
  {
    var c := LeftRingChoices(w, a, rings);
    FlattenMembers(c, |c|, e);
    if e in Flatten(c, |c|) {
      var k :| 0 <= k < |c| && e in c[k];
      RightRingsMembers(w, a, rings[k], rings, e);
    }
    if e.weapon == w && e.armor == a && e.leftRing in rings && e.rightRing in rings && e.leftRing != e.rightRing {
      var k :| 0 <= k < |rings| && rings[k] == e.leftRing;
      RightRingsMembers(w, a, rings[k], rings, e);
      assert e in c[k];
    }
  }

  lemma ArmorsMembers(w: Item, armors: seq<Option<Item>>, rings: seq<Option<Item>>, e: Equipment)
    ensures e in Flatten(ArmorChoices(w, armors, rings), |armors|)
      <==> e.weapon == w && e.armor in armors && e.leftRing in rings && e.rightRing in rings && e.leftRing != e.rightRing
  {
    var c := ArmorChoices(w, armors, rings);
    FlattenMembers(c, |c|, e);
    if e in Flatten(c, |c|) {
      var j :| 0 <= j < |c| && e in c[j];
      LeftRingsMembers(w, armors[j], rings, e);
    }
    if e.weapon == w && e.armor in armors && e.leftRing in rings && e.rightRing in rings && e.leftRing != e.rightRing {
      var j :| 0 <= j < |armors| && armors[j] == e.armor;
      LeftRingsMembers(w, armors[j], rings, e);
      assert e in c[j];
    }
  }

  lemma WeaponsMembers(weapons: seq<Item>, armors: seq<Option<Item>>, rings: seq<Option<Item>>, e: Equipment)
    ensures e in Flatten(WeaponChoices(weapons, armors, rings), |weapons|)
      <==> e.weapon in weapons && e.armor in armors && e.leftRing in rings && e.rightRing in rings && e.leftRing != e.rightRing
  {
    var c := WeaponChoices(weapons, armors, rings);
    FlattenMembers(c, |c|, e);
    if e in Flatten(c, |c|) {
      var i :| 0 <= i < |c| && e in c[i];
      ArmorsMembers(weapons[i], armors, rings, e);
    }
    if e.weapon in weapons && e.armor in armors && e.leftRing in rings && e.rightRing in rings && e.leftRing != e.rightRing {
      var i :| 0 <= i < |weapons| && weapons[i] == e.weapon;
      ArmorsMembers(weapons[i], armors, rings, e);
      assert e in c[i];
    }
  }

  /** The loadouts are exactly the allowed equipments. */
  lemma LoadoutsAreAllowed(shop: Shop, e: Equipment)
    ensures e in Loadouts(shop) <==> Allowed(shop, e)
  {
    WeaponsMembers(shop.weapons, Slot(shop.armors), Slot(shop.rings), e);
    SlotMembers(shop.armors, e.armor);
    SlotMembers(shop.rings, e.leftRing);
    SlotMembers(shop.rings, e.rightRing);
  }

  /** With the default shop of day-22/src/game/shop.rs, every loadout costs
      between 28 gold (a dagger and the cheapest ring) and 356 gold (the great
      axe, the plate mail and the two dearest rings). */
  lemma DefaultShopCostRange(e: Equipment)
    requires e in Loadouts(DefaultShop)
    ensures 28 <= Cost(e) <= 356
  {
    NeverRingless(DefaultShop, e);
    LoadoutsAreAllowed(DefaultShop, e);
    assert e.weapon.cost >= 8 && e.weapon.cost <= 74;
    assert CostOf(e.armor) <= 102;
    assert CostOf(e.leftRing) + CostOf(e.rightRing) >= 20;
    if e.leftRing == Some(Damage3) {
      assert CostOf(e.rightRing) <= 80;
    } else {
      assert CostOf(e.leftRing) <= 80;
    }
  }

  /** Both bounds are reached by loadouts of the default shop. */
  lemma DefaultShopExtremes()
    ensures var cheapest := Equipment(Dagger, None, Some(Defense1), None);
      cheapest in Loadouts(DefaultShop) && Cost(cheapest) == 28
    ensures var dearest := Equipment(Greataxe, Some(Platemail), Some(Damage3), Some(Defense3));
      dearest in Loadouts(DefaultShop) && Cost(dearest) == 356
  {
    LoadoutsAreAllowed(DefaultShop, Equipment(Dagger, None, Some(Defense1), None));
    LoadoutsAreAllowed(DefaultShop, Equipment(Greataxe, Some(Platemail), Some(Damage3), Some(Defense3)));
  }

  /** Because two empty ring slots are equal, a loadout without any ring is
      never generated, and neither is one with the same ring on both hands. */
  lemma NeverRingless(shop: Shop, e: Equipment)
    requires e in Loadouts(shop)
    ensures e.leftRing.Some? || e.rightRing.Some?
    ensures e.leftRing != e.rightRing
  {
    LoadoutsAreAllowed(shop, e);
  }

  /** `get_all_equipments`: four nested loops pushing each allowed loadout.
      Each inner loop is a method of its own below, which appends what one
      round of the loop around it pushes. */
  method GetAllEquipments(shop: Shop) returns (equipments: seq<Equipment>)
    ensures equipments == Loadouts(shop)
  {
    var armors := Slot(shop.armors);
    var rings := Slot(shop.rings);
    ghost var choices := WeaponChoices(shop.weapons, armors, rings);
    equipments := [];
    for i := 0 to |shop.weapons|
      invariant equipments == Flatten(choices, i)
    {
      equipments := PushWithWeapon(equipments, shop.weapons[i], armors, rings);
    }
  }

  /** One round of the weapon loop: every armor choice with every ring pair. */
  method PushWithWeapon(equipments: seq<Equipment>, weapon: Item, armors: seq<Option<Item>>, rings: seq<Option<Item>>)
    returns (result: seq<Equipment>)
    ensures result == equipments + Flatten(ArmorChoices(weapon, armors, rings), |armors|)
  {
    ghost var choices := ArmorChoices(weapon, armors, rings);
    result := equipments;
    for j := 0 to |armors|
      invariant result == equipments + Flatten(choices, j)
    {
      result := PushWithArmor(result, weapon, armors[j], rings);
    }
  }

  /** One round of the armor loop: every left ring with every different
      right ring. */
  method PushWithArmor(equipments: seq<Equipment>, weapon: Item, armor: Option<Item>, rings: seq<Option<Item>>)
    returns (result: seq<Equipment>)
    ensures result == equipments + Flatten(LeftRingChoices(weapon, armor, rings), |rings|)
  {
    ghost var choices := LeftRingChoices(weapon, armor, rings);
    result := equipments;
    for k := 0 to |rings|
      invariant result == equipments + Flatten(choices, k)
    {
      ghost var before := result;
      result := PushWithLeftRing(result, weapon, armor, rings[k], rings);
      AppendRound(equipments, choices, k, before, result);
    }
  }

  /** Appending round `k` to the first `k` rounds gives the first `k + 1`. */
  lemma AppendRound(start: seq<Equipment>, ss: seq<seq<Equipment>>, k: nat, before: seq<Equipment>, after: seq<Equipment>)
    requires k < |ss| && before == start + Flatten(ss, k) && after == before + ss[k]
    ensures after == start + Flatten(ss, k + 1)
  {
  }

  /** One round of the left-ring loop: each right ring that differs from the
      left one. */
  method PushWithLeftRing(equipments: seq<Equipment>, weapon: Item, armor: Option<Item>, left: Option<Item>, rings: seq<Option<Item>>)
    returns (result: seq<Equipment>)
    ensures result == equipments + Flatten(RightRingChoices(weapon, armor, left, rings), |rings|)
  {
    ghost var choices := RightRingChoices(weapon, armor, left, rings);
    result := equipments;
    for m := 0 to |rings|
      invariant result == equipments + Flatten(choices, m)
    {
      if left != rings[m] {
        result := result + [Equipment(weapon, armor, left, rings[m])];
      }
    }
  }

  /** The result of fighting the boss with a loadout: each fight restores
      both fighters' health, so only their fixed stats matter. */
  function ResultWith(maxHealth: nat, e: Equipment, boss: BossState): FightResult
  {
    FightSpec(PlayerState(maxHealth, maxHealth, e), boss).result
  }

  /** What one round of the search learns about a loadout. */
  datatype Trial = Trial(cost: nat, result: FightResult)

  /** The trials of a list of loadouts, in order. */
  function Trials(es: seq<Equipment>, maxHealth: nat, boss: BossState): (ts: seq<Trial>)
    ensures |ts| == |es|
    ensures forall i :: 0 <= i < |es| ==> ts[i] == Trial(Cost(es[i]), ResultWith(maxHealth, es[i], boss))
  {
    seq(|es|, i requires 0 <= i < |es| => Trial(Cost(es[i]), ResultWith(maxHealth, es[i], boss)))
  }

  /** The fold `find_min_and_win` runs over the first `n` trials: the least
      cost among those that win. */
  function CheapestWin(ts: seq<Trial>, n: nat): Option<nat>
    requires n <= |ts|
  {
    if n == 0 then None
    else
      var best := CheapestWin(ts, n - 1);
      if ts[n - 1].result == Win then
        Some(if best.Some? then Min(best.value, ts[n - 1].cost) else ts[n - 1].cost)
      else best
  }

  /** The fold `find_max_and_lose` runs: the greatest cost among losses. */
  function DearestLoss(ts: seq<Trial>, n: nat): Option<nat>
    requires n <= |ts|
  {
    if n == 0 then None
    else
      var best := DearestLoss(ts, n - 1);
      if ts[n - 1].result == Loss then
        Some(if best.Some? then Max(best.value, ts[n - 1].cost) else ts[n - 1].cost)
      else best
  }

  /** `CheapestWin` is the minimum cost over the winning trials, and None
      exactly when nothing wins. */
  lemma {:induction false} CheapestWinIsMinimum(ts: seq<Trial>, n: nat)
    requires n <= |ts|
    ensures var r := CheapestWin(ts, n);
      && (r.None? <==> forall i :: 0 <= i < n ==> ts[i].result != Win)
      && (r.Some? ==> exists i :: 0 <= i < n && ts[i].result == Win && ts[i].cost == r.value)
      && (r.Some? ==> forall i :: 0 <= i < n && ts[i].result == Win ==> r.value <= ts[i].cost)
  {
    if n > 0 {
      CheapestWinIsMinimum(ts, n - 1);
    }
  }

  /** `DearestLoss` is the maximum cost over the losing trials, and None
      exactly when nothing loses; a stalemate counts as neither. */
  lemma {:induction false} DearestLossIsMaximum(ts: seq<Trial>, n: nat)
    requires n <= |ts|
    ensures var r := DearestLoss(ts, n);
      && (r.None? <==> forall i :: 0 <= i < n ==> ts[i].result != Loss)
      && (r.Some? ==> exists i :: 0 <= i < n && ts[i].result == Loss && ts[i].cost == r.value)
      && (r.Some? ==> forall i :: 0 <= i < n && ts[i].result == Loss ==> ts[i].cost <= r.value)
  {
    if n > 0 {
      DearestLossIsMaximum(ts, n - 1);
    }
  }

  /** `CheapestWin` over the trials of some loadouts, stated over the
      loadouts themselves. */
  lemma CheapestOver<E>(es: seq<E>, ts: seq<Trial>, cost: E -> nat, outcome: E -> FightResult)
    requires |ts| == |es| && forall i :: 0 <= i < |es| ==> ts[i] == Trial(cost(es[i]), outcome(es[i]))
    ensures var r := CheapestWin(ts, |es|);
      && (r.None? <==> forall e :: e in es ==> outcome(e) != Win)
      && (r.Some? ==> exists e :: e in es && outcome(e) == Win && cost(e) == r.value)
      && (r.Some? ==> forall e :: e in es && outcome(e) == Win ==> r.value <= cost(e))
  {
    var r := CheapestWin(ts, |es|);
    CheapestWinIsMinimum(ts, |es|);
    if r.Some? {
      var i :| 0 <= i < |es| && ts[i].result == Win && ts[i].cost == r.value;
      assert es[i] in es;
    }
    forall e | e in es && outcome(e) == Win
      ensures r.Some? && r.value <= cost(e)
    {
      var i :| 0 <= i < |es| && es[i] == e;
      assert ts[i].result == Win;
    }
  }

  /** The answer of `find_min_and_win` in terms of the shop: the least cost
      of an allowed loadout that beats the boss, or None if none does. */
  lemma MinAndWinAnswer(shop: Shop, maxHealth: nat, boss: BossState)
    ensures var es := Loadouts(shop);
      var r := CheapestWin(Trials(es, maxHealth, boss), |es|);
      && (r.None? <==> forall e :: Allowed(shop, e) ==> ResultWith(maxHealth, e, boss) != Win)
      && (r.Some? ==> exists e :: Allowed(shop, e) && ResultWith(maxHealth, e, boss) == Win && Cost(e) == r.value)
      && (r.Some? ==> forall e :: Allowed(shop, e) && ResultWith(maxHealth, e, boss) == Win ==> r.value <= Cost(e))
  {
    var es := Loadouts(shop);
    CheapestOver(es, Trials(es, maxHealth, boss), Cost, e => ResultWith(maxHealth, e, boss));
    forall e
      ensures Allowed(shop, e) <==> e in es
    {
      LoadoutsAreAllowed(shop, e);
    }
  }

  /** `DearestLoss` over the trials of some loadouts, stated over the
      loadouts themselves. */
  lemma DearestOver<E>(es: seq<E>, ts: seq<Trial>, cost: E -> nat, outcome: E -> FightResult)
    requires |ts| == |es| && forall i :: 0 <= i < |es| ==> ts[i] == Trial(cost(es[i]), outcome(es[i]))
    ensures var r := DearestLoss(ts, |es|);
      && (r.None? <==> forall e :: e in es ==> outcome(e) != Loss)
      && (r.Some? ==> exists e :: e in es && outcome(e) == Loss && cost(e) == r.value)
      && (r.Some? ==> forall e :: e in es && outcome(e) == Loss ==> cost(e) <= r.value)
  {
    var r := DearestLoss(ts, |es|);
    DearestLossIsMaximum(ts, |es|);
    if r.Some? {
      var i :| 0 <= i < |es| && ts[i].result == Loss && ts[i].cost == r.value;
      assert es[i] in es;
    }
    forall e | e in es && outcome(e) == Loss
      ensures r.Some? && cost(e) <= r.value
    {
      var i :| 0 <= i < |es| && es[i] == e;
      assert ts[i].result == Loss;
    }
  }

  /** The answer of `find_max_and_lose` in terms of the shop. */
  lemma MaxAndLoseAnswer(shop: Shop, maxHealth: nat, boss: BossState)
    ensures var es := Loadouts(shop);
      var r := DearestLoss(Trials(es, maxHealth, boss), |es|);
      && (r.None? <==> forall e :: Allowed(shop, e) ==> ResultWith(maxHealth, e, boss) != Loss)
      && (r.Some? ==> exists e :: Allowed(shop, e) && ResultWith(maxHealth, e, boss) == Loss && Cost(e) == r.value)
      && (r.Some? ==> forall e :: Allowed(shop, e) && ResultWith(maxHealth, e, boss) == Loss ==> Cost(e) <= r.value)
  {
    var es := Loadouts(shop);
    DearestOver(es, Trials(es, maxHealth, boss), Cost, e => ResultWith(maxHealth, e, boss));
    forall e
      ensures Allowed(shop, e) <==> e in es
    {
      LoadoutsAreAllowed(shop, e);
    }
  }

  /** One fight of the search: equip the player, fight, and report the
      result, which only depends on the loadout and the fixed stats. */
  method TryLoadout(player: Player, enemy: Boss, equipment: Equipment) returns (result: FightResult)
    modifies player, enemy
    ensures result == ResultWith(player.maxHealth, equipment, enemy.Rested())
  {
    player.SetEquipment(equipment);
    ghost var fighters := (player.State(), enemy.State());
    result := Fight(player, enemy);
    FightIgnoresLeftoverHealth(fighters.0, fighters.1, player.maxHealth, enemy.maxHealth);
  }

  /** `find_min_and_win` */
  method FindMinAndWin(player: Player, enemy: Boss, shop: Shop) returns (minCost: Option<nat>)
    modifies player, enemy
    ensures var es := Loadouts(shop); minCost == CheapestWin(Trials(es, player.maxHealth, enemy.Rested()), |es|)
  {
    var equipments := GetAllEquipments(shop);
    ghost var trials := Trials(equipments, player.maxHealth, enemy.Rested());
    minCost := None;
    for i := 0 to |equipments|
      invariant minCost == CheapestWin(trials, i)
    {
      var cost := Cost(equipments[i]);
      var result := TryLoadout(player, enemy, equipments[i]);
      if result == Win {
        minCost := Some(if minCost.Some? then Min(minCost.value, cost) else cost);
      }
    }
  }

  /** `find_max_and_lose` */
  method FindMaxAndLose(player: Player, enemy: Boss, shop: Shop) returns (maxCost: Option<nat>)
    modifies player, enemy
    ensures var es := Loadouts(shop); maxCost == DearestLoss(Trials(es, player.maxHealth, enemy.Rested()), |es|)
  {
    var equipments := GetAllEquipments(shop);
    ghost var trials := Trials(equipments, player.maxHealth, enemy.Rested());
    maxCost := None;
    for i := 0 to |equipments|
      invariant maxCost == DearestLoss(trials, i)
    {
      var cost := Cost(equipments[i]);
      var result := TryLoadout(player, enemy, equipments[i]);
      if result == Loss {
        maxCost := Some(if maxCost.Some? then Max(maxCost.value, cost) else cost);
      }
    }
  }
}
