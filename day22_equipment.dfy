/** Equipment for the sword-fighting game (day-22/src/game/equipment.rs): one
    weapon, optional armor and two optional rings, whose cost, attack power
    and defense add up. The item catalog and the shop
    (day-21/src/game/items.rs, day-22/src/game/shop.rs) are constants here. */
module Day22Equipment {
  import opened Wrappers

  /** An item of the shop. Weapons, armors and rings are all items; the Rust
      newtypes around `Item` only keep them apart in the type system. */
  datatype Item = Item(cost: nat, attackPower: nat, defense: nat)

  datatype Equipment = Equipment(weapon: Item, armor: Option<Item>, leftRing: Option<Item>, rightRing: Option<Item>)

  /** The items actually worn, weapon first. */
  function Worn(e: Equipment): (items: seq<Item>)
    ensures 1 <= |items| <= 4 && items[0] == e.weapon
    ensures forall i :: i in items ==> i == e.weapon || Some(i) in {e.armor, e.leftRing, e.rightRing}
  {
    [e.weapon] + Present(e.armor) + Present(e.leftRing) + Present(e.rightRing)
  }

  function Present(o: Option<Item>): (items: seq<Item>)
    ensures |items| <= 1
    ensures if o.Some? then items == [o.value] else items == []
  {
    if o.Some? then [o.value] else []
  }

  /** Totals over a list of items; the independent reference the getters are
      proved against. */
  function TotalCost(items: seq<Item>): nat
  {
    if |items| == 0 then 0 else TotalCost(items[..|items| - 1]) + items[|items| - 1].cost
  }

  function TotalAttackPower(items: seq<Item>): nat
  {
    if |items| == 0 then 0 else TotalAttackPower(items[..|items| - 1]) + items[|items| - 1].attackPower
  }

  function TotalDefense(items: seq<Item>): nat
  {
    if |items| == 0 then 0 else TotalDefense(items[..|items| - 1]) + items[|items| - 1].defense
  }

  /** An item that is absent counts 0. */
  function CostOf(o: Option<Item>): nat
  {
    if o.Some? then o.value.cost else 0
  }

  function AttackPowerOf(o: Option<Item>): nat
  {
    if o.Some? then o.value.attackPower else 0
  }

  function DefenseOf(o: Option<Item>): nat
  {
    if o.Some? then o.value.defense else 0
  }

  /** `get_cost` */
  function Cost(e: Equipment): (c: nat)
    ensures c >= e.weapon.cost
    ensures c == TotalCost(Worn(e))
  {
    WornTotals(e);
    e.weapon.cost + CostOf(e.armor) + CostOf(e.leftRing) + CostOf(e.rightRing)
  }

  /** `get_attack_power` */
  function AttackPower(e: Equipment): (a: nat)
    ensures a >= e.weapon.attackPower
    ensures a == TotalAttackPower(Worn(e))
  {
    WornTotals(e);
    e.weapon.attackPower + AttackPowerOf(e.armor) + AttackPowerOf(e.leftRing) + AttackPowerOf(e.rightRing)
  }

  /** `get_defense` */
  function Defense(e: Equipment): (d: nat)
    ensures d >= e.weapon.defense
    ensures d == TotalDefense(Worn(e))
  {
    WornTotals(e);
    e.weapon.defense + DefenseOf(e.armor) + DefenseOf(e.leftRing) + DefenseOf(e.rightRing)
  }

  /** The sums over the worn items are the slot-by-slot sums with absent
      slots counting 0. */
  lemma {:induction false} WornTotals(e: Equipment)
    ensures TotalCost(Worn(e)) == e.weapon.cost + CostOf(e.armor) + CostOf(e.leftRing) + CostOf(e.rightRing)
    ensures TotalAttackPower(Worn(e)) == e.weapon.attackPower + AttackPowerOf(e.armor) + AttackPowerOf(e.leftRing) + AttackPowerOf(e.rightRing)
    ensures TotalDefense(Worn(e)) == e.weapon.defense + DefenseOf(e.armor) + DefenseOf(e.leftRing) + DefenseOf(e.rightRing)
  {
    var a := [e.weapon];
    var b := a + Present(e.armor);
    var c := b + Present(e.leftRing);
    var d := c + Present(e.rightRing);
    AppendTotals(a, Present(e.armor));
    AppendTotals(b, Present(e.leftRing));
    AppendTotals(c, Present(e.rightRing));
  }

  /** Appending at most one item adds exactly that item's stats. */
  lemma AppendTotals(items: seq<Item>, o: seq<Item>)
    requires |o| <= 1
    ensures TotalCost(items + o) == TotalCost(items) + (if |o| == 1 then o[0].cost else 0)
    ensures TotalAttackPower(items + o) == TotalAttackPower(items) + (if |o| == 1 then o[0].attackPower else 0)
    ensures TotalDefense(items + o) == TotalDefense(items) + (if |o| == 1 then o[0].defense else 0)
  {
    if |o| == 1 {
      assert (items + o)[..|items + o| - 1] == items;
    } else {
      assert items + o == items;
    }
  }

  /** Filling an empty slot (armor, left ring or right ring) adds exactly the
      new item's stats to each total, so it never lowers any of them. */
  lemma ExtraItemNeverLowers(e: Equipment, item: Item)
    ensures e.armor.None? ==> var e' := e.(armor := Some(item));
      Cost(e') == Cost(e) + item.cost && AttackPower(e') == AttackPower(e) + item.attackPower
      && Defense(e') == Defense(e) + item.defense
    ensures e.leftRing.None? ==> var e' := e.(leftRing := Some(item));
      Cost(e') == Cost(e) + item.cost && AttackPower(e') == AttackPower(e) + item.attackPower
      && Defense(e') == Defense(e) + item.defense
    ensures e.rightRing.None? ==> var e' := e.(rightRing := Some(item));
      Cost(e') == Cost(e) + item.cost && AttackPower(e') == AttackPower(e) + item.attackPower
      && Defense(e') == Defense(e) + item.defense
  {
  }

  // The catalog of the item shop.
  const Dagger := Item(8, 4, 0)
  const Shortsword := Item(10, 5, 0)
  const Warhammer := Item(25, 6, 0)
  const Longsword := Item(40, 7, 0)
  const Greataxe := Item(74, 8, 0)

  const Leather := Item(13, 0, 1)
  const Chainmail := Item(31, 0, 2)
  const Splintmail := Item(53, 0, 3)
  const Bandedmail := Item(75, 0, 4)
  const Platemail := Item(102, 0, 5)

  const Damage1 := Item(25, 1, 0)
  const Damage2 := Item(50, 2, 0)
  const Damage3 := Item(100, 3, 0)
  const Defense1 := Item(20, 0, 1)
  const Defense2 := Item(40, 0, 2)
  const Defense3 := Item(80, 0, 3)

  datatype Shop = Shop(weapons: seq<Item>, armors: seq<Item>, rings: seq<Item>)

  /** `Shop::default()` */
  const DefaultShop := Shop([Dagger, Shortsword, Warhammer, Longsword, Greataxe],
                            [Leather, Chainmail, Splintmail, Bandedmail, Platemail],
                            [Damage1, Damage2, Damage3, Defense1, Defense2, Defense3])

  /** `Equipment::default()`: a dagger and nothing else. */
  function DefaultEquipment(): (e: Equipment)
    ensures Cost(e) == 8 && AttackPower(e) == 4 && Defense(e) == 0
    ensures Worn(e) == [Dagger]
  {
    Equipment(Dagger, None, None, None)
  }
}
