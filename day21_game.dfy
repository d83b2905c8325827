/** The equipment-based fight of day 21 (day-21/src/game/fighter.rs,
    player.rs, boss.rs): the player strikes first, every hit removes the
    attacker's power less the target's defense (possibly nothing), and the
    first fighter at 0 health loses. */
module Day21Game {
  import opened Wrappers
  import opened Day22Equipment

  datatype FightResult = Win | Loss | Unknown

  datatype PlayerState = PlayerState(maxHealth: nat, health: nat, equipment: Equipment)

  datatype BossState = BossState(maxHealth: nat, health: nat, attackPower: nat, defense: nat)

  /** `DEFAULT_BOSS` */
  const DefaultBoss := BossState(100, 100, 8, 2)

  /** `take_hit` of both fighters: saturating, with no minimum damage. */
  function HealthAfterHit(health: nat, attackPower: nat, defense: nat): (h: nat)
    ensures h <= health
    ensures attackPower <= defense ==> h == health
    ensures defense < attackPower && attackPower - defense < health ==> h == health - (attackPower - defense)
    ensures health <= SaturatingSub(attackPower, defense) ==> h == 0
  {
    SaturatingSub(health, SaturatingSub(attackPower, defense))
  }

  function PlayerTakeHit(p: PlayerState, attackPower: nat): (r: PlayerState)
    ensures r.maxHealth == p.maxHealth && r.equipment == p.equipment && r.health <= p.health
  {
    p.(health := HealthAfterHit(p.health, attackPower, Defense(p.equipment)))
  }

  function BossTakeHit(b: BossState, attackPower: nat): (r: BossState)
    ensures r.maxHealth == b.maxHealth && r.attackPower == b.attackPower && r.defense == b.defense
    ensures r.health <= b.health
  {
    b.(health := HealthAfterHit(b.health, attackPower, b.defense))
  }

  /** How a fight ended, with both fighters' health at that moment. */
  datatype Outcome = Outcome(result: FightResult, playerHealth: nat, bossHealth: nat)

  /** The exchange loop: the player deals `toBoss` per strike, then the boss
      deals `toPlayer`, until someone is at 0. At least one of the two hurts,
      so the sum of the healths falls every round. */
  function Exchange(playerHealth: nat, bossHealth: nat, toBoss: nat, toPlayer: nat): (o: Outcome)
    requires toBoss > 0 || toPlayer > 0
    ensures o.result != Unknown
    ensures o.playerHealth <= playerHealth && o.bossHealth <= bossHealth
    ensures o.result == Win ==> o.bossHealth == 0
    ensures o.result == Loss ==> o.playerHealth == 0 && o.bossHealth > 0
    decreases playerHealth + bossHealth
  {
    var boss' := SaturatingSub(bossHealth, toBoss);
    if boss' == 0 then Outcome(Win, playerHealth, 0)
    else
      var player' := SaturatingSub(playerHealth, toPlayer);
      if player' == 0 then Outcome(Loss, 0, boss')
      else Exchange(player', boss', toBoss, toPlayer)
  }

  /** The whole `fight`: both fighters start from full health; if neither
      can hurt the other the result is `Unknown` and no blow is exchanged. */
  function FightSpec(p: PlayerState, b: BossState): (o: Outcome)
  {
    var playerAttack := AttackPower(p.equipment);
    var playerDefense := Defense(p.equipment);
    if playerAttack <= b.defense && b.attackPower <= playerDefense then
      Outcome(Unknown, p.maxHealth, b.maxHealth)
    else
      Exchange(p.maxHealth, b.maxHealth, SaturatingSub(playerAttack, b.defense),
               SaturatingSub(b.attackPower, playerDefense))
  }

  /** Strikes needed to bring `health` to 0 at `damage` per strike (at least
      one: even a fighter at 0 health is struck before the check). */
  function StrikesNeeded(health: nat, damage: nat): (n: nat)
    requires damage > 0
    ensures n >= 1
    decreases health
  {
    if health <= damage then 1 else 1 + StrikesNeeded(health - damage, damage)
  }

  /** `StrikesNeeded` is the rounded-up quotient of health by damage: the
      smallest number of strikes whose total damage covers the health. */
  lemma {:induction false} StrikesNeededIsCeiling(health: nat, damage: nat)
    requires damage > 0 && health > 0
    ensures var n := StrikesNeeded(health, damage);
      (n - 1) * damage < health <= n * damage
    decreases health
  {
    if health > damage {
      var n' := StrikesNeeded(health - damage, damage);
      StrikesNeededIsCeiling(health - damage, damage);
      assert (n' + 1) * damage == n' * damage + damage;
    }
  }

  /** Who wins the exchange, in closed form: the player wins exactly when it
      hurts the boss and needs no more strikes than the boss does (the player
      strikes first, so a tie goes to the player). */
  lemma {:induction false} ExchangeWinner(playerHealth: nat, bossHealth: nat, toBoss: nat, toPlayer: nat)
    requires toBoss > 0 || toPlayer > 0
    requires playerHealth > 0 && bossHealth > 0
    ensures Exchange(playerHealth, bossHealth, toBoss, toPlayer).result == Win
      <==> toBoss > 0 && (toPlayer == 0 || StrikesNeeded(bossHealth, toBoss) <= StrikesNeeded(playerHealth, toPlayer))
    decreases playerHealth + bossHealth
  {
    var boss' := SaturatingSub(bossHealth, toBoss);
    var player' := SaturatingSub(playerHealth, toPlayer);
    if boss' != 0 && player' != 0 {
      ExchangeWinner(player', boss', toBoss, toPlayer);
    }
  }

  /** `fight` returns `Unknown` exactly when neither attack power exceeds the
      other's defense; otherwise it is decided. */
  lemma FightUnknown(p: PlayerState, b: BossState)
    ensures FightSpec(p, b).result == Unknown
      <==> AttackPower(p.equipment) <= b.defense && b.attackPower <= Defense(p.equipment)
  {
  }

  /** The closed form of `fight` for fighters with positive maximum health. */
  lemma FightWinner(p: PlayerState, b: BossState)
    requires p.maxHealth > 0 && b.maxHealth > 0
    ensures var toBoss := SaturatingSub(AttackPower(p.equipment), b.defense);
      var toPlayer := SaturatingSub(b.attackPower, Defense(p.equipment));
      FightSpec(p, b).result == Win
      <==> toBoss > 0 && (toPlayer == 0 || StrikesNeeded(b.maxHealth, toBoss) <= StrikesNeeded(p.maxHealth, toPlayer))
  {
    var toBoss := SaturatingSub(AttackPower(p.equipment), b.defense);
    var toPlayer := SaturatingSub(b.attackPower, Defense(p.equipment));
    if toBoss > 0 || toPlayer > 0 {
      ExchangeWinner(p.maxHealth, b.maxHealth, toBoss, toPlayer);
    }
  }

  /** Each fight starts by restoring both fighters' health, so what they had
      left from an earlier fight makes no difference. */
  lemma FightIgnoresLeftoverHealth(p: PlayerState, b: BossState, playerHealth: nat, bossHealth: nat)
    ensures FightSpec(p.(health := playerHealth), b.(health := bossHealth)) == FightSpec(p, b)
  {
  }

  class Player {
    const maxHealth: nat
    var health: nat
    var equipment: Equipment

    function State(): PlayerState
      reads this
    {
      PlayerState(maxHealth, health, equipment)
    }

    /** `Player::new`: starts at full health. */
    constructor (health: nat, equipment: Equipment)
      ensures State() == PlayerState(health, health, equipment)
    {
      maxHealth := health;
      this.health := health;
      this.equipment := equipment;
    }

    /** `Player::default()`: 100 health and a dagger. */
    constructor Default()
      ensures State() == PlayerState(100, 100, DefaultEquipment())
    {
      maxHealth := 100;
      health := 100;
      equipment := DefaultEquipment();
    }

    /** `set_equipment` changes the equipment and nothing else. */
    method SetEquipment(equipment: Equipment)
      modifies this
      ensures State() == old(State()).(equipment := equipment)
    {
      this.equipment := equipment;
    }

    method TakeHit(attackPower: nat)
      modifies this
      ensures State() == PlayerTakeHit(old(State()), attackPower)
    {
      health := HealthAfterHit(health, attackPower, Defense(equipment));
    }

    function GetAttackPower(): nat
      reads this
    {
      AttackPower(equipment)
    }

    function GetDefense(): nat
      reads this
    {
      Defense(equipment)
    }

    predicate IsAlive()
      reads this
    {
      health > 0
    }

    /** `replenish_health` */
    method ReplenishHealth()
      modifies this
      ensures State() == old(State()).(health := maxHealth)
    {
      health := maxHealth;
    }
  }

  class Boss {
    const maxHealth: nat
    var health: nat
    const attackPower: nat
    const defense: nat

    function State(): BossState
      reads this
    {
      BossState(maxHealth, health, attackPower, defense)
    }

    /** The boss as every fight sees it, after `replenish_health`. */
    function Rested(): (b: BossState)
      ensures b == State().(health := maxHealth)
    {
      BossState(maxHealth, maxHealth, attackPower, defense)
    }

    /** `Boss::default()` */
    constructor Default()
      ensures State() == DefaultBoss
    {
      maxHealth := 100;
      health := 100;
      attackPower := 8;
      defense := 2;
    }

    method TakeHit(attackPower: nat)
      modifies this
      ensures State() == BossTakeHit(old(State()), attackPower)
    {
      health := HealthAfterHit(health, attackPower, defense);
    }

    predicate IsAlive()
      reads this
    {
      health > 0
    }

    /** `replenish_health` */
    method ReplenishHealth()
      modifies this
      ensures State() == old(State()).(health := maxHealth)
    {
      health := maxHealth;
    }
  }

  /** `fight`, with the player as `self` and the boss as `other`: the loop
      runs the exchange on the live objects and ends as `FightSpec` says. */
  method Fight(player: Player, boss: Boss) returns (result: FightResult)
    modifies player, boss
    ensures var o := FightSpec(old(player.State()), old(boss.State()));
      result == o.result && player.health == o.playerHealth && boss.health == o.bossHealth
    ensures player.equipment == old(player.equipment)
  {
    player.ReplenishHealth();
    boss.ReplenishHealth();
    if player.GetAttackPower() <= boss.defense && boss.attackPower <= player.GetDefense() {
      return Unknown;
    }
    ghost var toBoss := SaturatingSub(player.GetAttackPower(), boss.defense);
    ghost var toPlayer := SaturatingSub(boss.attackPower, player.GetDefense());
    while true
      invariant player.equipment == old(player.equipment)
      invariant Exchange(player.health, boss.health, toBoss, toPlayer)
        == FightSpec(old(player.State()), old(boss.State()))
      decreases player.health + boss.health
    {
      boss.TakeHit(player.GetAttackPower());
      if !boss.IsAlive() {
        return Win;
      }
      player.TakeHit(boss.attackPower);
      if !player.IsAlive() {
        return Loss;
      }
    }
  }
}
