/** The boss of the wizard game (day-22/src/game/boss.rs): fixed attack and
    defense, health that only the shared damage formula lowers. */
module Day22Boss {
  import opened Wrappers
  import opened Day22Attack

  /** The boss as a value. */
  datatype BossState = BossState(maxHealth: nat, health: nat, attackPower: nat, defense: nat)

  /** `DEFAULT_BOSS` */
  const DefaultBoss := BossState(58, 58, 9, 2)

  /** `take_hit`: the boss's own defense counts. */
  function BossTakeHit(b: BossState, attack: Attack): (r: BossState)
  {
    b.(health := NewHealth(attack, b.health, b.defense))
  }

  /** `get_attack`: always a purely physical hit of the boss's attack power. */
  function BossAttack(b: BossState): (a: Option<Attack>)
  {
    Some(Attack(b.attackPower, 0))
  }

  /** The boss keeps the trait's defaults: no passive attack, and it never
      gives up. */
  function BossPassiveAttack(b: BossState): (a: Option<Attack>)
  {
    None
  }

  predicate BossGivingUp(b: BossState)
  {
    false
  }

  /** `prepare_for_fight`: back to full health, nothing else changes. */
  function BossPrepareForFight(b: BossState): (r: BossState)
  {
    b.(health := b.maxHealth)
  }

  /** A hit on a living boss always costs it at least one point of health and
      never more than the damage formula says; nothing but its health changes. */
  lemma BossHitFacts(b: BossState, attack: Attack)
    ensures var r := BossTakeHit(b, attack);
      r.maxHealth == b.maxHealth && r.attackPower == b.attackPower && r.defense == b.defense
      && r.health <= b.health
      && (b.health > 0 ==> r.health < b.health)
      && (r.health == 0 <==> b.health <= Damage(attack, b.defense))
  {
  }

  /** The wizard's hits are purely magic, so the boss's defense of 2 never
      softens them: each costs the boss exactly its magic power (or all it has left). */
  lemma MagicHitIgnoresBossDefense(b: BossState, magic: nat)
    requires magic > 0
    ensures BossTakeHit(b, Attack(0, magic)).health == SaturatingSub(b.health, magic)
  {
  }

  /** What the boss's attack does to a target: its attack power less the
      target's defense, but at least 1. */
  lemma BossAttackDamage(b: BossState, defense: nat)
    ensures BossAttack(b).Some?
    ensures Damage(BossAttack(b).value, defense) == Max(1, SaturatingSub(b.attackPower, defense))
  {
  }

  class Boss {
    const maxHealth: nat
    var health: nat
    const attackPower: nat
    const defense: nat

    function State(): BossState
      reads this
    {
      BossState(maxHealth, health, attackPower, defense)
    }

    /** `Boss::default()` */
    constructor Default()
      ensures State() == DefaultBoss
    {
      maxHealth := 58;
      health := 58;
      attackPower := 9;
      defense := 2;
    }

    /** `prepare_turn` does nothing but report. */
    method PrepareTurn(ownTurn: bool)
      ensures State() == old(State())
    {
    }

    method TakeHit(attack: Attack)
      modifies this
      ensures State() == BossTakeHit(old(State()), attack)
    {
      health := NewHealth(attack, health, defense);
    }

    function GetAttack(): Option<Attack>
      reads this
    {
      BossAttack(State())
    }

    function GetPassiveAttack(): Option<Attack>
      reads this
    {
      BossPassiveAttack(State())
    }

    predicate IsGivingUp()
      reads this
    {
      BossGivingUp(State())
    }

    predicate IsAlive()
      reads this
    {
      health > 0
    }

    method PrepareForFight()
      modifies this
      ensures State() == BossPrepareForFight(old(State()))
    {
      health := maxHealth;
    }
  }
}
