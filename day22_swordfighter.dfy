/** A fighter whose strength is its equipment (day-22/src/game/swordfighter.rs):
    purely physical attacks, defense from the equipment, no turn preparation. */
module Day22SwordFighter {
  import opened Wrappers
  import opened Day22Attack
  import opened Day22Equipment

  datatype SwordFighterState = SwordFighterState(maxHealth: nat, health: nat, equipment: Equipment)

  /** `get_attack`: a physical hit of the equipment's attack power, never magic. */
  function SwordAttack(s: SwordFighterState): (a: Option<Attack>)
    ensures a.Some? && a.value.magicPower == 0
    ensures a.value.physicalPower == TotalAttackPower(Worn(s.equipment))
  {
    Some(Attack(AttackPower(s.equipment), 0))
  }

  /** `take_hit`: the shared damage formula against the equipment's defense. */
  function SwordTakeHit(s: SwordFighterState, attack: Attack): (r: SwordFighterState)
    ensures r.maxHealth == s.maxHealth && r.equipment == s.equipment
    ensures r.health <= s.health && (s.health > 0 ==> r.health < s.health)
    ensures r.health == 0 <==> s.health <= Damage(attack, TotalDefense(Worn(s.equipment)))
  {
    s.(health := NewHealth(attack, s.health, Defense(s.equipment)))
  }

  /** Better armor never lets a hit do more harm. */
  lemma MoreDefenseLessHarm(s: SwordFighterState, better: Equipment, attack: Attack)
    requires Defense(s.equipment) <= Defense(better)
    ensures SwordTakeHit(s, attack).health <= SwordTakeHit(s.(equipment := better), attack).health
  {
    DefenseOnlyReducesPhysical(attack, Defense(s.equipment), Defense(better));
  }

  class SwordFighter {
    const maxHealth: nat
    var health: nat
    var equipment: Equipment

    function State(): SwordFighterState
      reads this
    {
      SwordFighterState(maxHealth, health, equipment)
    }

    /** `new`: starts at full health. */
    constructor (health: nat, equipment: Equipment)
      ensures State() == SwordFighterState(health, health, equipment)
    {
      this.maxHealth := health;
      this.health := health;
      this.equipment := equipment;
    }

    /** `SwordFighter::default()`: 100 health and a dagger. */
    constructor Default()
      ensures State() == SwordFighterState(100, 100, DefaultEquipment())
    {
      maxHealth := 100;
      health := 100;
      equipment := DefaultEquipment();
    }

    /** `set_equipment` replaces the equipment and nothing else. */
    method SetEquipment(equipment: Equipment)
      modifies this
      ensures State() == old(State()).(equipment := equipment)
    {
      this.equipment := equipment;
    }

    /** `prepare_turn` does nothing. */
    method PrepareTurn(ownTurn: bool)
      ensures State() == old(State())
    {
    }

    method TakeHit(attack: Attack)
      modifies this
      ensures State() == SwordTakeHit(old(State()), attack)
    {
      health := NewHealth(attack, health, Defense(equipment));
    }

    function GetAttack(): Option<Attack>
      reads this
    {
      SwordAttack(State())
    }

    function GetDefense(): nat
      reads this
    {
      Defense(equipment)
    }

    predicate IsAlive()
      reads this
    {
      health > 0
    }

    /** `prepare_for_fight`: back to full health. */
    method PrepareForFight()
      modifies this
      ensures State() == old(State()).(health := maxHealth)
    {
      health := maxHealth;
    }
  }
}
