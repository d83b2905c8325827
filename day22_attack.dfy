/** The damage formula shared by every fighter of the wizard game
    (day-22/src/game/attack.rs). */
module Day22Attack {
  import opened Wrappers

  /** An attack has a physical part, which the target's defense reduces, and a
      magic part, which it does not. */
  datatype Attack = Attack(physicalPower: nat, magicPower: nat)

  /** Damage dealt by `attack` to a target with the given defense: the magic
      part plus what is left of the physical part after defense, but never
      less than 1. */
  function Damage(attack: Attack, defense: nat): (d: nat)
    ensures d >= 1
    ensures d >= attack.magicPower
    ensures defense < attack.physicalPower ==> d == attack.magicPower + attack.physicalPower - defense
    ensures attack.physicalPower <= defense ==> d == Max(1, attack.magicPower)
  {
    var magicDamage := attack.magicPower;
    var physicalDamage := SaturatingSub(attack.physicalPower, defense);
    Max(1, magicDamage + physicalDamage)
  }

  /** `calculate_new_health`: the target's health after the hit, saturating at 0. */
  function NewHealth(attack: Attack, health: nat, defense: nat): (h: nat)
    ensures h <= health
    ensures health > 0 ==> h < health
    ensures h == 0 <==> health <= Damage(attack, defense)
    ensures h > 0 ==> h + Damage(attack, defense) == health
  {
    SaturatingSub(health, Damage(attack, defense))
  }

  /** Magic damage ignores defense entirely. */
  lemma MagicIgnoresDefense(magic: nat, defense1: nat, defense2: nat)
    ensures Damage(Attack(0, magic), defense1) == Damage(Attack(0, magic), defense2)
  {
  }

  /** More defense never means more damage, and defense only ever removes the
      physical part: the damage never drops below the magic part or 1. */
  lemma DefenseOnlyReducesPhysical(attack: Attack, defense1: nat, defense2: nat)
    requires defense1 <= defense2
    ensures Damage(attack, defense2) <= Damage(attack, defense1)
    ensures Damage(attack, defense2) >= Max(1, attack.magicPower)
  {
  }
}
