/** The wizard's five spells (day-22/src/game/spell.rs and spells.rs). */
module Day22Spells {
  import opened Day22Effects

  datatype Spell = MagicMissile | Drain | Shield | Poison | Recharge

  /** What casting a spell produces: stats applied once, this turn, or a named
      effect registered with the caster. */
  datatype SpellEffect =
    | Immediate(stats: EffectStats)
    | TimeBased(name: string, effect: EffectValue)

  /** `get_cost` */
  function Cost(spell: Spell): (c: nat)
  {
    match spell
    case MagicMissile => 53
    case Drain => 73
    case Shield => 113
    case Poison => 173
    case Recharge => 229
  }

  /** The name under which a time-based spell registers its effect. */
  function EffectName(spell: Spell): string
  {
    match spell
    case Shield => "Shield"
    case Poison => "Poison"
    case Recharge => "Recharge"
    case _ => ""
  }

  /** The spells that register an effect under their own name. */
  predicate IsTimeBased(spell: Spell)
  {
    spell.Shield? || spell.Poison? || spell.Recharge?
  }

  /** `can_cast`: affordable, and for a time-based spell not while an effect
      under its own name is registered. */
  predicate CanCast(spell: Spell, mana: nat, activeEffects: set<string>)
  {
    mana >= Cost(spell) && (IsTimeBased(spell) ==> EffectName(spell) !in activeEffects)
  }

  /** The one-shot spells are an effect of duration 1 activated once at cast. */
  function ImmediateStats(kind: EffectKind): EffectStats
  {
    Tick(EffectValue(kind, 1)).1.stats
  }

  /** `cast_spell` */
  function Cast(spell: Spell): (e: SpellEffect)
  {
    match spell
    case MagicMissile => Immediate(ImmediateStats(DamagingEffect(4)))
    case Drain => Immediate(ImmediateStats(DrainEffect(2, 2)))
    case Shield => TimeBased("Shield", EffectValue(ShieldEffect(7), 6))
    case Poison => TimeBased("Poison", EffectValue(DamagingEffect(3), 6))
    case Recharge => TimeBased("Recharge", EffectValue(RechargingEffect(101), 5))
  }

  /** `get_default_spells`, in the order scripts index them. */
  function DefaultSpells(): (spells: seq<Spell>)
    ensures |spells| == 5
  {
    [MagicMissile, Drain, Shield, Poison, Recharge]
  }

  /** Every spell appears in the default list exactly once. */
  lemma DefaultSpellsListEachOnce(spell: Spell)
    ensures spell in DefaultSpells()
    ensures forall i, j :: 0 <= i < j < |DefaultSpells()| ==> DefaultSpells()[i] != DefaultSpells()[j]
  {
    match spell
    case MagicMissile => assert DefaultSpells()[0] == spell;
    case Drain => assert DefaultSpells()[1] == spell;
    case Shield => assert DefaultSpells()[2] == spell;
    case Poison => assert DefaultSpells()[3] == spell;
    case Recharge => assert DefaultSpells()[4] == spell;
  }

  /** What each spell does when cast: Magic Missile deals 4 and Drain deals 2
      and heals 2, both at once; Shield (+7 defense for 6 turns), Poison (3
      damage for 6 turns) and Recharge (+101 mana for 5 turns) register an
      effect under their own name. */
  lemma CastFacts()
    ensures Cast(MagicMissile) == Immediate(EffectStats(0, 4, 0, 0, 0))
    ensures Cast(Drain) == Immediate(EffectStats(0, 2, 0, 2, 0))
    ensures forall s: Spell :: Cast(s).TimeBased? <==> s in {Shield, Poison, Recharge}
    ensures forall s: Spell :: Cast(s).TimeBased? ==> Cast(s).name == EffectName(s)
    ensures Cast(Shield).effect == EffectValue(ShieldEffect(7), 6)
    ensures Cast(Poison).effect == EffectValue(DamagingEffect(3), 6)
    ensures Cast(Recharge).effect == EffectValue(RechargingEffect(101), 5)
  {
  }

  /** A castable spell is always affordable, the cheapest spell is Magic
      Missile, and with enough mana the only thing that blocks a cast is a
      running effect of the same time-based spell. */
  lemma CanCastFacts(spell: Spell, mana: nat, active: set<string>)
    ensures CanCast(spell, mana, active) ==> Cost(spell) <= mana
    ensures Cost(MagicMissile) <= Cost(spell)
    ensures mana < Cost(MagicMissile) ==> !CanCast(spell, mana, active)
    ensures Cost(spell) <= mana ==> (CanCast(spell, mana, active) <==> !(IsTimeBased(spell) && EffectName(spell) in active))
    ensures IsTimeBased(spell) <==> Cast(spell).TimeBased?
  {
  }
}
