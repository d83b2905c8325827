/** Time-based effects of the wizard game (day-22/src/game/effect.rs and
    effects.rs): each effect counts its remaining duration down by one per
    activation and reports the stats it contributes while it lasts. */
module Day22Effects {

  /** What one activation of an effect contributes to its bearer. */
  datatype EffectStats = EffectStats(
    remainingDuration: nat,
    attackPower: nat,
    defense: nat,
    healthRegeneration: nat,
    manaRegeneration: nat)

  datatype EffectState = Active(stats: EffectStats) | Finished

  /** The five effect types and the magnitudes each one carries. */
  datatype EffectKind =
    | DrainEffect(damage: nat, healthRegeneration: nat)
    | ShieldEffect(defense: nat)
    | DamagingEffect(attack: nat)
    | HealingEffect(health: nat)
    | RechargingEffect(mana: nat)

  /** An effect as a value: its kind and the duration it has left. */
  datatype EffectValue = EffectValue(kind: EffectKind, remainingDuration: nat)

  /** The stats an active effect of this kind reports, tagged with the
      duration left after the activation. */
  function StatsOf(kind: EffectKind, remaining: nat): (s: EffectStats)
    ensures s.remainingDuration == remaining
  {
    match kind
    case DrainEffect(damage, health) => EffectStats(remaining, damage, 0, health, 0)
    case ShieldEffect(defense) => EffectStats(remaining, 0, defense, 0, 0)
    case DamagingEffect(attack) => EffectStats(remaining, attack, 0, 0, 0)
    case HealingEffect(health) => EffectStats(remaining, 0, 0, health, 0)
    case RechargingEffect(mana) => EffectStats(remaining, 0, 0, 0, mana)
  }

  /** One activation (`cause_effect`) as a value: the effect afterwards and the
      state it reports. */
  function Tick(e: EffectValue): (r: (EffectValue, EffectState))
  {
    if e.remainingDuration > 0 then
      var remaining := e.remainingDuration - 1;
      (EffectValue(e.kind, remaining), Active(StatsOf(e.kind, remaining)))
    else
      (e, Finished)
  }

  /** `n` activations in a row. */
  function TickN(e: EffectValue, n: nat): (r: EffectValue)
    decreases n
  {
    if n == 0 then e else TickN(Tick(e).0, n - 1)
  }

  /** Each kind contributes only its own stat: a drain attacks and heals, a
      shield defends, a damaging effect attacks, a healing effect heals and a
      recharging effect restores mana; everything else is 0. */
  lemma StatsOfOwnStatOnly(kind: EffectKind, remaining: nat)
    ensures var s := StatsOf(kind, remaining);
      s.attackPower == (if kind.DrainEffect? then kind.damage else if kind.DamagingEffect? then kind.attack else 0)
      && s.defense == (if kind.ShieldEffect? then kind.defense else 0)
      && s.healthRegeneration == (if kind.DrainEffect? then kind.healthRegeneration else if kind.HealingEffect? then kind.health else 0)
      && s.manaRegeneration == (if kind.RechargingEffect? then kind.mana else 0)
  {
  }

  /** An activation never changes the kind, only ever counts down, and reports
      Active exactly when there was duration left; the reported stats are those
      of the effect's own kind with the duration now left. */
  lemma TickFacts(e: EffectValue)
    ensures Tick(e).0.kind == e.kind
    ensures Tick(e).1.Active? <==> e.remainingDuration > 0
    ensures Tick(e).1.Active? ==> Tick(e).0.remainingDuration + 1 == e.remainingDuration
    ensures Tick(e).1.Active? ==> Tick(e).1.stats == StatsOf(e.kind, Tick(e).0.remainingDuration)
    ensures Tick(e).1.Finished? ==> Tick(e).0 == e
  {
  }

  /** An effect created with duration d reports Active on exactly its first d
      activations (with remaining durations d-1, ..., 0) and Finished on every
      activation after that. */
  lemma {:induction false} ActiveExactlyDurationTimes(e: EffectValue, n: nat)
    ensures n <= e.remainingDuration ==> TickN(e, n) == EffectValue(e.kind, e.remainingDuration - n)
    ensures n < e.remainingDuration ==>
      Tick(TickN(e, n)).1 == Active(StatsOf(e.kind, e.remainingDuration - n - 1))
    ensures n >= e.remainingDuration ==> Tick(TickN(e, n)).1 == Finished
    ensures n >= e.remainingDuration ==> TickN(e, n) == EffectValue(e.kind, 0)
    decreases n
  {
    if n == 0 {
    } else if e.remainingDuration == 0 {
      assert Tick(e).0 == e;
      ActiveExactlyDurationTimes(e, n - 1);
      FinishedStays(e, n);
    } else {
      ActiveExactlyDurationTimes(Tick(e).0, n - 1);
    }
  }

  /** A finished effect stays finished and unchanged. */
  lemma {:induction false} FinishedStays(e: EffectValue, n: nat)
    requires e.remainingDuration == 0
    ensures TickN(e, n) == e
    decreases n
  {
    if n > 0 {
      FinishedStays(Tick(e).0, n - 1);
    }
  }

  /** A live effect object: its kind and magnitudes are fixed at construction,
      only the remaining duration changes. */
  class Effect {
    const kind: EffectKind
    var remainingDuration: nat

    constructor (kind: EffectKind, duration: nat)
      ensures this.kind == kind && remainingDuration == duration
    {
      this.kind := kind;
      remainingDuration := duration;
    }

    function Value(): EffectValue
      reads this
    {
      EffectValue(kind, remainingDuration)
    }

    /** `cause_effect`: one activation, in place. */
    method CauseEffect() returns (state: EffectState)
      modifies this
      ensures (Value(), state) == Tick(old(Value()))
    {
      if remainingDuration > 0 {
        remainingDuration := remainingDuration - 1;
        state := Active(StatsOf(kind, remainingDuration));
      } else {
        state := Finished;
      }
    }
  }
}
