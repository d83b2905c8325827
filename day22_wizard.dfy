/** The wizard (day-22/src/game/wizard.rs): a fighter with mana, a registry of
    named time-based effects and a controller that picks a spell each turn.
    The pure part states what one turn does to the wizard as a value; the
    class performs it in place and is proved against that statement. */
module Day22Wizard {
  import opened Wrappers
  import opened Day22Attack
  import opened Day22Effects
  import opened Day22Spells
  import opened Day22Controllers

  /** The part of a set of stats that `apply_stats` adds to the wizard. */
  datatype Totals = Totals(attackPower: nat, defense: nat, healthRegeneration: nat, manaRegeneration: nat)

  const NoTotals := Totals(0, 0, 0, 0)

  function Plus(a: Totals, b: Totals): Totals
  {
    Totals(a.attackPower + b.attackPower, a.defense + b.defense,
           a.healthRegeneration + b.healthRegeneration, a.manaRegeneration + b.manaRegeneration)
  }

  lemma PlusNoTotals(t: Totals)
    ensures Plus(t, NoTotals) == t
  {
  }

  function Contribution(s: EffectStats): Totals
  {
    Totals(s.attackPower, s.defense, s.healthRegeneration, s.manaRegeneration)
  }

  /** The stats gathered in one turn, in the order they were gathered. */
  function TotalsOf(stats: seq<EffectStats>): Totals
  {
    if stats == [] then NoTotals
    else Plus(TotalsOf(stats[..|stats| - 1]), Contribution(stats[|stats| - 1]))
  }

  /** What one activation of an effect of this kind contributes. */
  function KindTotals(kind: EffectKind): Totals
  {
    Contribution(StatsOf(kind, 0))
  }

  /** What one activation of an effect contributes this turn: its kind's stats
      while it has duration left, nothing once finished. */
  function TickContribution(e: EffectValue): Totals
  {
    if e.remainingDuration > 0 then KindTotals(e.kind) else NoTotals
  }

  /** TickContribution is what the activation itself reports. */
  lemma TickContributionReported(e: EffectValue)
    ensures Tick(e).1.Active? ==> TickContribution(e) == Contribution(Tick(e).1.stats)
    ensures Tick(e).1.Finished? ==> TickContribution(e) == NoTotals
  {
  }

  predicate Distinct(names: seq<string>)
  {
    forall i, j :: 0 <= i < j < |names| ==> names[i] != names[j]
  }

  /** `names` lists every key of `effects` exactly once. */
  ghost predicate Enumerates(names: seq<string>, effects: map<string, EffectValue>)
  {
    Distinct(names) && (forall name :: name in names <==> name in effects)
  }

  /** What the effect registered under `name`, if any, contributes when it
      is activated once. */
  function NameContribution(effects: map<string, EffectValue>, name: string): Totals
  {
    if name in effects then TickContribution(effects[name]) else NoTotals
  }

  /** The contributions of the effects registered under `names`, each
      activated once, in the order listed. */
  function SumSeq(effects: map<string, EffectValue>, names: seq<string>): Totals
  {
    if names == [] then NoTotals
    else Plus(SumSeq(effects, names[..|names| - 1]), NameContribution(effects, names[|names| - 1]))
  }

  lemma SumSeqSnoc(effects: map<string, EffectValue>, names: seq<string>, name: string)
    ensures SumSeq(effects, names + [name]) == Plus(SumSeq(effects, names), NameContribution(effects, name))
  {
    assert (names + [name])[..|names|] == names;
  }

  /** Taking any one effect out of the list and adding it last gives the same sum. */
  lemma {:induction false} SumSeqRemoveAt(effects: map<string, EffectValue>, names: seq<string>, j: nat)
    requires j < |names|
    ensures SumSeq(effects, names) ==
      Plus(SumSeq(effects, names[..j] + names[j + 1..]), NameContribution(effects, names[j]))
    decreases |names|
  {
    var last := |names| - 1;
    if j == last {
      assert names[..j] + names[j + 1..] == names[..last];
    } else {
      var init := names[..last];
      var shorter := init[..j] + init[j + 1..];
      assert shorter + [names[last]] == names[..j] + names[j + 1..];
      assert init[j] == names[j];
      SumSeqRemoveAt(effects, init, j);
      SumSeqSnoc(effects, shorter, names[last]);
    }
  }

  lemma DistinctRemoveAt(b: seq<string>, j: nat)
    requires Distinct(b) && j < |b|
    ensures Distinct(b[..j] + b[j + 1..])
    ensures forall n :: n in b[..j] + b[j + 1..] <==> n in b && n != b[j]
  {
    var rest := b[..j] + b[j + 1..];
    forall p, q | 0 <= p < q < |rest|
      ensures rest[p] != rest[q]
    {
      var p' := if p < j then p else p + 1;
      var q' := if q < j then q else q + 1;
      assert rest[p] == b[p'] && rest[q] == b[q'];
    }
    forall n
      ensures n in rest <==> n in b && n != b[j]
    {
      if n in rest {
        var i :| 0 <= i < |rest| && rest[i] == n;
        var i' := if i < j then i else i + 1;
        assert b[i'] == n;
      }
      if n in b && n != b[j] {
        var k :| 0 <= k < |b| && b[k] == n;
        if k < j {
          assert rest[k] == n;
        } else {
          assert rest[k - 1] == n;
        }
      }
    }
  }

  lemma HeadIsMember(b: seq<string>)
    requires b != []
    ensures b[0] in b
  {
  }

  /** The sum does not depend on the order in which the registry is visited. */
  lemma {:induction false} SumSeqPermutation(effects: map<string, EffectValue>, a: seq<string>, b: seq<string>)
    requires Distinct(a) && Distinct(b)
    requires forall n :: n in a <==> n in b
    ensures SumSeq(effects, a) == SumSeq(effects, b)
    decreases |a|
  {
    if a == [] {
      if b != [] {
        HeadIsMember(b);
        assert false;
      }
    } else {
      var last := |a| - 1;
      assert a[last] in b;
      var j :| 0 <= j < |b| && b[j] == a[last];
      SumSeqRemoveAt(effects, b, j);
      DistinctRemoveAt(b, j);
      DistinctRemoveAt(a, last);
      assert a[..last] + a[last + 1..] == a[..last];
      forall n
        ensures n in a[..last] <==> n in b[..j] + b[j + 1..]
      {
        assert n in a[..last] <==> n in a && n != a[last];
        assert n in b[..j] + b[j + 1..] <==> n in b && n != b[j];
      }
      SumSeqPermutation(effects, a[..last], b[..j] + b[j + 1..]);
    }
  }

  /** Every registry can be enumerated. */
  lemma {:induction false} EnumerationExists(effects: map<string, EffectValue>)
    ensures exists names :: Enumerates(names, effects)
    decreases |effects.Keys|
  {
    if effects.Keys == {} {
      assert Enumerates([], effects);
    } else {
      var name :| name in effects;
      var smaller := effects - {name};
      assert |smaller.Keys| < |effects.Keys| by {
        assert smaller.Keys == effects.Keys - {name};
      }
      EnumerationExists(smaller);
      var names :| Enumerates(names, smaller);
      assert Enumerates(names + [name], effects);
    }
  }

  /** Some fixed enumeration of the registry; which one does not matter. */
  ghost function Enumeration(effects: map<string, EffectValue>): (names: seq<string>)
    ensures Enumerates(names, effects)
  {
    EnumerationExists(effects);
    var names :| Enumerates(names, effects);
    names
  }

  /** The contributions of every registered effect, each activated once. */
  ghost function StandingTotals(effects: map<string, EffectValue>): Totals
  {
    SumSeq(effects, Enumeration(effects))
  }

  /** Any visiting order of the registry gathers the standing totals. */
  lemma AnyOrderGathersStanding(effects: map<string, EffectValue>, names: seq<string>)
    requires Enumerates(names, effects)
    ensures SumSeq(effects, names) == StandingTotals(effects)
  {
    SumSeqPermutation(effects, names, Enumeration(effects));
  }

  /** One more activation, in visiting order, extends the gathered stats and
      the running sum alike. */
  lemma GatherStep(effects: map<string, EffectValue>, order: seq<string>, name: string,
                   gathered: seq<EffectStats>, state: EffectState)
    requires name in effects
    requires TotalsOf(gathered) == SumSeq(effects, order)
    requires state == Tick(effects[name]).1
    ensures TotalsOf(if state.Active? then gathered + [state.stats] else gathered) == SumSeq(effects, order + [name])
  {
    TickContributionReported(effects[name]);
    SumSeqSnoc(effects, order, name);
    if state.Active? {
      TotalsOfSnoc(gathered, state.stats);
    } else {
      PlusNoTotals(TotalsOf(gathered));
    }
  }

  /** The bookkeeping of the activation loop: `order` lists the effects
      activated so far, `pending` the rest, and `deletions` those activated
      that do not stay. */
  ghost predicate Progress(before: map<string, EffectValue>, order: seq<string>, pending: set<string>,
                     deletions: set<string>)
  {
    && pending <= before.Keys
    && Distinct(order)
    && (forall name :: name in order <==> name in before && name !in pending)
    && deletions <= before.Keys
    && (forall name :: name in deletions <==> name in order && !Stays(before[name]))
  }

  lemma ProgressStep(before: map<string, EffectValue>, order: seq<string>, pending: set<string>,
                     deletions: set<string>, name: string, staged: bool)
    requires Progress(before, order, pending, deletions) && name in pending
    requires staged == !Stays(before[name])
    ensures Progress(before, order + [name], pending - {name}, if staged then deletions + {name} else deletions)
  {
    assert name !in order;
    forall i, j | 0 <= i < j < |order + [name]|
      ensures (order + [name])[i] != (order + [name])[j]
    {
      if j == |order| {
        assert (order + [name])[i] == order[i];
        assert order[i] in order;
      }
    }
  }

  lemma TotalsOfSnoc(gathered: seq<EffectStats>, stats: EffectStats)
    ensures TotalsOf(gathered + [stats]) == Plus(TotalsOf(gathered), Contribution(stats))
  {
    assert (gathered + [stats])[..|gathered|] == gathered;
  }

  /** An effect stays registered after its activation exactly when it reported
      Active with duration left. */
  predicate Stays(e: EffectValue)
  {
    Tick(e).1.Active? && Tick(e).1.stats.remainingDuration != 0
  }

  /** The registry after every effect was activated once and the finished or
      just-expired ones were removed. */
  function Survivors(effects: map<string, EffectValue>): map<string, EffectValue>
  {
    map name | name in effects && Stays(effects[name]) :: Tick(effects[name]).0
  }

  /** An effect survives a turn exactly when it had at least two activations
      left; it then has one fewer and keeps its kind. */
  lemma SurvivorsFacts(effects: map<string, EffectValue>, name: string)
    ensures name in Survivors(effects) <==> name in effects && effects[name].remainingDuration >= 2
    ensures name in Survivors(effects) ==>
      Survivors(effects)[name] == EffectValue(effects[name].kind, effects[name].remainingDuration - 1)
  {
  }

  /** The wizard as a value. */
  datatype WizardState = WizardState(
    health: nat, maxHealth: nat, mana: nat, standardMana: nat,
    effects: map<string, EffectValue>, spells: seq<Spell>,
    attackPower: nat, defense: nat,
    controller: ControllerState, givingUp: bool)

  /** The attack of a wizard whose effects give it this attack power: purely
      magic, and none at all when the power is 0. */
  function AttackOf(power: nat): (a: Option<Attack>)
  {
    if power > 0 then Some(Attack(0, power)) else None
  }

  /** Health regeneration is capped at the maximum health; the other stats add up. */
  function ApplyTotals(w: WizardState, t: Totals): WizardState
  {
    w.(health := Min(w.maxHealth, w.health + t.healthRegeneration),
       mana := w.mana + t.manaRegeneration,
       attackPower := w.attackPower + t.attackPower,
       defense := w.defense + t.defense)
  }

  /** The stats a cast adds this very turn. */
  function ImmediateTotals(choice: Option<Spell>): Totals
  {
    if choice.Some? && Cast(choice.value).Immediate? then Contribution(Cast(choice.value).stats) else NoTotals
  }

  /** The registry after a cast: a time-based spell registers its effect under
      its name (replacing any effect of that name). */
  function Register(effects: map<string, EffectValue>, choice: Option<Spell>): map<string, EffectValue>
  {
    if choice.Some? && Cast(choice.value).TimeBased?
    then effects[Cast(choice.value).name := Cast(choice.value).effect]
    else effects
  }

  /** Lines 87-104 of `prepare_turn`: attack and defense restart from 0, and
      the finished or just-expired effects leave the registry. */
  function StartTurnSpec(w: WizardState): WizardState
  {
    w.(effects := Survivors(w.effects), attackPower := 0, defense := 0)
  }

  /** What the controller answers for this wizard: castability is judged on
      the wizard's mana and registry as they are when it is asked. */
  function ChoiceOf(w: WizardState): (Option<Spell>, ControllerState)
  {
    Choose(w.controller, w.spells, w.mana, w.effects.Keys)
  }

  /** Lines 113-137 of `prepare_turn`: pay for the chosen spell and register
      its effect, or give up when there is no choice. */
  function CastSpec(w: WizardState): (r: WizardState)
  {
    var chosen := ChoiceOf(w);
    ChooseAccounting(w.controller, w.spells, w.mana, w.effects.Keys);
    w.(effects := Register(w.effects, chosen.0),
       controller := chosen.1,
       mana := w.mana - (if chosen.0.Some? then Cost(chosen.0.value) else 0),
       givingUp := chosen.0.None?)
  }

  /** `prepare_turn` as a function of the wizard before it: every registered
      effect is activated once and the expired ones removed; on its own turn
      the wizard then casts (castability judged on the mana before this turn's
      regeneration and on the registry after removal); finally everything
      gathered, including a one-shot spell's stats, is applied. */
  ghost function PrepareTurnSpec(w: WizardState, ownTurn: bool): (r: WizardState)
  {
    var standing := StandingTotals(w.effects);
    var started := StartTurnSpec(w);
    if ownTurn then
      ApplyTotals(CastSpec(started), Plus(standing, ImmediateTotals(ChoiceOf(started).0)))
    else
      ApplyTotals(started, standing)
  }

  /** `take_hit`: the wizard's own current defense counts. */
  function TakeHitSpec(w: WizardState, attack: Attack): WizardState
  {
    w.(health := NewHealth(attack, w.health, w.defense))
  }

  /** `prepare_for_fight`: full health, standard mana, not giving up, controller
      reset; the effect registry is left as it is. */
  function PrepareForFightSpec(w: WizardState): WizardState
  {
    w.(health := w.maxHealth, mana := w.standardMana, givingUp := false,
       controller := ResetState(w.controller))
  }

  /** A turn never changes the wizard's constants. */
  lemma PrepareTurnKeeps(w: WizardState, ownTurn: bool)
    ensures PrepareTurnSpec(w, ownTurn).spells == w.spells
    ensures PrepareTurnSpec(w, ownTurn).maxHealth == w.maxHealth
    ensures PrepareTurnSpec(w, ownTurn).standardMana == w.standardMana
  {
  }

  /** On its own turn the wizard asks the controller once, on the registry
      left after expiry, and gives up exactly when there is no answer. */
  lemma OwnTurnControl(w: WizardState)
    ensures var chosen := ChoiceOf(StartTurnSpec(w));
      PrepareTurnSpec(w, true).controller == chosen.1
      && PrepareTurnSpec(w, true).givingUp == chosen.0.None?
      && chosen.0 == RecordedChoice(w.controller.instructions, w.controller.currentIndex, w.spells, w.mana, Survivors(w.effects).Keys)
  {
  }

  /** Its own turn moves the wizard's script cursor and round counter on by
      one each, and never lowers the mana recorded as used. */
  lemma OwnTurnCounts(w: WizardState)
    ensures var c := PrepareTurnSpec(w, true).controller;
      c.instructions == w.controller.instructions
      && c.currentIndex == w.controller.currentIndex + 1
      && c.rounds == w.controller.rounds + 1
      && c.manaUsage >= w.controller.manaUsage
  {
    var started := StartTurnSpec(w);
    OwnTurnControl(w);
    ChooseAccounting(w.controller, w.spells, w.mana, started.effects.Keys);
  }

  /** On the other side's turn the controller is not asked. */
  lemma OtherTurnControl(w: WizardState)
    ensures PrepareTurnSpec(w, false).controller == w.controller
    ensures PrepareTurnSpec(w, false).givingUp == w.givingUp
  {
  }

  /** The wizard with its controller's script replaced. */
  function WithScript(w: WizardState, script: seq<nat>): WizardState
  {
    w.(controller := w.controller.(instructions := script))
  }

  /** A turn reads the script only at the current entry (and only on the
      wizard's own turn), so replacing the script by one that agrees there
      commutes with the turn. */
  lemma PrepareTurnWithScript(w: WizardState, script: seq<nat>, ownTurn: bool)
    requires ownTurn ==> SameEntry(w.controller.instructions, script, w.controller.currentIndex)
    ensures PrepareTurnSpec(WithScript(w, script), ownTurn) == WithScript(PrepareTurnSpec(w, ownTurn), script)
  {
    var started := StartTurnSpec(w);
    var standing := StandingTotals(w.effects);
    assert StartTurnSpec(WithScript(w, script)) == WithScript(started, script);
    if ownTurn {
      ChooseRescripted(started.controller, script, started.spells, started.mana, started.effects.Keys);
      assert ChoiceOf(WithScript(started, script)).0 == ChoiceOf(started).0;
      var cast := CastSpec(started);
      assert CastSpec(WithScript(started, script)) == WithScript(cast, script);
      var totals := Plus(standing, ImmediateTotals(ChoiceOf(started).0));
      assert ApplyTotals(WithScript(cast, script), totals) == WithScript(ApplyTotals(cast, totals), script);
    } else {
      assert ApplyTotals(WithScript(started, script), standing) == WithScript(ApplyTotals(started, standing), script);
    }
  }

  /** A turn only ever heals the wizard, and never past its maximum health. */
  lemma PrepareTurnHealth(w: WizardState, ownTurn: bool)
    requires w.health <= w.maxHealth
    ensures var r := PrepareTurnSpec(w, ownTurn);
      w.health <= r.health <= r.maxHealth == w.maxHealth
  {
  }

  /** One turn never lets health exceed the maximum; attack and defense come
      only from this turn's activations and cast; each surviving effect has
      lost exactly one activation; on the wizard's own turn the controller is
      asked exactly once, its choice is paid for out of the mana the wizard had
      (and recorded as mana used), and the wizard gives up exactly when there
      was no choice.  On the other side's turn mana is only regenerated and the
      controller untouched. */
  lemma {:induction false} PrepareTurnFacts(w: WizardState, ownTurn: bool)
    requires w.health <= w.maxHealth
    ensures var r := PrepareTurnSpec(w, ownTurn);
      var standing := StandingTotals(w.effects);
      r.health <= r.maxHealth && r.health >= w.health
      && r.maxHealth == w.maxHealth && r.standardMana == w.standardMana && r.spells == w.spells
      && (forall name :: name in Survivors(w.effects) && name in r.effects && r.effects[name] != Survivors(w.effects)[name] ==>
            ownTurn && r.controller.manaUsage > w.controller.manaUsage)
      && (!ownTurn ==> r.controller == w.controller && r.givingUp == w.givingUp
                       && r.mana == w.mana + standing.manaRegeneration
                       && r.effects == Survivors(w.effects)
                       && r.defense == standing.defense && r.attackPower == standing.attackPower)
      && (ownTurn ==>
            var chosen := Choose(w.controller, w.spells, w.mana, Survivors(w.effects).Keys);
            r.controller == chosen.1
            && r.givingUp == chosen.0.None?
            && (chosen.0.None? ==> r.mana == w.mana + standing.manaRegeneration
                                   && r.controller.manaUsage == w.controller.manaUsage
                                   && r.effects == Survivors(w.effects))
            && (chosen.0.Some? ==> Cost(chosen.0.value) <= w.mana
                                   && r.mana + Cost(chosen.0.value) == w.mana + standing.manaRegeneration
                                   && r.controller.manaUsage == w.controller.manaUsage + Cost(chosen.0.value)))
  {
    ChooseAccounting(w.controller, w.spells, w.mana, Survivors(w.effects).Keys);
  }

  class Wizard {
    var health: nat
    const maxHealth: nat
    var mana: nat
    const standardMana: nat
    var currentEffects: map<string, Effect>
    const spells: seq<Spell>
    var currentAttackPower: nat
    var currentDefense: nat
    const controller: RoundCountingController
    var givingUp: bool

    /** Health within the maximum, and every effect object owned by one name. */
    ghost predicate Valid()
      reads this
    {
      health <= maxHealth
      && forall a, b :: a in currentEffects && b in currentEffects && a != b ==> currentEffects[a] != currentEffects[b]
    }

    /** The object is the wizard `w`: every field agrees, and the registry
        holds exactly the effects of `w`. */
    ghost predicate Models(w: WizardState)
      reads this, controller, controller.inner, controller.inner.inner, currentEffects.Values
    {
      health == w.health && maxHealth == w.maxHealth && mana == w.mana && standardMana == w.standardMana
      && spells == w.spells && currentAttackPower == w.attackPower && currentDefense == w.defense
      && controller.State() == w.controller && givingUp == w.givingUp
      && Holds(w.effects)
    }

    constructor (maxHealth: nat, standardMana: nat, spells: seq<Spell>, controller: RoundCountingController)
      ensures Valid()
      ensures Models(WizardState(maxHealth, maxHealth, standardMana, standardMana, map[], spells,
                                 0, 0, controller.State(), false))
      ensures currentEffects == map[] && this.controller == controller
    {
      health := maxHealth;
      this.maxHealth := maxHealth;
      mana := standardMana;
      this.standardMana := standardMana;
      currentEffects := map[];
      this.spells := spells;
      currentAttackPower := 0;
      currentDefense := 0;
      this.controller := controller;
      givingUp := false;
    }

    predicate IsEffectActive(name: string)
      reads this
    {
      name in currentEffects
    }

    function GetAttack(): Option<Attack>
      reads this
    {
      AttackOf(currentAttackPower)
    }

    /** The wizard's effects hit at the start of every turn, the boss's too. */
    function GetPassiveAttack(): Option<Attack>
      reads this
    {
      GetAttack()
    }

    predicate IsGivingUp()
      reads this
    {
      givingUp
    }

    predicate IsAlive()
      reads this
    {
      health > 0
    }

    /** `apply_stats` */
    method ApplyStats(stats: EffectStats)
      modifies this
      ensures health == Min(maxHealth, old(health) + stats.healthRegeneration)
      ensures mana == old(mana) + stats.manaRegeneration
      ensures currentAttackPower == old(currentAttackPower) + stats.attackPower
      ensures currentDefense == old(currentDefense) + stats.defense
      ensures currentEffects == old(currentEffects) && givingUp == old(givingUp)
    {
      health := Min(maxHealth, health + stats.healthRegeneration);
      mana := mana + stats.manaRegeneration;
      currentAttackPower := currentAttackPower + stats.attackPower;
      currentDefense := currentDefense + stats.defense;
    }

    method TakeHit(attack: Attack, ghost w: WizardState)
      requires Valid() && Models(w)
      modifies this
      ensures Valid() && Models(TakeHitSpec(w, attack))
      ensures currentEffects == old(currentEffects)
    {
      health := NewHealth(attack, health, currentDefense);
    }

    method PrepareForFight(ghost w: WizardState)
      requires Valid() && Models(w)
      modifies this, controller, controller.inner, controller.inner.inner
      ensures Valid() && Models(PrepareForFightSpec(w))
      ensures currentEffects == old(currentEffects)
    {
      givingUp := false;
      health := maxHealth;
      mana := standardMana;
      controller.Reset();
    }

    /** The registry holds exactly the effects described by `effects`. */
    ghost predicate Holds(effects: map<string, EffectValue>)
      reads this, currentEffects.Values
    {
      currentEffects.Keys == effects.Keys
      && forall name :: name in currentEffects ==> currentEffects[name].Value() == effects[name]
    }

    /** Activate every registered effect once, in whatever order the
        registry is visited; returns the stats the active ones reported and the
        names of those that finished or just expired. */
    method ActivateEffects(ghost before: map<string, EffectValue>)
      returns (currentStats: seq<EffectStats>, deletions: set<string>)
      requires Valid() && Holds(before)
      modifies currentEffects.Values
      ensures deletions <= before.Keys
      ensures forall name :: name in currentEffects ==> currentEffects[name].Value() == Tick(before[name]).0
      ensures forall name :: name in before ==> (name in deletions <==> !Stays(before[name]))
      ensures TotalsOf(currentStats) == StandingTotals(before)
    {
      currentStats := [];
      deletions := {};
      var pending := currentEffects.Keys;
      ghost var order: seq<string> := [];
      while pending != {}
        invariant Progress(before, order, pending, deletions)
        invariant forall name :: name in pending ==> currentEffects[name].Value() == before[name]
        invariant forall name :: name in order ==> currentEffects[name].Value() == Tick(before[name]).0
        invariant TotalsOf(currentStats) == SumSeq(before, order)
        modifies currentEffects.Values
        decreases pending
      {
        var name :| name in pending;
        var state := ActivateOne(name);
        GatherStep(before, order, name, currentStats, state);
        var stagedForDeletion := true;
        if state.Active? {
          stagedForDeletion := state.stats.remainingDuration == 0;
          currentStats := currentStats + [state.stats];
        }
        ProgressStep(before, order, pending, deletions, name, stagedForDeletion);
        if stagedForDeletion {
          deletions := deletions + {name};
        }
        pending := pending - {name};
        order := order + [name];
      }
      AnyOrderGathersStanding(before, order);
    }

    /** One activation of the loop of `prepare_turn`: only the named effect
        changes, by one tick. */
    method ActivateOne(name: string) returns (state: EffectState)
      requires Valid() && name in currentEffects
      modifies currentEffects[name]
      ensures (currentEffects[name].Value(), state) == Tick(old(currentEffects[name].Value()))
      ensures forall n :: n in currentEffects && n != name ==>
        currentEffects[n].Value() == old(currentEffects[n].Value())
    {
      var effect := currentEffects[name];
      state := effect.CauseEffect();
    }

    /** Lines 87-104 of `prepare_turn`: reset attack and defense, activate
        every effect once and drop the finished or expired ones; returns the
        stats gathered. */
    method StartTurn(ghost w: WizardState) returns (currentStats: seq<EffectStats>)
      requires Valid() && Models(w)
      modifies this, currentEffects.Values
      ensures Valid() && Models(StartTurnSpec(w))
      ensures forall name :: name in currentEffects ==> name in old(currentEffects) && currentEffects[name] == old(currentEffects[name])
      ensures TotalsOf(currentStats) == StandingTotals(w.effects)
    {
      ghost var control := controller.State();
      currentAttackPower := 0;
      currentDefense := 0;
      var deletions;
      currentStats, deletions := ActivateEffects(w.effects);
      assert controller.State() == control;
      currentEffects := currentEffects - deletions;
      ExpiredRemoved(w.effects, deletions);
      assert controller.State() == control;
    }

    /** Once the effects were activated, removing the finished or expired
        ones leaves exactly the survivors. */
    lemma ExpiredRemoved(before: map<string, EffectValue>, deletions: set<string>)
      requires currentEffects.Keys == before.Keys - deletions
      requires forall name :: name in before ==> (name in deletions <==> !Stays(before[name]))
      requires forall name :: name in currentEffects ==> currentEffects[name].Value() == Tick(before[name]).0
      ensures Holds(Survivors(before))
    {
      assert currentEffects.Keys == Survivors(before).Keys;
    }

    /** Lines 113-137 of `prepare_turn`: ask the controller for a spell, pay for
        it and register its effect, or give up; returns the stats a one-shot
        spell applies this turn. */
    method CastChosenSpell(ghost w: WizardState) returns (immediate: Option<EffectStats>)
      requires Valid() && Models(w)
      modifies this, controller, controller.inner, controller.inner.inner
      ensures Valid() && Models(CastSpec(w))
      ensures (if immediate.Some? then Contribution(immediate.value) else NoTotals) == ImmediateTotals(ChoiceOf(w).0)
      ensures forall name :: name in currentEffects ==>
                (name in old(currentEffects) && currentEffects[name] == old(currentEffects[name])) || fresh(currentEffects[name])
    {
      var possibleSpell := PayForChoice(w);
      ghost var paid := CastSpec(w).(effects := w.effects);
      immediate := RegisterSpell(possibleSpell, paid);
    }

    /** Lines 113-125 of `prepare_turn`: ask the controller, pay the chosen
        spell's cost, or give up when there is no choice. */
    method PayForChoice(ghost w: WizardState) returns (possibleSpell: Option<Spell>)
      requires Valid() && Models(w)
      modifies this, controller, controller.inner, controller.inner.inner
      ensures Valid() && Models(CastSpec(w).(effects := w.effects))
      ensures possibleSpell == ChoiceOf(w).0
      ensures currentEffects == old(currentEffects)
    {
      possibleSpell := controller.ChooseSpell(spells, mana, currentEffects.Keys);
      ChooseAccounting(w.controller, spells, mana, currentEffects.Keys);
      var manaCost := 0;
      if possibleSpell.Some? {
        manaCost := Cost(possibleSpell.value);
      }
      mana := mana - manaCost;
      givingUp := possibleSpell.None?;
    }

    /** Lines 126-137 of `prepare_turn`: a time-based spell's effect is
        registered under its name; a one-shot spell's stats are returned. */
    method RegisterSpell(possibleSpell: Option<Spell>, ghost w: WizardState) returns (immediate: Option<EffectStats>)
      requires Valid() && Models(w)
      modifies this
      ensures Valid() && Models(w.(effects := Register(w.effects, possibleSpell)))
      ensures (if immediate.Some? then Contribution(immediate.value) else NoTotals) == ImmediateTotals(possibleSpell)
      ensures forall name :: name in currentEffects ==>
                (name in old(currentEffects) && currentEffects[name] == old(currentEffects[name])) || fresh(currentEffects[name])
    {
      immediate := None;
      if possibleSpell.Some? {
        match Cast(possibleSpell.value)
        case Immediate(stats) =>
          immediate := Some(stats);
        case TimeBased(name, value) =>
          var effect := new Effect(value.kind, value.remainingDuration);
          currentEffects := currentEffects[name := effect];
      }
    }

    /** Line 140-142 of `prepare_turn`: apply every gathered stat, in order. */
    method ApplyAll(currentStats: seq<EffectStats>, ghost w: WizardState)
      requires Valid() && Models(w)
      modifies this
      ensures Valid() && Models(ApplyTotals(w, TotalsOf(currentStats)))
      ensures currentEffects == old(currentEffects)
    {
      var i := 0;
      while i < |currentStats|
        invariant 0 <= i <= |currentStats|
        invariant Valid() && Models(ApplyTotals(w, TotalsOf(currentStats[..i])))
        invariant currentEffects == old(currentEffects)
      {
        assert currentStats[..i + 1][..i] == currentStats[..i];
        ApplyStats(currentStats[i]);
        i := i + 1;
      }
      assert currentStats[..i] == currentStats;
    }

    /** `prepare_turn` */
    method PrepareTurn(ownTurn: bool, ghost w: WizardState)
      requires Valid() && Models(w)
      modifies this, controller, controller.inner, controller.inner.inner, currentEffects.Values
      ensures Valid() && Models(PrepareTurnSpec(w, ownTurn))
      ensures forall name :: name in currentEffects ==>
                (name in old(currentEffects) && currentEffects[name] == old(currentEffects[name])) || fresh(currentEffects[name])
    {
      var currentStats := StartTurn(w);
      ghost var standing := TotalsOf(currentStats);
      ghost var started := StartTurnSpec(w);
      ghost var cast := started;
      if ownTurn {
        var immediate := CastChosenSpell(started);
        cast := CastSpec(started);
        if immediate.Some? {
          TotalsOfSnoc(currentStats, immediate.value);
          currentStats := currentStats + [immediate.value];
        } else {
          PlusNoTotals(standing);
        }
        assert TotalsOf(currentStats) == Plus(standing, ImmediateTotals(ChoiceOf(started).0));
      }
      ApplyAll(currentStats, cast);
    }
  }
}
