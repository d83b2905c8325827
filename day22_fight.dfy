/** The fight between the wizard and the boss (day-22/src/game/fighter.rs):
    strict alternation of half-turns, each checking for death and for giving
    up after every hit.  The wizard is `self`, the boss `other`, as in the
    search that drives it. */
module Day22Fight {
  import opened Wrappers
  import opened Day22Attack
  import opened Day22Spells
  import opened Day22Controllers
  import opened Day22Wizard
  import opened Day22Boss

  datatype FightResult = Win | Loss

  /** Both fighters as values. */
  datatype Fighters = Fighters(wizard: WizardState, boss: BossState)

  /** Where a part of a round leaves the fight: decided, or still going. */
  datatype Step = Over(result: FightResult, last: Fighters) | Continue(next: Fighters)

  /** The hit `self` takes at the start of every round in hard mode. */
  const HardModeHit := Attack(0, 1)

  /** `get_attack` of the wizard, which is also its passive attack. */
  function WizardAttack(w: WizardState): Option<Attack>
  {
    AttackOf(w.attackPower)
  }

  /** Lines 46-55: in hard mode the wizard first loses a point of health,
      and the fight is lost if that kills it. */
  function HardModeSpec(f: Fighters, hard: bool): (s: Step)
  {
    if !hard then Continue(f)
    else
      var w := TakeHitSpec(f.wizard, HardModeHit);
      if w.health == 0 then Over(Loss, Fighters(w, f.boss)) else Continue(Fighters(w, f.boss))
  }

  /** Lines 57-86, the wizard's half-turn: both prepare (only the wizard
      casts), then the exchange of hits. */
  ghost function WizardTurnSpec(f: Fighters): (s: Step)
  {
    WizardStrikeSpec(Fighters(PrepareTurnSpec(f.wizard, true), f.boss))
  }

  /** Lines 70-86: the wizard may give up, then its attack hits the boss.
      The passive attack of lines 60-68 never hits: the boss has none. */
  function WizardStrikeSpec(f: Fighters): (s: Step)
  {
    var w := f.wizard;
    var b := f.boss;
    if w.givingUp then Over(Loss, Fighters(w, b))
    else
      var attack := WizardAttack(w);
      var b' := if attack.Some? then BossTakeHit(b, attack.value) else b;
      if b'.health == 0 then Over(Win, Fighters(w, b')) else Continue(Fighters(w, b'))
  }

  /** Lines 93-122, the boss's half-turn: both prepare (the wizard's effects
      act again), then the exchange of hits. */
  ghost function BossTurnSpec(f: Fighters): (s: Step)
  {
    BossStrikeSpec(Fighters(PrepareTurnSpec(f.wizard, false), f.boss))
  }

  /** Lines 96-122: the wizard's passive attack hits, the boss may give up,
      then its attack hits the wizard. */
  function BossStrikeSpec(f: Fighters): (s: Step)
  {
    var w := f.wizard;
    var b := f.boss;
    var passive := WizardAttack(w);
    var b' := if passive.Some? then BossTakeHit(b, passive.value) else b;
    if passive.Some? && b'.health == 0 then Over(Win, Fighters(w, b'))
    else if BossGivingUp(b') then Over(Win, Fighters(w, b'))
    else
      var attack := BossAttack(b');
      var w' := if attack.Some? then TakeHitSpec(w, attack.value) else w;
      if w'.health == 0 then Over(Loss, Fighters(w', b')) else Continue(Fighters(w', b'))
  }

  /** One pass of the loop of `fight` (lines 40-123). */
  ghost function RoundSpec(f: Fighters, hard: bool): (s: Step)
  {
    match HardModeSpec(f, hard)
    case Over(r, g) => Over(r, g)
    case Continue(g) => TurnsSpec(g)
  }

  /** Lines 57-122: the wizard's half-turn, then the boss's if the fight
      goes on. */
  ghost function TurnsSpec(f: Fighters): (s: Step)
  {
    match WizardTurnSpec(f)
    case Over(r, h) => Over(r, h)
    case Continue(h) => BossTurnSpec(h)
  }

  /** The script position and the number of rounds counted. */
  function Cursor(f: Fighters): nat
  {
    f.wizard.controller.currentIndex
  }

  function Script(f: Fighters): seq<nat>
  {
    f.wizard.controller.instructions
  }

  /** A round that goes on consumed exactly one script entry, which existed:
      the script running out makes the wizard give up. */
  lemma RoundProgress(f: Fighters, hard: bool)
    requires RoundSpec(f, hard).Continue?
    ensures Cursor(f) < |Script(f)|
    ensures Script(RoundSpec(f, hard).next) == Script(f)
    ensures Cursor(RoundSpec(f, hard).next) == Cursor(f) + 1
  {
    var g := HardModeSpec(f, hard).next;
    assert g.wizard.controller == f.wizard.controller;
    var w := g.wizard;
    var r := PrepareTurnSpec(w, true);
    assert WizardTurnSpec(g).Continue?;
    assert !r.givingUp by {
      assert WizardTurnSpec(g) == WizardStrikeSpec(Fighters(r, g.boss));
    }
    var choice := RecordedChoice(Script(f), Cursor(f), w.spells, w.mana, Survivors(w.effects).Keys);
    assert choice.Some? by {
      OwnTurnControl(w);
    }
    RecordedChoiceNeverSubstitutes(Script(f), Cursor(f), w.spells, w.mana, Survivors(w.effects).Keys);
    assert r.controller == Choose(w.controller, w.spells, w.mana, Survivors(w.effects).Keys).1 by {
      OwnTurnControl(w);
    }
    ChooseAccounting(w.controller, w.spells, w.mana, Survivors(w.effects).Keys);
    var h := WizardTurnSpec(g).next;
    assert h.wizard == r by {
      WizardStrikeKeepsWizard(Fighters(r, g.boss));
    }
    var q := PrepareTurnSpec(h.wizard, false);
    OtherTurnControl(h.wizard);
    BossStrikeKeepsController(Fighters(q, h.boss));
    assert RoundSpec(f, hard) == BossStrikeSpec(Fighters(q, h.boss));
    assert RoundSpec(f, hard).next.wizard.controller == r.controller;
  }

  /** The loop of `fight`, from the fighters as they are at the top of it.  It
      ends because every round consumes one entry of the wizard's script. */
  ghost function FightFrom(f: Fighters, hard: bool): (r: (FightResult, Fighters))
    decreases |Script(f)| - Cursor(f)
  {
    match RoundSpec(f, hard)
    case Over(result, g) => (result, g)
    case Continue(g) =>
      RoundProgress(f, hard);
      FightFrom(g, hard)
  }

  /** `fight`: both fighters prepare, then the loop runs. */
  ghost function FightSpec(f: Fighters, hard: bool): (FightResult, Fighters)
  {
    FightFrom(Fighters(PrepareForFightSpec(f.wizard), BossPrepareForFight(f.boss)), hard)
  }

  /** The fighters wherever a step left them. */
  function Reach(s: Step): Fighters
  {
    if s.Over? then s.last else s.next
  }

  function ManaUsed(f: Fighters): nat
  {
    f.wizard.controller.manaUsage
  }

  /** What a fight never undoes: the script and the spell list stay, the
      cursor only moves forward and in step with the round counter, and the
      mana used only grows. */
  predicate Advances(f: Fighters, g: Fighters)
  {
    Script(g) == Script(f) && g.wizard.spells == f.wizard.spells
    && Cursor(f) <= Cursor(g)
    && g.wizard.controller.rounds - Cursor(g) == f.wizard.controller.rounds - Cursor(f)
    && ManaUsed(f) <= ManaUsed(g)
  }

  /** The wizard's strike leaves the wizard as it is. */
  lemma WizardStrikeKeepsWizard(f: Fighters)
    ensures Reach(WizardStrikeSpec(f)).wizard == f.wizard
  {
  }

  /** The boss's strike touches only the wizard's health. */
  lemma BossStrikeKeepsController(f: Fighters)
    ensures Reach(BossStrikeSpec(f)).wizard == f.wizard.(health := Reach(BossStrikeSpec(f)).wizard.health)
  {
  }

  lemma WizardTurnAdvances(f: Fighters)
    ensures Advances(f, Reach(WizardTurnSpec(f)))
    ensures Cursor(Reach(WizardTurnSpec(f))) == Cursor(f) + 1
  {
    var r := PrepareTurnSpec(f.wizard, true);
    var g := Reach(WizardTurnSpec(f));
    assert g.wizard == r by {
      WizardStrikeKeepsWizard(Fighters(r, f.boss));
    }
    OwnTurnCounts(f.wizard);
    PrepareTurnKeeps(f.wizard, true);
    assert Script(g) == Script(f);
    assert g.wizard.spells == f.wizard.spells;
    assert Cursor(g) == Cursor(f) + 1;
    assert g.wizard.controller.rounds == f.wizard.controller.rounds + 1;
    assert ManaUsed(f) <= ManaUsed(g);
  }

  lemma BossTurnAdvances(f: Fighters)
    ensures Advances(f, Reach(BossTurnSpec(f)))
    ensures Cursor(Reach(BossTurnSpec(f))) == Cursor(f)
  {
    OtherTurnControl(f.wizard);
    PrepareTurnKeeps(f.wizard, false);
    BossStrikeKeepsController(Fighters(PrepareTurnSpec(f.wizard, false), f.boss));
  }

  /** One round advances the fight. */
  lemma RoundAdvances(f: Fighters, hard: bool)
    ensures Advances(f, Reach(RoundSpec(f, hard)))
    ensures Cursor(Reach(RoundSpec(f, hard))) <= Cursor(f) + 1
  {
    var h := HardModeSpec(f, hard);
    var g := Reach(h);
    assert g.wizard.controller == f.wizard.controller && g.wizard.spells == f.wizard.spells;
    if h.Over? {
      assert RoundSpec(f, hard) == h;
    } else {
      WizardTurnAdvances(g);
      var t := WizardTurnSpec(g);
      if t.Over? {
        assert RoundSpec(f, hard) == t;
      } else {
        BossTurnAdvances(t.next);
        assert RoundSpec(f, hard) == BossTurnSpec(t.next);
      }
    }
  }

  /** The whole loop advances the fight. */
  lemma {:induction false} FightAdvances(f: Fighters, hard: bool)
    ensures Advances(f, FightFrom(f, hard).1)
    decreases |Script(f)| - Cursor(f)
  {
    RoundAdvances(f, hard);
    if RoundSpec(f, hard).Continue? {
      RoundProgress(f, hard);
      FightAdvances(RoundSpec(f, hard).next, hard);
    }
  }

  /** A round whose script entry is missing or names no spell is lost on the
      spot: by the hard-mode hit (nothing consumed) or by giving up (the entry
      consumed, no mana spent). */
  lemma RoundGivesUp(f: Fighters, hard: bool)
    requires Cursor(f) >= |Script(f)| || Script(f)[Cursor(f)] >= |f.wizard.spells|
    ensures RoundSpec(f, hard).Over? && RoundSpec(f, hard).result == Loss
    ensures ManaUsed(RoundSpec(f, hard).last) == ManaUsed(f)
    ensures HardModeSpec(f, hard).Over? ==> RoundSpec(f, hard) == HardModeSpec(f, hard) && Cursor(RoundSpec(f, hard).last) == Cursor(f)
    ensures HardModeSpec(f, hard).Continue? ==> Cursor(RoundSpec(f, hard).last) == Cursor(f) + 1
  {
    if HardModeSpec(f, hard).Continue? {
      var w := HardModeSpec(f, hard).next.wizard;
      var started := StartTurnSpec(w);
      OwnTurnControl(w);
      ChooseAccounting(started.controller, started.spells, started.mana, started.effects.Keys);
    }
  }

  /** A fight whose script is used up is lost in the round it is in, and
      costs no mana. */
  lemma ExhaustedScriptLoses(f: Fighters, hard: bool)
    requires Cursor(f) >= |Script(f)|
    ensures FightFrom(f, hard).0 == Loss
    ensures ManaUsed(FightFrom(f, hard).1) == ManaUsed(f)
  {
    RoundGivesUp(f, hard);
  }

  /** Both fighters alive, the wizard within its maximum health. */
  predicate Live(f: Fighters)
  {
    0 < f.wizard.health <= f.wizard.maxHealth && f.boss.health > 0
  }

  /** A win leaves the boss dead and the wizard alive; a loss leaves the
      wizard dead or giving up and the boss alive. */
  predicate Decided(result: FightResult, g: Fighters)
  {
    (result == Win ==> g.boss.health == 0 && g.wizard.health > 0)
    && (result == Loss ==> (g.wizard.health == 0 || g.wizard.givingUp) && g.boss.health > 0)
  }

  /** A step either decides the fight properly or leaves both fighters alive. */
  predicate Sound(s: Step)
  {
    if s.Over? then Decided(s.result, s.last) else Live(s.next)
  }

  lemma HardModeSound(f: Fighters, hard: bool)
    requires Live(f)
    ensures Sound(HardModeSpec(f, hard))
  {
  }

  lemma WizardTurnSound(f: Fighters)
    requires Live(f)
    ensures Sound(WizardTurnSpec(f))
  {
    var g := Fighters(PrepareTurnSpec(f.wizard, true), f.boss);
    PrepareTurnHealth(f.wizard, true);
    WizardStrikeSound(g);
  }

  lemma WizardStrikeSound(g: Fighters)
    requires Live(g)
    ensures Sound(WizardStrikeSpec(g))
  {
  }

  lemma BossTurnSound(f: Fighters)
    requires Live(f)
    ensures Sound(BossTurnSpec(f))
  {
    var g := Fighters(PrepareTurnSpec(f.wizard, false), f.boss);
    PrepareTurnHealth(f.wizard, false);
    BossStrikeSound(g);
  }

  lemma BossStrikeSound(g: Fighters)
    requires Live(g)
    ensures Sound(BossStrikeSpec(g))
  {
  }

  lemma RoundSound(f: Fighters, hard: bool)
    requires Live(f)
    ensures Sound(RoundSpec(f, hard))
  {
    HardModeSound(f, hard);
    if HardModeSpec(f, hard).Continue? {
      var g := HardModeSpec(f, hard).next;
      WizardTurnSound(g);
      if WizardTurnSpec(g).Continue? {
        BossTurnSound(WizardTurnSpec(g).next);
      }
    }
  }

  /** Every fight that starts with both fighters alive ends with a dead or
      surrendering loser and a living winner. */
  lemma {:induction false} FightEndsWithLoser(f: Fighters, hard: bool)
    requires Live(f)
    ensures Decided(FightFrom(f, hard).0, FightFrom(f, hard).1)
    decreases |Script(f)| - Cursor(f)
  {
    RoundSound(f, hard);
    if RoundSpec(f, hard).Continue? {
      RoundProgress(f, hard);
      FightEndsWithLoser(RoundSpec(f, hard).next, hard);
    }
  }

  /** Both fighters, the wizard's script replaced. */
  function FightersWithScript(f: Fighters, script: seq<nat>): Fighters
  {
    Fighters(WithScript(f.wizard, script), f.boss)
  }

  function StepWithScript(s: Step, script: seq<nat>): Step
  {
    match s
    case Over(r, g) => Over(r, FightersWithScript(g, script))
    case Continue(g) => Continue(FightersWithScript(g, script))
  }

  /** `p` is a prefix of `s`. */
  predicate IsPrefix(p: seq<nat>, s: seq<nat>)
  {
    |p| <= |s| && s[..|p|] == p
  }

  lemma PrefixSameEntry(p: seq<nat>, s: seq<nat>, index: nat)
    requires IsPrefix(p, s) && index < |p|
    ensures SameEntry(p, s, index)
  {
    assert s[..|p|][index] == s[index];
  }

  lemma WizardTurnWithScript(f: Fighters, script: seq<nat>)
    requires SameEntry(Script(f), script, Cursor(f))
    ensures WizardTurnSpec(FightersWithScript(f, script)) == StepWithScript(WizardTurnSpec(f), script)
  {
    PrepareTurnWithScript(f.wizard, script, true);
  }

  lemma BossTurnWithScript(f: Fighters, script: seq<nat>)
    ensures BossTurnSpec(FightersWithScript(f, script)) == StepWithScript(BossTurnSpec(f), script)
  {
    PrepareTurnWithScript(f.wizard, script, false);
  }

  /** A round reads the script only at the cursor: a script that agrees there
      plays the same round. */
  lemma RoundWithScript(f: Fighters, script: seq<nat>, hard: bool)
    requires SameEntry(Script(f), script, Cursor(f))
    ensures RoundSpec(FightersWithScript(f, script), hard) == StepWithScript(RoundSpec(f, hard), script)
  {
    assert HardModeSpec(FightersWithScript(f, script), hard) == StepWithScript(HardModeSpec(f, hard), script);
    if HardModeSpec(f, hard).Continue? {
      var g := HardModeSpec(f, hard).next;
      WizardTurnWithScript(g, script);
      if WizardTurnSpec(g).Continue? {
        BossTurnWithScript(WizardTurnSpec(g).next, script);
      }
    }
  }

  /** How the fight `b` with the longer script `s` relates to the fight `a`
      with its prefix `p` (for a wizard with `n` spells): if `a` never asked
      for an entry past the end of `p`, `b` is the same fight; otherwise `a`
      was lost by giving up at the first missing entry, `b` spent at least as
      much mana, and `b` can only be a win if `s` names a valid spell there. */
  ghost predicate Replayed(p: seq<nat>, s: seq<nat>, n: nat, a: (FightResult, Fighters), b: (FightResult, Fighters))
  {
    (Cursor(a.1) <= |p| ==> b.0 == a.0 && b.1 == FightersWithScript(a.1, s))
    && (Cursor(a.1) > |p| ==>
          a.0 == Loss && ManaUsed(a.1) <= ManaUsed(b.1)
          && (b.0 == Win ==> |p| < |s| && s[|p|] < n))
  }

  /** The round at the end of the shorter script. */
  lemma FightPrefixAtEnd(f: Fighters, s: seq<nat>, hard: bool)
    requires IsPrefix(Script(f), s) && Cursor(f) == |Script(f)|
    ensures Replayed(Script(f), s, |f.wizard.spells|, FightFrom(f, hard), FightFrom(FightersWithScript(f, s), hard))
  {
    var p := Script(f);
    var fs := FightersWithScript(f, s);
    RoundGivesUp(f, hard);
    if HardModeSpec(f, hard).Over? {
      assert HardModeSpec(fs, hard) == StepWithScript(HardModeSpec(f, hard), s);
    } else {
      FightAdvances(fs, hard);
      if !(|p| < |s| && s[|p|] < |f.wizard.spells|) {
        RoundGivesUp(fs, hard);
      }
    }
  }

  /** A round inside the shorter script that ends the fight. */
  lemma FightPrefixLastRound(f: Fighters, s: seq<nat>, hard: bool)
    requires IsPrefix(Script(f), s) && Cursor(f) < |Script(f)| && RoundSpec(f, hard).Over?
    ensures Replayed(Script(f), s, |f.wizard.spells|, FightFrom(f, hard), FightFrom(FightersWithScript(f, s), hard))
  {
    PrefixSameEntry(Script(f), s, Cursor(f));
    RoundWithScript(f, s, hard);
    RoundAdvances(f, hard);
  }

  /** A round inside the shorter script that goes on is played alike. */
  lemma FightPrefixNextRound(f: Fighters, s: seq<nat>, hard: bool)
    requires IsPrefix(Script(f), s) && Cursor(f) < |Script(f)| && RoundSpec(f, hard).Continue?
    ensures var g := RoundSpec(f, hard).next;
      Script(g) == Script(f) && g.wizard.spells == f.wizard.spells && Cursor(g) == Cursor(f) + 1
      && FightFrom(f, hard) == FightFrom(g, hard)
      && FightFrom(FightersWithScript(f, s), hard) == FightFrom(FightersWithScript(g, s), hard)
  {
    PrefixSameEntry(Script(f), s, Cursor(f));
    RoundWithScript(f, s, hard);
    RoundProgress(f, hard);
    RoundAdvances(f, hard);
  }

  /** Replaying a fight with a longer script: see `Replayed`. */
  lemma {:induction false} FightPrefix(f: Fighters, s: seq<nat>, hard: bool)
    requires IsPrefix(Script(f), s) && Cursor(f) <= |Script(f)|
    ensures Replayed(Script(f), s, |f.wizard.spells|, FightFrom(f, hard), FightFrom(FightersWithScript(f, s), hard))
    decreases |Script(f)| - Cursor(f)
  {
    if Cursor(f) == |Script(f)| {
      FightPrefixAtEnd(f, s, hard);
    } else if RoundSpec(f, hard).Over? {
      FightPrefixLastRound(f, s, hard);
    } else {
      FightPrefixNextRound(f, s, hard);
      FightPrefix(RoundSpec(f, hard).next, s, hard);
    }
  }

  /** In hard mode every round costs the wizard exactly one point of health
      before anything else happens. */
  lemma HardModeCostsOne(f: Fighters)
    requires f.wizard.health > 0
    ensures Reach(HardModeSpec(f, true)).wizard.health == f.wizard.health - 1
    ensures HardModeSpec(f, true).Over? <==> f.wizard.health == 1
  {
  }

  /** The two objects hold the fighters `f`. */
  ghost predicate Holds(w: Wizard, b: Boss, f: Fighters)
    reads w, w.controller, w.controller.inner, w.controller.inner.inner, w.currentEffects.Values, b
  {
    w.Valid() && w.Models(f.wizard) && b.State() == f.boss
  }

  /** The objects hold where step `s` left the fight, and `outcome` reports
      whether it was decided. */
  ghost predicate Reached(w: Wizard, b: Boss, s: Step, outcome: Option<FightResult>)
    reads w, w.controller, w.controller.inner, w.controller.inner.inner, w.currentEffects.Values, b
  {
    match s
    case Over(r, g) => outcome == Some(r) && Holds(w, b, g)
    case Continue(g) => outcome == None && Holds(w, b, g)
  }

  /** Lines 46-55 of `fight`. */
  method HardModeTurn(w: Wizard, b: Boss, hard: bool, ghost f: Fighters) returns (outcome: Option<FightResult>)
    requires Holds(w, b, f)
    modifies w
    ensures Reached(w, b, HardModeSpec(f, hard), outcome)
    ensures w.currentEffects == old(w.currentEffects)
  {
    outcome := None;
    if hard {
      w.TakeHit(HardModeHit, f.wizard);
      if !w.IsAlive() {
        outcome := Some(Loss);
      }
    }
  }

  /** Lines 57-58 and 93-94 of `fight`: both fighters prepare; the boss's
      preparation does nothing. */
  method BothPrepare(w: Wizard, b: Boss, wizardsTurn: bool, ghost f: Fighters)
    requires Holds(w, b, f)
    modifies w, w.controller, w.controller.inner, w.controller.inner.inner, w.currentEffects.Values
    ensures Holds(w, b, Fighters(PrepareTurnSpec(f.wizard, wizardsTurn), f.boss))
    ensures forall name :: name in w.currentEffects ==>
              (name in old(w.currentEffects) && w.currentEffects[name] == old(w.currentEffects[name])) || fresh(w.currentEffects[name])
  {
    w.PrepareTurn(wizardsTurn, f.wizard);
    b.PrepareTurn(!wizardsTurn);
  }

  /** Lines 70-86 of `fight`. */
  method WizardStrike(w: Wizard, b: Boss, ghost f: Fighters) returns (outcome: Option<FightResult>)
    requires Holds(w, b, f)
    modifies b
    ensures Reached(w, b, WizardStrikeSpec(f), outcome)
  {
    if w.IsGivingUp() {
      return Some(Loss);
    }
    var attack := w.GetAttack();
    if attack.Some? {
      b.TakeHit(attack.value);
    }
    if !b.IsAlive() {
      return Some(Win);
    }
    return None;
  }

  /** Lines 96-122 of `fight`. */
  method BossStrike(w: Wizard, b: Boss, ghost f: Fighters) returns (outcome: Option<FightResult>)
    requires Holds(w, b, f)
    modifies w, b
    ensures Reached(w, b, BossStrikeSpec(f), outcome)
    ensures w.currentEffects == old(w.currentEffects)
  {
    var passive := w.GetPassiveAttack();
    if passive.Some? {
      b.TakeHit(passive.value);
      if !b.IsAlive() {
        return Some(Win);
      }
    }
    if b.IsGivingUp() {
      return Some(Win);
    }
    var attack := b.GetAttack();
    if attack.Some? {
      w.TakeHit(attack.value, f.wizard);
    }
    if !w.IsAlive() {
      return Some(Loss);
    }
    return None;
  }

  /** Lines 57-86 of `fight`. */
  method WizardTurn(w: Wizard, b: Boss, ghost f: Fighters) returns (outcome: Option<FightResult>)
    requires Holds(w, b, f)
    modifies w, w.controller, w.controller.inner, w.controller.inner.inner, w.currentEffects.Values, b
    ensures Reached(w, b, WizardTurnSpec(f), outcome)
    ensures forall name :: name in w.currentEffects ==>
              (name in old(w.currentEffects) && w.currentEffects[name] == old(w.currentEffects[name])) || fresh(w.currentEffects[name])
  {
    BothPrepare(w, b, true, f);
    outcome := WizardStrike(w, b, Fighters(PrepareTurnSpec(f.wizard, true), f.boss));
  }

  /** Lines 93-122 of `fight`. */
  method BossTurn(w: Wizard, b: Boss, ghost f: Fighters) returns (outcome: Option<FightResult>)
    requires Holds(w, b, f)
    modifies w, w.controller, w.controller.inner, w.controller.inner.inner, w.currentEffects.Values, b
    ensures Reached(w, b, BossTurnSpec(f), outcome)
    ensures forall name :: name in w.currentEffects ==>
              (name in old(w.currentEffects) && w.currentEffects[name] == old(w.currentEffects[name])) || fresh(w.currentEffects[name])
  {
    BothPrepare(w, b, false, f);
    outcome := BossStrike(w, b, Fighters(PrepareTurnSpec(f.wizard, false), f.boss));
  }

  /** Lines 57-122 of `fight`. */
  method Turns(w: Wizard, b: Boss, ghost f: Fighters) returns (outcome: Option<FightResult>)
    requires Holds(w, b, f)
    modifies w, w.controller, w.controller.inner, w.controller.inner.inner, w.currentEffects.Values, b
    ensures Reached(w, b, TurnsSpec(f), outcome)
    ensures forall name :: name in w.currentEffects ==>
              (name in old(w.currentEffects) && w.currentEffects[name] == old(w.currentEffects[name])) || fresh(w.currentEffects[name])
  {
    outcome := WizardTurn(w, b, f);
    if outcome.None? {
      outcome := BossTurn(w, b, WizardTurnSpec(f).next);
    }
  }

  /** One pass of the loop of `fight`. */
  method Round(w: Wizard, b: Boss, hard: bool, ghost f: Fighters) returns (outcome: Option<FightResult>)
    requires Holds(w, b, f)
    modifies w, w.controller, w.controller.inner, w.controller.inner.inner, w.currentEffects.Values, b
    ensures Reached(w, b, RoundSpec(f, hard), outcome)
    ensures forall name :: name in w.currentEffects ==>
              (name in old(w.currentEffects) && w.currentEffects[name] == old(w.currentEffects[name])) || fresh(w.currentEffects[name])
  {
    outcome := HardModeTurn(w, b, hard, f);
    if outcome.None? {
      outcome := Turns(w, b, HardModeSpec(f, hard).next);
    }
  }

  /** `fight`, with the wizard as `self` and the boss as `other`. */
  method Fight(w: Wizard, b: Boss, hard: bool, ghost f: Fighters) returns (result: FightResult)
    requires Holds(w, b, f)
    modifies w, w.controller, w.controller.inner, w.controller.inner.inner, w.currentEffects.Values, b
    ensures result == FightSpec(f, hard).0
    ensures Holds(w, b, FightSpec(f, hard).1)
  {
    w.PrepareForFight(f.wizard);
    b.PrepareForFight();
    ghost var start := Fighters(PrepareForFightSpec(f.wizard), BossPrepareForFight(f.boss));
    ghost var g := start;
    while true
      invariant Holds(w, b, g)
      invariant FightFrom(g, hard) == FightFrom(start, hard)
      invariant forall name :: name in w.currentEffects ==>
                  (name in old(w.currentEffects) && w.currentEffects[name] == old(w.currentEffects[name])) || fresh(w.currentEffects[name])
      decreases |Script(g)| - Cursor(g)
    {
      var outcome := Round(w, b, hard, g);
      if outcome.Some? {
        return outcome.value;
      }
      RoundProgress(g, hard);
      g := RoundSpec(g, hard).next;
    }
  }
}
