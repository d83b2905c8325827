/** The controllers that pick the wizard's spell each turn
    (day-22/src/game/wizardcontroller.rs and wizardcontrollers.rs): a recorded
    script, wrapped by a mana counter, wrapped by a round counter; this stack
    is the only controller the search uses (day-22/src/fightoptimizing.rs). */
module Day22Controllers {
  import opened Wrappers
  import opened Day22Spells

  /** The spell a script picks at position `index`: the spell at the scripted
      list index, provided the script has an entry there, the index names a
      spell and that spell can be cast; otherwise no spell. */
  function RecordedChoice(instructions: seq<nat>, index: nat, spells: seq<Spell>,
                          mana: nat, active: set<string>): (r: Option<Spell>)
  {
    if index < |instructions| && instructions[index] < |spells|
       && CanCast(spells[instructions[index]], mana, active)
    then Some(spells[instructions[index]])
    else None
  }

  /** A script never substitutes a spell: it either plays exactly the scripted,
      castable spell or gives up; past its end it always gives up. */
  lemma RecordedChoiceNeverSubstitutes(instructions: seq<nat>, index: nat, spells: seq<Spell>,
                                       mana: nat, active: set<string>)
    ensures var r := RecordedChoice(instructions, index, spells, mana, active);
      (r.Some? ==> index < |instructions| && instructions[index] < |spells|
                   && r.value == spells[instructions[index]] && CanCast(r.value, mana, active)
                   && Cost(r.value) <= mana)
      && (index >= |instructions| ==> r.None?)
      && ((index < |instructions| && instructions[index] < |spells|
           && CanCast(spells[instructions[index]], mana, active)) ==> r.Some?)
  {
  }

  /** The state of the whole controller stack, innermost first. */
  datatype ControllerState = ControllerState(
    instructions: seq<nat>, currentIndex: nat, manaUsage: nat, rounds: nat)

  /** One `choose_spell` call on the stack: count the round, let the script
      choose, and add the cost of a chosen spell to the mana used. */
  function Choose(c: ControllerState, spells: seq<Spell>, mana: nat, active: set<string>)
    : (r: (Option<Spell>, ControllerState))
  {
    var choice := RecordedChoice(c.instructions, c.currentIndex, spells, mana, active);
    (choice, ControllerState(c.instructions, c.currentIndex + 1,
                             c.manaUsage + (if choice.Some? then Cost(choice.value) else 0),
                             c.rounds + 1))
  }

  /** The wrappers never alter the script's decision; every call consumes one
      script entry and counts one round; the mana used grows by exactly the
      cost of the spell returned, which the caster can afford. */
  lemma ChooseAccounting(c: ControllerState, spells: seq<Spell>, mana: nat, active: set<string>)
    ensures var (choice, c') := Choose(c, spells, mana, active);
      choice == RecordedChoice(c.instructions, c.currentIndex, spells, mana, active)
      && c'.instructions == c.instructions
      && c'.currentIndex == c.currentIndex + 1
      && c'.rounds == c.rounds + 1
      && (choice.None? ==> c'.manaUsage == c.manaUsage)
      && (choice.Some? ==> c'.manaUsage == c.manaUsage + Cost(choice.value) && Cost(choice.value) <= mana)
  {
  }

  /** Two scripts agree at position `index`: both have an entry there and it
      is the same, or neither has one. */
  predicate SameEntry(a: seq<nat>, b: seq<nat>, index: nat)
  {
    (index < |a| <==> index < |b|) && (index < |a| ==> a[index] == b[index])
  }

  /** The stack only ever looks at the current entry of its script: replacing
      the script by one that agrees there changes nothing but the script. */
  lemma ChooseRescripted(c: ControllerState, script: seq<nat>, spells: seq<Spell>, mana: nat, active: set<string>)
    requires SameEntry(c.instructions, script, c.currentIndex)
    ensures Choose(c.(instructions := script), spells, mana, active)
            == (Choose(c, spells, mana, active).0, Choose(c, spells, mana, active).1.(instructions := script))
  {
  }

  /** `reset`, through all three layers. */
  function ResetState(c: ControllerState): (r: ControllerState)
  {
    ControllerState(c.instructions, 0, 0, 0)
  }

  /** `RecordedController`: replays a script of indices into the spell list. */
  class RecordedController {
    const instructions: seq<nat>
    var currentIndex: nat

    constructor (instructions: seq<nat>)
      ensures this.instructions == instructions && currentIndex == 0
    {
      this.instructions := instructions;
      currentIndex := 0;
    }

    method ChooseSpell(spells: seq<Spell>, mana: nat, active: set<string>) returns (spell: Option<Spell>)
      modifies this
      ensures currentIndex == old(currentIndex) + 1
      ensures spell == RecordedChoice(instructions, old(currentIndex), spells, mana, active)
    {
      var index: Option<nat> := if currentIndex < |instructions| then Some(instructions[currentIndex]) else None;
      currentIndex := currentIndex + 1;
      spell := None;
      if index.Some? && index.value < |spells| {
        var candidate := spells[index.value];
        if CanCast(candidate, mana, active) {
          spell := Some(candidate);
        }
      }
    }

    method Reset()
      modifies this
      ensures currentIndex == 0
    {
      currentIndex := 0;
    }
  }

  /** `ManaRecordingController`: adds up the cost of every spell chosen. */
  class ManaRecordingController {
    var manaUsage: nat
    const inner: RecordedController

    constructor (inner: RecordedController)
      ensures manaUsage == 0 && this.inner == inner
    {
      manaUsage := 0;
      this.inner := inner;
    }

    method ChooseSpell(spells: seq<Spell>, mana: nat, active: set<string>) returns (spell: Option<Spell>)
      modifies this, inner
      ensures inner.currentIndex == old(inner.currentIndex) + 1
      ensures spell == RecordedChoice(inner.instructions, old(inner.currentIndex), spells, mana, active)
      ensures manaUsage == old(manaUsage) + (if spell.Some? then Cost(spell.value) else 0)
    {
      spell := inner.ChooseSpell(spells, mana, active);
      if spell.Some? {
        manaUsage := manaUsage + Cost(spell.value);
      }
    }

    method Reset()
      modifies this, inner
      ensures manaUsage == 0 && inner.currentIndex == 0
    {
      manaUsage := 0;
      inner.Reset();
    }
  }

  /** `RoundCountingController`: counts the calls to `choose_spell`. */
  class RoundCountingController {
    var rounds: nat
    const inner: ManaRecordingController

    constructor (inner: ManaRecordingController)
      ensures rounds == 0 && this.inner == inner
    {
      rounds := 0;
      this.inner := inner;
    }

    /** The state of the whole stack. */
    function State(): ControllerState
      reads this, inner, inner.inner
    {
      ControllerState(inner.inner.instructions, inner.inner.currentIndex, inner.manaUsage, rounds)
    }

    method ChooseSpell(spells: seq<Spell>, mana: nat, active: set<string>) returns (spell: Option<Spell>)
      modifies this, inner, inner.inner
      ensures (spell, State()) == Choose(old(State()), spells, mana, active)
    {
      rounds := rounds + 1;
      spell := inner.ChooseSpell(spells, mana, active);
    }

    method Reset()
      modifies this, inner, inner.inner
      ensures State() == ResetState(old(State()))
    {
      rounds := 0;
      inner.Reset();
    }
  }

  /** `Controller::from_instructions`: a fresh stack over the script. */
  method FromInstructions(instructions: seq<nat>) returns (c: RoundCountingController)
    ensures fresh(c) && fresh(c.inner) && fresh(c.inner.inner)
    ensures c.State() == ControllerState(instructions, 0, 0, 0)
  {
    var recorded := new RecordedController(instructions);
    var recording := new ManaRecordingController(recorded);
    c := new RoundCountingController(recording);
  }

  /** `is_finished`: the script is at least as long as the number of rounds played. */
  predicate IsFinished(c: ControllerState)
  {
    |c.instructions| >= c.rounds
  }
}
