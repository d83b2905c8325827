/** The search for the cheapest winning fight (day-22/src/fightoptimizing.rs):
    a uniform-cost search over scripts of spell indices, ordered by the mana
    each script's fight spends. */
module Day22Search {
  import opened Wrappers
  import opened Day22Spells
  import opened Day22Controllers
  import opened Day22Wizard
  import opened Day22Boss
  import opened Day22Fight

  /** `Result` of `simulate_fight`: a loss with the script unexhausted is a
      plain loss, a loss because the script ran out is still in progress. */
  datatype SearchResult = Won | Lost | InProgress

  /** What `simulate_fight` fixes before each fight: the wizard's maximum
      health and standard mana, its spells, and the boss. */
  datatype Setup = Setup(maxHealth: nat, standardMana: nat, spells: seq<Spell>, boss: BossState)

  /** Lines 84-86: a wizard with 50 health, 500 mana and the default spells
      against the default boss. */
  const DefaultSetup := Setup(50, 500, DefaultSpells(), DefaultBoss)

  /** The wizard `simulate_fight` creates, with a fresh controller stack over
      the script. */
  function InitialWizard(setup: Setup, script: seq<nat>): WizardState
  {
    WizardState(setup.maxHealth, setup.maxHealth, setup.standardMana, setup.standardMana, map[],
                setup.spells, 0, 0, ControllerState(script, 0, 0, 0), false)
  }

  /** The fight `simulate_fight` runs for a script. */
  ghost function Simulation(setup: Setup, script: seq<nat>, hard: bool): (FightResult, Fighters)
  {
    FightSpec(Fighters(InitialWizard(setup, script), setup.boss), hard)
  }

  /** Lines 90-101 of `simulate_fight`: a win is a win, a loss is a loss
      only if the fight never asked past the end of the script; the mana is
      what the script's spells cost. */
  function Classify(fight: (FightResult, Fighters)): (SearchResult, nat)
  {
    var c := fight.1.wizard.controller;
    (if fight.0 == Win then Won else if IsFinished(c) then Lost else InProgress, c.manaUsage)
  }

  /** `simulate_fight`. */
  ghost function SimulateSpec(setup: Setup, script: seq<nat>, hard: bool): (SearchResult, nat)
  {
    Classify(Simulation(setup, script, hard))
  }

  ghost predicate Wins(setup: Setup, script: seq<nat>, hard: bool)
  {
    SimulateSpec(setup, script, hard).0 == Won
  }

  ghost function ManaOf(setup: Setup, script: seq<nat>, hard: bool): nat
  {
    SimulateSpec(setup, script, hard).1
  }

  /** The fighters at the top of the loop of a simulation. */
  function Start(setup: Setup, script: seq<nat>): Fighters
  {
    Fighters(PrepareForFightSpec(InitialWizard(setup, script)), BossPrepareForFight(setup.boss))
  }

  /** What the classification keeps of a fight: the win itself and the mana
      used. */
  lemma ClassifyFacts(fight: (FightResult, Fighters))
    ensures Classify(fight).0 == Won <==> fight.0 == Win
    ensures Classify(fight).1 == ManaUsed(fight.1)
  {
  }

  /** At the end of a simulation the round counter equals the script cursor,
      so "finished" means the fight never asked past the end of the script. */
  lemma SimulationCounts(setup: Setup, script: seq<nat>, hard: bool)
    ensures var g := Simulation(setup, script, hard).1;
      g.wizard.controller.rounds == Cursor(g) && Script(g) == script
  {
    FightAdvances(Start(setup, script), hard);
  }

  /** A script with no entries spends nothing and loses at once. */
  lemma EmptyScriptCostsNothing(setup: Setup, script: seq<nat>, hard: bool)
    requires |script| == 0
    ensures ManaOf(setup, script, hard) == 0
    ensures !Wins(setup, script, hard)
  {
    ExhaustedScriptLoses(Start(setup, script), hard);
    ClassifyFacts(Simulation(setup, script, hard));
  }

  /** The shorter script's fight, replayed with the longer one. */
  lemma SimulationPrefix(setup: Setup, p: seq<nat>, s: seq<nat>, hard: bool)
    requires IsPrefix(p, s)
    ensures Replayed(p, s, |setup.spells|, Simulation(setup, p, hard), Simulation(setup, s, hard))
  {
    assert Start(setup, s) == FightersWithScript(Start(setup, p), s);
    FightPrefix(Start(setup, p), s, hard);
  }

  /** How the classifications of a fight with script `p` and of its replay
      with the longer script `s` relate. */
  lemma ClassifiedReplay(p: seq<nat>, s: seq<nat>, n: nat, a: (FightResult, Fighters), b: (FightResult, Fighters))
    requires IsPrefix(p, s) && Replayed(p, s, n, a, b)
    requires a.1.wizard.controller.rounds == Cursor(a.1) && Script(a.1) == p
    ensures Classify(a).1 <= Classify(b).1
    ensures Classify(a).0 == Won ==> Classify(b) == Classify(a)
    ensures Classify(a).0 == Lost ==> Classify(b).0 == Lost
    ensures Classify(a).0 == InProgress && Classify(b).0 == Won ==> |p| < |s| && s[|p|] < n
  {
  }

  /** A child never spends less mana than its parent: the longer script plays
      the shorter one's fight up to the point where the shorter one gave up. */
  lemma PrefixMana(setup: Setup, p: seq<nat>, s: seq<nat>, hard: bool)
    requires IsPrefix(p, s)
    ensures ManaOf(setup, p, hard) <= ManaOf(setup, s, hard)
  {
    SimulationPrefix(setup, p, s, hard);
    SimulationCounts(setup, p, hard);
    ClassifiedReplay(p, s, |setup.spells|, Simulation(setup, p, hard), Simulation(setup, s, hard));
  }

  /** A script that loses without running out loses with anything appended:
      the fight never reached the appended entries. */
  lemma PrefixLoss(setup: Setup, p: seq<nat>, s: seq<nat>, hard: bool)
    requires IsPrefix(p, s) && SimulateSpec(setup, p, hard).0 == Lost
    ensures SimulateSpec(setup, s, hard).0 == Lost
  {
    SimulationPrefix(setup, p, s, hard);
    SimulationCounts(setup, p, hard);
    ClassifiedReplay(p, s, |setup.spells|, Simulation(setup, p, hard), Simulation(setup, s, hard));
  }

  /** A winning script stays winning, at the same cost, with anything
      appended. */
  lemma PrefixWin(setup: Setup, p: seq<nat>, s: seq<nat>, hard: bool)
    requires IsPrefix(p, s) && Wins(setup, p, hard)
    ensures Wins(setup, s, hard) && ManaOf(setup, s, hard) == ManaOf(setup, p, hard)
  {
    SimulationPrefix(setup, p, s, hard);
    SimulationCounts(setup, p, hard);
    ClassifiedReplay(p, s, |setup.spells|, Simulation(setup, p, hard), Simulation(setup, s, hard));
  }

  /** A winning extension of a script still in progress continues it with a
      valid spell index: it extends one of the script's sub-paths. */
  lemma PrefixExpand(setup: Setup, p: seq<nat>, s: seq<nat>, hard: bool)
    requires IsPrefix(p, s) && SimulateSpec(setup, p, hard).0 == InProgress && Wins(setup, s, hard)
    ensures |p| < |s| && s[|p|] < |setup.spells|
  {
    SimulationPrefix(setup, p, s, hard);
    SimulationCounts(setup, p, hard);
    ClassifiedReplay(p, s, |setup.spells|, Simulation(setup, p, hard), Simulation(setup, s, hard));
  }

  /** A longer script starts with the prefix extended by its next entry. */
  lemma PrefixExtended(p: seq<nat>, s: seq<nat>)
    requires IsPrefix(p, s) && |p| < |s|
    ensures IsPrefix(p + [s[|p|]], s)
  {
    assert s[..|p| + 1] == s[..|p|] + [s[|p|]];
  }

  /** `Path`: a script and the mana its fight spends. */
  datatype Path = Path(manaUsage: nat, spells: seq<nat>)

  datatype Ordering = Less | Equal | Greater

  /** `Ord for Path`: reversed on the mana used, so that the max-heap yields
      the cheapest path; equality looks at the mana used only. */
  function ComparePaths(a: Path, b: Path): (r: Ordering)
  {
    if b.manaUsage < a.manaUsage then Less
    else if b.manaUsage == a.manaUsage then Equal
    else Greater
  }

  lemma ComparePathsReversed(a: Path, b: Path)
    ensures ComparePaths(a, b) == Greater <==> a.manaUsage < b.manaUsage
    ensures ComparePaths(a, b) == Equal <==> a.manaUsage == b.manaUsage
    ensures ComparePaths(a, b) == Less <==> b.manaUsage < a.manaUsage
  {
  }

  /** The position `BinaryHeap::pop` takes: a greatest path under the path
      order, which is a path with the least mana used. */
  method GreatestPath(heap: seq<Path>) returns (m: nat)
    requires heap != []
    ensures m < |heap|
    ensures forall j :: 0 <= j < |heap| ==> ComparePaths(heap[j], heap[m]) != Greater
    ensures forall j :: 0 <= j < |heap| ==> heap[m].manaUsage <= heap[j].manaUsage
  {
    m := 0;
    var i := 1;
    while i < |heap|
      invariant 1 <= i <= |heap| && m < i
      invariant forall j :: 0 <= j < i ==> heap[m].manaUsage <= heap[j].manaUsage
    {
      if ComparePaths(heap[i], heap[m]) == Greater {
        m := i;
      }
      i := i + 1;
    }
  }

  /** The fight of a fresh wizard over any controller stack with the script
      is the script's simulation: `prepare_for_fight` resets the stack. */
  lemma FreshWizardSimulates(setup: Setup, c: ControllerState, hard: bool)
    ensures FightSpec(Fighters(InitialWizard(setup, c.instructions).(controller := c), setup.boss), hard)
            == Simulation(setup, c.instructions, hard)
  {
    assert PrepareForFightSpec(InitialWizard(setup, c.instructions).(controller := c))
           == PrepareForFightSpec(InitialWizard(setup, c.instructions));
  }

  /** `simulate_fight`: a fresh wizard over the controller fights the default
      boss; the controller is left as the fight left it. */
  method SimulateFight(controller: RoundCountingController, hard: bool) returns (result: SearchResult, manaUsage: nat)
    modifies controller, controller.inner, controller.inner.inner
    ensures controller.State() == Simulation(DefaultSetup, old(controller.State()).instructions, hard).1.wizard.controller
    ensures (result, manaUsage) == SimulateSpec(DefaultSetup, old(controller.State()).instructions, hard)
  {
    ghost var c := controller.State();
    ghost var f := Fighters(InitialWizard(DefaultSetup, c.instructions).(controller := c), DefaultBoss);
    var player := new Wizard(50, 500, DefaultSpells(), controller);
    var enemy := new Boss.Default();
    var fightResult := Fight(player, enemy, hard, f);
    ghost var outcome := FightSpec(f, hard);
    FreshWizardSimulates(DefaultSetup, c, hard);
    ghost var last := outcome.1.wizard.controller;
    assert controller.State() == last;
    assert fightResult == outcome.0;
    manaUsage := controller.inner.manaUsage;
    assert manaUsage == last.manaUsage;
    assert IsFinished(last) <==> |controller.inner.inner.instructions| >= controller.rounds;
    if fightResult == Win {
      result := Won;
    } else if |controller.inner.inner.instructions| >= controller.rounds {
      result := Lost;
    } else {
      result := InProgress;
    }
    ClassifyParts(outcome, result, manaUsage);
  }

  lemma ClassifyParts(fight: (FightResult, Fighters), result: SearchResult, manaUsage: nat)
    requires result == if fight.0 == Win then Won else if IsFinished(fight.1.wizard.controller) then Lost else InProgress
    requires manaUsage == fight.1.wizard.controller.manaUsage
    ensures (result, manaUsage) == Classify(fight)
  {
  }

  /** `Path::create_controller`: a fresh controller stack over the path's script. */
  method CreateController(path: Path) returns (c: RoundCountingController)
    ensures fresh(c) && fresh(c.inner) && fresh(c.inner.inner)
    ensures c.State() == ControllerState(path.spells, 0, 0, 0)
  {
    c := FromInstructions(path.spells);
  }

  /** Some path in the heap starts the script. */
  ghost predicate Covered(heap: seq<Path>, script: seq<nat>)
  {
    exists i :: 0 <= i < |heap| && IsPrefix(heap[i].spells, script)
  }

  /** Every path in the heap carries the mana its own simulation spends. */
  ghost predicate Priced(setup: Setup, heap: seq<Path>, hard: bool)
  {
    forall i :: 0 <= i < |heap| ==> heap[i].manaUsage == ManaOf(setup, heap[i].spells, hard)
  }

  lemma PricedAppend(setup: Setup, heap: seq<Path>, path: Path, hard: bool)
    requires Priced(setup, heap, hard) && path.manaUsage == ManaOf(setup, path.spells, hard)
    ensures Priced(setup, heap + [path], hard)
  {
    forall i | 0 <= i < |heap| + 1
      ensures (heap + [path])[i].manaUsage == ManaOf(setup, (heap + [path])[i].spells, hard)
    {
      if i < |heap| {
        assert (heap + [path])[i] == heap[i];
      }
    }
  }

  lemma PricedWithout(setup: Setup, heap: seq<Path>, m: nat, hard: bool)
    requires Priced(setup, heap, hard) && m < |heap|
    ensures Priced(setup, heap[..m] + heap[m + 1..], hard)
  {
    PricedSlice(setup, heap, 0, m, hard);
    assert heap[0..m] == heap[..m];
    PricedSlice(setup, heap, m + 1, |heap|, hard);
    assert heap[m + 1..|heap|] == heap[m + 1..];
    PricedConcat(setup, heap[..m], heap[m + 1..], hard);
  }

  lemma PricedSlice(setup: Setup, heap: seq<Path>, lo: nat, hi: nat, hard: bool)
    requires Priced(setup, heap, hard) && lo <= hi <= |heap|
    ensures Priced(setup, heap[lo..hi], hard)
  {
    forall i | 0 <= i < hi - lo
      ensures heap[lo..hi][i].manaUsage == ManaOf(setup, heap[lo..hi][i].spells, hard)
    {
      assert heap[lo..hi][i] == heap[lo + i];
    }
  }

  lemma PricedConcat(setup: Setup, a: seq<Path>, b: seq<Path>, hard: bool)
    requires Priced(setup, a, hard) && Priced(setup, b, hard)
    ensures Priced(setup, a + b, hard)
  {
    forall i | 0 <= i < |a + b|
      ensures (a + b)[i].manaUsage == ManaOf(setup, (a + b)[i].spells, hard)
    {
      if i < |a| {
        assert (a + b)[i] == a[i];
      } else {
        assert (a + b)[i] == b[i - |a|];
      }
    }
  }

  /** Path `i` of `paths` is `path` followed by spell index `i`. */
  predicate ChildrenOf(path: Path, paths: seq<Path>)
  {
    forall i :: 0 <= i < |paths| ==> paths[i].spells == path.spells + [i]
  }

  lemma ChildrenAppend(path: Path, paths: seq<Path>, child: Path)
    requires ChildrenOf(path, paths) && child.spells == path.spells + [|paths|]
    ensures ChildrenOf(path, paths + [child])
  {
    forall i | 0 <= i < |paths| + 1
      ensures (paths + [child])[i].spells == path.spells + [i]
    {
      if i < |paths| {
        assert (paths + [child])[i] == paths[i];
      }
    }
  }

  /** `create_sub_paths`: one child per spell index, each priced by its own
      simulation. */
  method CreateSubPaths(path: Path, spellCount: nat, hard: bool) returns (paths: seq<Path>)
    ensures |paths| == spellCount && ChildrenOf(path, paths)
    ensures Priced(DefaultSetup, paths, hard)
  {
    paths := [];
    for spell := 0 to spellCount
      invariant |paths| == spell && ChildrenOf(path, paths)
      invariant Priced(DefaultSetup, paths, hard)
    {
      var spells := path.spells + [spell];
      var controller := CreateController(Path(0, spells));
      var _, manaUsage := SimulateFight(controller, hard);
      PricedAppend(DefaultSetup, paths, Path(manaUsage, spells), hard);
      ChildrenAppend(path, paths, Path(manaUsage, spells));
      paths := paths + [Path(manaUsage, spells)];
    }
  }

  lemma CoveredWithout(heap: seq<Path>, m: nat, script: seq<nat>)
    requires m < |heap| && Covered(heap, script) && !IsPrefix(heap[m].spells, script)
    ensures Covered(heap[..m] + heap[m + 1..], script)
  {
    var i :| 0 <= i < |heap| && IsPrefix(heap[i].spells, script);
    var rest := heap[..m] + heap[m + 1..];
    if i < m {
      assert rest[i] == heap[i];
    } else {
      assert rest[i - 1] == heap[i];
    }
  }

  /** The cheapest path in the heap costs no more than any script it starts. */
  lemma CheapestBelowCovered(setup: Setup, heap: seq<Path>, m: nat, script: seq<nat>, hard: bool)
    requires m < |heap| && Priced(setup, heap, hard) && Covered(heap, script)
    requires forall j :: 0 <= j < |heap| ==> heap[m].manaUsage <= heap[j].manaUsage
    ensures heap[m].manaUsage <= ManaOf(setup, script, hard)
  {
    var i :| 0 <= i < |heap| && IsPrefix(heap[i].spells, script);
    PrefixMana(setup, heap[i].spells, script, hard);
  }

  /** Dropping a lost path keeps every winning script covered. */
  lemma DropLost(setup: Setup, heap: seq<Path>, m: nat, hard: bool)
    requires m < |heap| && SimulateSpec(setup, heap[m].spells, hard).0 == Lost
    requires forall s :: Wins(setup, s, hard) ==> Covered(heap, s)
    ensures forall s :: Wins(setup, s, hard) ==> Covered(heap[..m] + heap[m + 1..], s)
  {
    forall s | Wins(setup, s, hard)
      ensures Covered(heap[..m] + heap[m + 1..], s)
    {
      if IsPrefix(heap[m].spells, s) {
        PrefixLoss(setup, heap[m].spells, s, hard);
      }
      CoveredWithout(heap, m, s);
    }
  }

  lemma CoveredByChild(rest: seq<Path>, children: seq<Path>, p: seq<nat>, script: seq<nat>)
    requires |p| < |script| && script[|p|] < |children| && IsPrefix(p + [script[|p|]], script)
    requires forall i :: 0 <= i < |children| ==> children[i].spells == p + [i]
    ensures Covered(rest + children, script)
  {
    var k := script[|p|];
    assert (rest + children)[|rest| + k] == children[k];
  }

  lemma CoveredStill(rest: seq<Path>, children: seq<Path>, script: seq<nat>)
    requires Covered(rest, script)
    ensures Covered(rest + children, script)
  {
    var i :| 0 <= i < |rest| && IsPrefix(rest[i].spells, script);
    assert (rest + children)[i] == rest[i];
  }

  /** Replacing a path in progress by its sub-paths keeps a winning script
      covered. */
  lemma ExpandCovers(setup: Setup, heap: seq<Path>, m: nat, children: seq<Path>, hard: bool, script: seq<nat>)
    requires m < |heap| && SimulateSpec(setup, heap[m].spells, hard).0 == InProgress
    requires |children| == |setup.spells|
    requires ChildrenOf(heap[m], children)
    requires Wins(setup, script, hard) && Covered(heap, script)
    ensures Covered(heap[..m] + heap[m + 1..] + children, script)
  {
    var p := heap[m].spells;
    if IsPrefix(p, script) {
      PrefixExpand(setup, p, script, hard);
      PrefixExtended(p, script);
      CoveredByChild(heap[..m] + heap[m + 1..], children, p, script);
    } else {
      CoveredWithout(heap, m, script);
      CoveredStill(heap[..m] + heap[m + 1..], children, script);
    }
  }

  lemma ExpandInProgress(setup: Setup, heap: seq<Path>, m: nat, children: seq<Path>, hard: bool)
    requires m < |heap| && SimulateSpec(setup, heap[m].spells, hard).0 == InProgress
    requires |children| == |setup.spells|
    requires ChildrenOf(heap[m], children)
    requires forall s :: Wins(setup, s, hard) ==> Covered(heap, s)
    ensures forall s :: Wins(setup, s, hard) ==> Covered(heap[..m] + heap[m + 1..] + children, s)
  {
    forall s | Wins(setup, s, hard)
      ensures Covered(heap[..m] + heap[m + 1..] + children, s)
    {
      ExpandCovers(setup, heap, m, children, hard, s);
    }
  }

  /** What the search keeps true of its heap: every path is priced by its
      own simulation, and every winning script starts with some path in it. */
  ghost predicate HeapInvariant(setup: Setup, heap: seq<Path>, hard: bool)
  {
    Priced(setup, heap, hard) && forall s :: Wins(setup, s, hard) ==> Covered(heap, s)
  }

  /** The search starts from the empty path, which every script starts with. */
  lemma InitialHeap(setup: Setup, heap: seq<Path>, hard: bool)
    requires heap == [Path(0, [])]
    ensures HeapInvariant(setup, heap, hard)
  {
    EmptyPathPriced(setup, heap, hard);
    EmptyPathCovers(heap);
  }

  lemma EmptyPathPriced(setup: Setup, heap: seq<Path>, hard: bool)
    requires heap == [Path(0, [])]
    ensures Priced(setup, heap, hard)
  {
    EmptyScriptCostsNothing(setup, heap[0].spells, hard);
  }

  lemma EmptyPathCovers(heap: seq<Path>)
    requires heap == [Path(0, [])]
    ensures forall s :: Covered(heap, s)
  {
    forall s
      ensures Covered(heap, s)
    {
      assert IsPrefix(heap[0].spells, s);
    }
  }

  /** The cheapest path, once it wins, is a cheapest winning script. */
  lemma PopWon(setup: Setup, heap: seq<Path>, m: nat, hard: bool)
    requires HeapInvariant(setup, heap, hard) && m < |heap|
    requires forall j :: 0 <= j < |heap| ==> heap[m].manaUsage <= heap[j].manaUsage
    ensures forall s :: Wins(setup, s, hard) ==> ManaOf(setup, heap[m].spells, hard) <= ManaOf(setup, s, hard)
  {
    forall s | Wins(setup, s, hard)
      ensures ManaOf(setup, heap[m].spells, hard) <= ManaOf(setup, s, hard)
    {
      CheapestBelowCovered(setup, heap, m, s, hard);
    }
  }

  lemma PopLost(setup: Setup, heap: seq<Path>, m: nat, hard: bool)
    requires HeapInvariant(setup, heap, hard) && m < |heap|
    requires SimulateSpec(setup, heap[m].spells, hard).0 == Lost
    ensures HeapInvariant(setup, heap[..m] + heap[m + 1..], hard)
  {
    PricedWithout(setup, heap, m, hard);
    DropLost(setup, heap, m, hard);
  }

  lemma PopInProgress(setup: Setup, heap: seq<Path>, m: nat, children: seq<Path>, hard: bool)
    requires HeapInvariant(setup, heap, hard) && m < |heap|
    requires SimulateSpec(setup, heap[m].spells, hard).0 == InProgress
    requires |children| == |setup.spells| && ChildrenOf(heap[m], children) && Priced(setup, children, hard)
    ensures HeapInvariant(setup, heap[..m] + heap[m + 1..] + children, hard)
  {
    PricedWithout(setup, heap, m, hard);
    PricedConcat(setup, heap[..m] + heap[m + 1..], children, hard);
    ExpandInProgress(setup, heap, m, children, hard);
  }

  /** An empty heap means that no script wins. */
  lemma EmptyHeap(setup: Setup, hard: bool)
    requires HeapInvariant(setup, [], hard)
    ensures forall s :: !Wins(setup, s, hard)
  {
  }

  /** `find_optimized_fight`: pop the cheapest path; a win is returned, a
      loss dropped, a path still in progress replaced by its sub-paths.  The
      answer is a winning script no winning script undercuts; no answer
      means no script wins, unless the fuel ran out first. */
  method FindOptimizedFight(hard: bool, fuel: nat) returns (found: Option<RecordedController>, outOfFuel: bool)
    ensures found.Some? ==> Wins(DefaultSetup, found.value.instructions, hard)
    ensures found.Some? ==> forall s :: Wins(DefaultSetup, s, hard) ==>
              ManaOf(DefaultSetup, found.value.instructions, hard) <= ManaOf(DefaultSetup, s, hard)
    ensures found.None? && !outOfFuel ==> forall s :: !Wins(DefaultSetup, s, hard)
  {
    var heap := [Path(0, [])];
    InitialHeap(DefaultSetup, heap, hard);
    var spellCount := |DefaultSpells()|;
    var remaining := fuel;
    while heap != []
      invariant HeapInvariant(DefaultSetup, heap, hard)
      decreases remaining
    {
      if remaining == 0 {
        return None, true;
      }
      remaining := remaining - 1;
      var m := GreatestPath(heap);
      var path := heap[m];
      var controller := CreateController(path);
      var result, _ := SimulateFight(controller, hard);
      match result
      case Won =>
        PopWon(DefaultSetup, heap, m, hard);
        return Some(controller.inner.inner), false;
      case Lost =>
        PopLost(DefaultSetup, heap, m, hard);
        heap := heap[..m] + heap[m + 1..];
      case InProgress =>
        var paths := CreateSubPaths(path, spellCount, hard);
        PopInProgress(DefaultSetup, heap, m, paths, hard);
        heap := heap[..m] + heap[m + 1..] + paths;
    }
    EmptyHeap(DefaultSetup, hard);
    return None, false;
  }
}
