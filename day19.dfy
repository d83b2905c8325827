/** Day 19 (day-19/src/main.rs): Medicine for Rudolph. Molecules are strings
    rewritten by replacement rules `from => to`. */
module Day19 {
  import opened Wrappers
  import opened Strings

  /** A replacement rule `from => to`. */
  datatype Rule = Rule(from: string, to: string)

  /** `m` with the occurrence of `r.from` at `i` replaced by `r.to`. */
  function ReplaceAt(m: string, r: Rule, i: nat): string
    requires OccursAt(m, r.from, i)
  {
    m[..i] + r.to + m[i + |r.from|..]
  }

  /** Every molecule one application of `r` makes from `m`, one per
      occurrence of `r.from`, duplicates collapsed. */
  function Replacements(m: string, r: Rule): set<string>
  {
    set i: nat | i <= |m| && OccursAt(m, r.from, i) :: ReplaceAt(m, r, i)
  }

  /** Those of the occurrences that start before `n`. */
  function ReplacementsBelow(m: string, r: Rule, n: nat): set<string>
  {
    set i: nat | i < n && OccursAt(m, r.from, i) :: ReplaceAt(m, r, i)
  }

  lemma ReplacementsStep(m: string, r: Rule, n: nat)
    ensures ReplacementsBelow(m, r, n + 1) ==
      ReplacementsBelow(m, r, n) + (if OccursAt(m, r.from, n) then {ReplaceAt(m, r, n)} else {})
  {
    var next := ReplacementsBelow(m, r, n + 1);
    var now := ReplacementsBelow(m, r, n) + (if OccursAt(m, r.from, n) then {ReplaceAt(m, r, n)} else {});
    forall x | x in next
      ensures x in now
    {
      var i: nat :| i < n + 1 && OccursAt(m, r.from, i) && x == ReplaceAt(m, r, i);
    }
  }

  /** `apply_replacement`: every window of `m` as long as `r.from` that
      equals it gives one molecule, added to `set`. */
  method ApplyReplacement(set0: set<string>, m: string, r: Rule) returns (result: set<string>)
    requires |r.from| > 0
    ensures result == set0 + Replacements(m, r)
  {
    result := set0;
    var n := |r.from|;
    if |m| < n {
      NoReplacements(m, r);
      return;
    }
    for index := 0 to |m| - n + 1
      invariant result == set0 + ReplacementsBelow(m, r, index)
    {
      ReplacementsStep(m, r, index);
      var window := m[index..index + n];
      if window == r.from {
        var replaced := m[..index] + r.to + m[index + n..];
        assert replaced == ReplaceAt(m, r, index);
        result := result + {replaced};
      }
    }
    AllBelow(m, r);
  }

  /** A molecule shorter than `r.from` has no occurrence. */
  lemma NoReplacements(m: string, r: Rule)
    requires |m| < |r.from|
    ensures Replacements(m, r) == {}
  {
  }

  /** Every occurrence starts at or before `|m| - |r.from|`. */
  lemma AllBelow(m: string, r: Rule)
    requires |r.from| <= |m|
    ensures Replacements(m, r) == ReplacementsBelow(m, r, |m| - |r.from| + 1)
  {
    forall x | x in Replacements(m, r)
      ensures x in ReplacementsBelow(m, r, |m| - |r.from| + 1)
    {
      var i: nat :| i <= |m| && OccursAt(m, r.from, i) && x == ReplaceAt(m, r, i);
    }
  }

  /** Replacing and undoing: the replaced molecule holds `r.to` where `r.from`
      was, and putting `r.from` back gives `m`. */
  lemma ReplaceUndo(m: string, r: Rule, i: nat)
    requires OccursAt(m, r.from, i)
    ensures OccursAt(ReplaceAt(m, r, i), r.to, i)
    ensures var x := ReplaceAt(m, r, i); x[..i] + r.from + x[i + |r.to|..] == m
  {
    var x := ReplaceAt(m, r, i);
    assert x[..i] == m[..i];
    assert x[i..i + |r.to|] == r.to;
    assert x[i + |r.to|..] == m[i + |r.from|..];
    assert m == m[..i] + m[i..i + |r.from|] + m[i + |r.from|..];
  }

  /** The union of the replacements of every rule, in rule order. */
  function AllReplacements(m: string, rules: seq<Rule>): set<string>
  {
    if |rules| == 0 then {}
    else AllReplacements(m, rules[..|rules| - 1]) + Replacements(m, rules[|rules| - 1])
  }

  /** A molecule is a result exactly when some rule makes it. */
  lemma {:induction false} AllReplacementsMember(m: string, rules: seq<Rule>, x: string)
    ensures x in AllReplacements(m, rules) <==>
      exists j :: 0 <= j < |rules| && x in Replacements(m, rules[j])
  {
    if |rules| > 0 {
      var init := rules[..|rules| - 1];
      AllReplacementsMember(m, init, x);
      if x in AllReplacements(m, init) {
        var j :| 0 <= j < |init| && x in Replacements(m, init[j]);
        assert rules[j] == init[j];
      }
      if exists j :: 0 <= j < |rules| && x in Replacements(m, rules[j]) {
        var j :| 0 <= j < |rules| && x in Replacements(m, rules[j]);
        if j < |init| {
          assert init[j] == rules[j];
        }
      }
    }
  }

  /** `apply_all_replacements`: every rule applied to `m`, the results
      gathered in one set. */
  method ApplyAllReplacements(m: string, rules: seq<Rule>) returns (result: set<string>)
    requires forall j :: 0 <= j < |rules| ==> |rules[j].from| > 0
    ensures result == AllReplacements(m, rules)
  {
    result := {};
    for j := 0 to |rules|
      invariant result == AllReplacements(m, rules[..j])
    {
      assert rules[..j + 1][..j] == rules[..j];
      result := ApplyReplacement(result, m, rules[j]);
    }
    assert rules[..|rules|] == rules;
  }

  /** `m` with the `r.to` that ends `m[..k]` turned back into `r.from`. */
  function UndoAt(m: string, r: Rule, k: nat): string
    requires |r.to| <= k <= |m| && m[k - |r.to|..k] == r.to
  {
    m[..k - |r.to|] + r.from + m[k..]
  }

  /** Undoing a rule gives a molecule that the rule turns back into `m`. */
  lemma UndoReplaces(m: string, r: Rule, k: nat)
    requires |r.to| <= k <= |m| && m[k - |r.to|..k] == r.to
    ensures m in Replacements(UndoAt(m, r, k), r)
  {
    var c := UndoAt(m, r, k);
    var i := k - |r.to|;
    assert c[i..i + |r.from|] == r.from;
    assert ReplaceAt(c, r, i) == m[..i] + r.to + m[k..];
    assert m == m[..i] + m[i..k] + m[k..];
  }

  /** The molecules `count_steps` tries for the cut `m[..k]`: rules from `j`
      on, in order, whose `to` ends the cut. */
  function CutCandidates(m: string, rules: seq<Rule>, k: nat, j: nat): seq<string>
    requires k <= |m| && j <= |rules|
    decreases |rules| - j
  {
    if j == |rules| then []
    else
      var r := rules[j];
      (if |r.to| <= k && m[k - |r.to|..k] == r.to then [UndoAt(m, r, k)] else []) + CutCandidates(m, rules, k, j + 1)
  }

  /** Every candidate, the longest cut first. */
  function Candidates(m: string, rules: seq<Rule>, k: nat): seq<string>
    requires k <= |m|
  {
    if k == 0 then [] else CutCandidates(m, rules, k, 0) + Candidates(m, rules, k - 1)
  }

  /** The step limit handed to the inner searches. */
  function NextMax(maxSteps: Option<nat>): Option<nat>
  {
    match maxSteps
    case Some(b) => Some(SaturatingSub(b, 2))
    case None => None
  }

  /** `count_steps`, the depth of the search bounded by `fuel`: 0 for "e",
      otherwise one more than the first candidate that succeeds. */
  function CountSteps(m: string, rules: seq<Rule>, maxSteps: Option<nat>, fuel: nat): Option<nat>
    decreases fuel, 0
  {
    if maxSteps == Some(0) then None
    else if m == "e" then Some(0)
    else if fuel == 0 then None
    else FirstSuccess(Candidates(m, rules, |m|), rules, NextMax(maxSteps), fuel - 1)
  }

  /** The first candidate whose search succeeds, one step added. */
  function FirstSuccess(cs: seq<string>, rules: seq<Rule>, maxSteps: Option<nat>, fuel: nat): Option<nat>
    decreases fuel, 1, |cs|
  {
    if |cs| == 0 then None
    else
      match CountSteps(cs[0], rules, maxSteps, fuel)
      case Some(b) => Some(b + 1)
      case None => FirstSuccess(cs[1..], rules, maxSteps, fuel)
  }

  lemma {:induction false} FirstSuccessAppend(a: seq<string>, b: seq<string>, rules: seq<Rule>, maxSteps: Option<nat>, fuel: nat)
    ensures FirstSuccess(a + b, rules, maxSteps, fuel) ==
      if FirstSuccess(a, rules, maxSteps, fuel).Some? then FirstSuccess(a, rules, maxSteps, fuel)
      else FirstSuccess(b, rules, maxSteps, fuel)
  {
    if |a| > 0 {
      assert (a + b)[0] == a[0];
      assert (a + b)[1..] == a[1..] + b;
      FirstSuccessAppend(a[1..], b, rules, maxSteps, fuel);
    } else {
      assert a + b == b;
    }
  }

  /** `count_steps`: undo rules on ever shorter cuts of the molecule and
      return as soon as one inner search succeeds. */
  method CountStepsSearch(m: string, rules: seq<Rule>, maxSteps: Option<nat>, fuel: nat) returns (result: Option<nat>)
    ensures result == CountSteps(m, rules, maxSteps, fuel)
    decreases fuel, 2
  {
    if maxSteps == Some(0) {
      return None;
    }
    if m == "e" {
      return Some(0);
    }
    if fuel == 0 {
      return None;
    }
    result := SearchCuts(m, rules, maxSteps, fuel);
  }

  /** The loop of `count_steps` over the cuts `m[..k]`, the longest first. */
  method SearchCuts(m: string, rules: seq<Rule>, maxSteps: Option<nat>, fuel: nat) returns (steps: Option<nat>)
    requires fuel > 0
    ensures steps == FirstSuccess(Candidates(m, rules, |m|), rules, NextMax(maxSteps), fuel - 1)
    decreases fuel, 1
  {
    ghost var limit := NextMax(maxSteps);
    ghost var goal := FirstSuccess(Candidates(m, rules, |m|), rules, limit, fuel - 1);
    steps := None;
    var k: nat := |m|;
    while k > 0
      invariant k <= |m| && steps == None
      invariant goal == FirstSuccess(Candidates(m, rules, k), rules, limit, fuel - 1)
    {
      CandidatesStep(m, rules, k, limit, fuel - 1);
      var endIndex := k - 1;
      steps := SearchCut(m, rules, maxSteps, fuel, endIndex + 1);
      if steps != None {
        return steps;
      }
      k := k - 1;
    }
    assert Candidates(m, rules, 0) == [];
  }

  /** The longest cut is searched first; the shorter ones only when it fails. */
  lemma CandidatesStep(m: string, rules: seq<Rule>, k: nat, maxSteps: Option<nat>, fuel: nat)
    requires 0 < k <= |m|
    ensures var here := FirstSuccess(CutCandidates(m, rules, k, 0), rules, maxSteps, fuel);
      FirstSuccess(Candidates(m, rules, k), rules, maxSteps, fuel)
      == if here.Some? then here else FirstSuccess(Candidates(m, rules, k - 1), rules, maxSteps, fuel)
  {
    FirstSuccessAppend(CutCandidates(m, rules, k, 0), Candidates(m, rules, k - 1), rules, maxSteps, fuel);
  }

  /** The rules loop of `count_steps` for the cut `m[..k]`. The `steps` of
      the source is still `None` at every point of this loop, since the
      search returns at its first success: the limit handed down is
      `NextMax(maxSteps)`, the result the inner count plus one, and the
      minimum the source takes is never over two results. */
  method SearchCut(m: string, rules: seq<Rule>, maxSteps: Option<nat>, fuel: nat, k: nat) returns (steps: Option<nat>)
    requires 0 < k <= |m| && fuel > 0
    ensures steps == FirstSuccess(CutCandidates(m, rules, k, 0), rules, NextMax(maxSteps), fuel - 1)
    decreases fuel, 0
  {
    steps := None;
    var cut := m[..k];
    for j := 0 to |rules|
      invariant steps == None
      invariant FirstSuccess(CutCandidates(m, rules, k, 0), rules, NextMax(maxSteps), fuel - 1) ==
        FirstSuccess(CutCandidates(m, rules, k, j), rules, NextMax(maxSteps), fuel - 1)
    {
      CutStep(m, rules, k, j, NextMax(maxSteps), fuel - 1);
      var from, to := rules[j].from, rules[j].to;
      CutUndo(m, k, rules[j]);
      if |to| <= |cut| && cut[|cut| - |to|..] == to {
        var replaced := cut[..|cut| - |to|] + from + m[|cut|..];
        var inner := CountStepsSearch(replaced, rules, NextMax(maxSteps), fuel - 1);
        steps := match inner
          case Some(b) => Some(b + 1)
          case None => None;
        if inner != None {
          return steps;
        }
      }
    }
  }

  /** The cut `m[..k]` ends with `r.to` exactly when `m` has `r.to` just
      before `k`, and the molecule built from the cut is then `UndoAt`. */
  lemma CutUndo(m: string, k: nat, r: Rule)
    requires 0 < k <= |m|
    ensures var cut := m[..k];
      && ((|r.to| <= |cut| && cut[|cut| - |r.to|..] == r.to) <==> (|r.to| <= k && m[k - |r.to|..k] == r.to))
      && (|r.to| <= k && m[k - |r.to|..k] == r.to ==>
            cut[..|cut| - |r.to|] + r.from + m[|cut|..] == UndoAt(m, r, k))
  {
    var cut := m[..k];
    if |r.to| <= k {
      assert cut[|cut| - |r.to|..] == m[k - |r.to|..k];
      assert cut[..|cut| - |r.to|] == m[..k - |r.to|];
    }
  }

  /** One rule of the rules loop: a rule whose `to` ends the cut is tried
      first, and the search goes on with the next rule only if it fails. */
  lemma CutStep(m: string, rules: seq<Rule>, k: nat, j: nat, maxSteps: Option<nat>, fuel: nat)
    requires k <= |m| && j < |rules|
    ensures var r := rules[j];
      var here := FirstSuccess(CutCandidates(m, rules, k, j), rules, maxSteps, fuel);
      var next := FirstSuccess(CutCandidates(m, rules, k, j + 1), rules, maxSteps, fuel);
      if |r.to| <= k && m[k - |r.to|..k] == r.to then
        here == match CountSteps(UndoAt(m, r, k), rules, maxSteps, fuel)
          case Some(b) => Some(b + 1)
          case None => next
      else here == next
  {
    var r := rules[j];
    var rest := CutCandidates(m, rules, k, j + 1);
    if |r.to| <= k && m[k - |r.to|..k] == r.to {
      var c := UndoAt(m, r, k);
      assert CutCandidates(m, rules, k, j) == [c] + rest;
      assert ([c] + rest)[0] == c && ([c] + rest)[1..] == rest;
    } else {
      assert CutCandidates(m, rules, k, j) == [] + rest;
      assert [] + rest == rest;
    }
  }

  /** `m` is built from "e" by exactly `n` replacements. */
  ghost predicate Derivable(m: string, rules: seq<Rule>, n: nat)
    decreases n
  {
    if n == 0 then m == "e"
    else exists c :: m in AllReplacements(c, rules) && Derivable(c, rules, n - 1)
  }

  /** Every candidate turns back into `m` by one of the rules. */
  lemma {:induction false} CutCandidatesProduce(m: string, rules: seq<Rule>, k: nat, j: nat)
    requires k <= |m| && j <= |rules|
    ensures forall i :: 0 <= i < |CutCandidates(m, rules, k, j)| ==>
      m in AllReplacements(CutCandidates(m, rules, k, j)[i], rules)
    decreases |rules| - j
  {
    if j < |rules| {
      CutCandidatesProduce(m, rules, k, j + 1);
      var r := rules[j];
      if |r.to| <= k && m[k - |r.to|..k] == r.to {
        var c := UndoAt(m, r, k);
        UndoReplaces(m, r, k);
        AllReplacementsMember(c, rules, m);
      }
    }
  }

  lemma {:induction false} CandidatesProduce(m: string, rules: seq<Rule>, k: nat)
    requires k <= |m|
    ensures forall i :: 0 <= i < |Candidates(m, rules, k)| ==> m in AllReplacements(Candidates(m, rules, k)[i], rules)
  {
    if k > 0 {
      CutCandidatesProduce(m, rules, k, 0);
      CandidatesProduce(m, rules, k - 1);
    }
  }

  /** A count is the length of a real derivation from "e". */
  lemma {:induction false} CountStepsSound(m: string, rules: seq<Rule>, maxSteps: Option<nat>, fuel: nat)
    requires CountSteps(m, rules, maxSteps, fuel).Some?
    ensures Derivable(m, rules, CountSteps(m, rules, maxSteps, fuel).value)
    decreases fuel, 0
  {
    if m != "e" {
      CandidatesProduce(m, rules, |m|);
      FirstSuccessSound(m, Candidates(m, rules, |m|), rules, NextMax(maxSteps), fuel - 1);
    }
  }

  lemma {:induction false} FirstSuccessSound(m: string, cs: seq<string>, rules: seq<Rule>, maxSteps: Option<nat>, fuel: nat)
    requires FirstSuccess(cs, rules, maxSteps, fuel).Some?
    requires forall i :: 0 <= i < |cs| ==> m in AllReplacements(cs[i], rules)
    ensures Derivable(m, rules, FirstSuccess(cs, rules, maxSteps, fuel).value)
    decreases fuel, 1, |cs|
  {
    var inner := CountSteps(cs[0], rules, maxSteps, fuel);
    if inner.Some? {
      CountStepsSound(cs[0], rules, maxSteps, fuel);
      assert m in AllReplacements(cs[0], rules);
    } else {
      FirstSuccessSound(m, cs[1..], rules, maxSteps, fuel);
    }
  }

  /** No steps are needed exactly for "e", unless the limit is already 0. */
  lemma CountStepsZero(m: string, rules: seq<Rule>, maxSteps: Option<nat>, fuel: nat)
    ensures CountSteps(m, rules, maxSteps, fuel) == Some(0) <==> (m == "e" && maxSteps != Some(0))
    ensures maxSteps == Some(0) ==> CountSteps(m, rules, maxSteps, fuel) == None
  {
    if maxSteps != Some(0) && m != "e" && fuel > 0 {
      FirstSuccessPositive(Candidates(m, rules, |m|), rules, NextMax(maxSteps), fuel - 1);
    }
  }

  lemma {:induction false} FirstSuccessPositive(cs: seq<string>, rules: seq<Rule>, maxSteps: Option<nat>, fuel: nat)
    ensures FirstSuccess(cs, rules, maxSteps, fuel) != Some(0)
    decreases |cs|
  {
    if |cs| > 0 && CountSteps(cs[0], rules, maxSteps, fuel).None? {
      FirstSuccessPositive(cs[1..], rules, maxSteps, fuel);
    }
  }

  /** Rules on "H" act on both ends of "HOH". */
  lemma ReplaceH(m: string, r: Rule)
    requires m == "HOH" && r.from == "H"
    ensures Replacements(m, r) == {r.to + "OH", "HO" + r.to}
  {
    assert OccursAt(m, r.from, 0) && OccursAt(m, r.from, 2);
    assert m[1..2][0] == 'O';
    assert ReplaceAt(m, r, 0) == r.to + "OH";
    assert ReplaceAt(m, r, 2) == "HO" + r.to;
    forall x | x in Replacements(m, r)
      ensures x == r.to + "OH" || x == "HO" + r.to
    {
      var i: nat :| i <= |m| && OccursAt(m, r.from, i) && x == ReplaceAt(m, r, i);
      assert m[i..i + 1][0] == 'H';
      assert i == 0 || i == 2;
    }
  }

  /** Rules on "O" act on the middle of "HOH". */
  lemma ReplaceO(m: string, r: Rule)
    requires m == "HOH" && r.from == "O"
    ensures Replacements(m, r) == {"H" + r.to + "H"}
  {
    assert OccursAt(m, r.from, 1);
    assert ReplaceAt(m, r, 1) == "H" + r.to + "H";
    forall x | x in Replacements(m, r)
      ensures x == "H" + r.to + "H"
    {
      var i: nat :| i <= |m| && OccursAt(m, r.from, i) && x == ReplaceAt(m, r, i);
      assert m[i..i + 1][0] == 'O';
      assert i == 1;
    }
  }

  /** The test of `apply_replacement`: two molecules from "HOH". */
  lemma ReplacementExample(m: string, r: Rule)
    requires m == "HOH" && r == Rule("H", "HO")
    ensures Replacements(m, r) == {"HOOH", "HOHO"}
  {
    ReplaceH(m, r);
    assert r.to + "OH" == "HOOH" && "HO" + r.to == "HOHO";
  }

  lemma AllReplacementsThree(m: string, rules: seq<Rule>)
    requires |rules| == 3
    ensures AllReplacements(m, rules) ==
      Replacements(m, rules[0]) + Replacements(m, rules[1]) + Replacements(m, rules[2])
  {
    var r1, r2 := rules[..1], rules[..2];
    assert r1[..0] == [] && r1[0] == rules[0];
    assert r2[..1] == r1 && r2[1] == rules[1];
    assert AllReplacements(m, r1) == Replacements(m, rules[0]);
    assert AllReplacements(m, r2) == AllReplacements(m, r1) + Replacements(m, rules[1]);
  }

  lemma ReplacementOH(m: string, r: Rule)
    requires m == "HOH" && r == Rule("H", "OH")
    ensures Replacements(m, r) == {"OHOH", "HOOH"}
  {
    ReplaceH(m, r);
    assert r.to + "OH" == "OHOH" && "HO" + r.to == "HOOH";
  }

  lemma ReplacementHH(m: string, r: Rule)
    requires m == "HOH" && r == Rule("O", "HH")
    ensures Replacements(m, r) == {"HHHH"}
  {
    ReplaceO(m, r);
    assert "H" + r.to + "H" == "HHHH";
  }

  /** The test of `apply_all_replacements`: four molecules from "HOH", the
      "HOOH" that two rules make counted once. */
  lemma AllReplacementsExample(m: string, rules: seq<Rule>)
    requires m == "HOH" && |rules| == 3
    requires rules[0] == Rule("H", "HO") && rules[1] == Rule("H", "OH") && rules[2] == Rule("O", "HH")
    ensures AllReplacements(m, rules) == {"HOOH", "HOHO", "OHOH", "HHHH"}
  {
    AllReplacementsThree(m, rules);
    ReplacementExample(m, rules[0]);
    ReplacementOH(m, rules[1]);
    ReplacementHH(m, rules[2]);
  }

  /** The four molecules are distinct. */
  lemma AllReplacementsCount(m: string, rules: seq<Rule>)
    requires m == "HOH" && |rules| == 3
    requires rules[0] == Rule("H", "HO") && rules[1] == Rule("H", "OH") && rules[2] == Rule("O", "HH")
    ensures |AllReplacements(m, rules)| == 4
  {
    AllReplacementsExample(m, rules);
    FourMolecules("HOOH", "HOHO", "OHOH", "HHHH");
  }

  lemma FourMolecules(a: string, b: string, c: string, d: string)
    requires a == "HOOH" && b == "HOHO" && c == "OHOH" && d == "HHHH"
    ensures |{a, b, c, d}| == 4
  {
    assert a[2] != b[2] && a[0] != c[0] && a[1] != d[1] && b[0] != c[0] && b[1] != d[1] && c[0] != d[0];
    assert {a, b, c, d} == {a, b, c} + {d};
    assert {a, b, c} == {a, b} + {c};
  }

  /** The rules of the test of `count_steps`. */
  predicate TestRules(rules: seq<Rule>)
  {
    |rules| == 5 && rules[0] == Rule("e", "H") && rules[1] == Rule("e", "O") &&
    rules[2] == Rule("H", "HO") && rules[3] == Rule("H", "OH") && rules[4] == Rule("O", "HH")
  }

  // The test of `count_steps` on "HOH", one lemma per molecule the search
  // visits, the deepest first; `fuel` is at least the depth the search
  // reaches below each molecule, so the bound never cuts it short.

  lemma Cut_eee_1(rules: seq<Rule>)
    requires TestRules(rules)
    ensures CutCandidates("eee", rules, 1, 0) == []
  {
    assert "eee"[0..1][0] == 'e';
    assert CutCandidates("eee", rules, 1, 4) == [];
    assert CutCandidates("eee", rules, 1, 3) == [];
    assert CutCandidates("eee", rules, 1, 2) == [];
    assert CutCandidates("eee", rules, 1, 1) == [];
  }

  lemma Cut_eee_2(rules: seq<Rule>)
    requires TestRules(rules)
    ensures CutCandidates("eee", rules, 2, 0) == []
  {
    assert "eee"[1..2][0] == 'e';
    assert "eee"[0..2][0] == 'e';
    assert CutCandidates("eee", rules, 2, 4) == [];
    assert CutCandidates("eee", rules, 2, 3) == [];
    assert CutCandidates("eee", rules, 2, 2) == [];
    assert CutCandidates("eee", rules, 2, 1) == [];
  }

  lemma Cut_eee_3(rules: seq<Rule>)
    requires TestRules(rules)
    ensures CutCandidates("eee", rules, 3, 0) == []
  {
    assert "eee"[2..3][0] == 'e';
    assert "eee"[1..3][0] == 'e';
    assert CutCandidates("eee", rules, 3, 4) == [];
    assert CutCandidates("eee", rules, 3, 3) == [];
    assert CutCandidates("eee", rules, 3, 2) == [];
    assert CutCandidates("eee", rules, 3, 1) == [];
  }

  lemma Candidates_eee(rules: seq<Rule>)
    requires TestRules(rules)
    ensures Candidates("eee", rules, 3) == []
  {
    Cut_eee_1(rules);
    assert Candidates("eee", rules, 1) == [];
    Cut_eee_2(rules);
    assert Candidates("eee", rules, 2) == [];
    Cut_eee_3(rules);
    assert Candidates("eee", rules, 3) == [];
  }

  lemma Cut_Hee_1(rules: seq<Rule>)
    requires TestRules(rules)
    ensures CutCandidates("Hee", rules, 1, 0) == ["eee"]
  {
    assert "Hee"[0..1][0] == 'H';
    assert UndoAt("Hee", rules[0], 1) == "eee";
    assert CutCandidates("Hee", rules, 1, 4) == [];
    assert CutCandidates("Hee", rules, 1, 3) == [];
    assert CutCandidates("Hee", rules, 1, 2) == [];
    assert CutCandidates("Hee", rules, 1, 1) == [];
  }

  lemma Cut_Hee_2(rules: seq<Rule>)
    requires TestRules(rules)
    ensures CutCandidates("Hee", rules, 2, 0) == []
  {
    assert "Hee"[1..2][0] == 'e';
    assert "Hee"[0..2][1] == 'e';
    assert "Hee"[0..2][0] == 'H';
    assert CutCandidates("Hee", rules, 2, 4) == [];
    assert CutCandidates("Hee", rules, 2, 3) == [];
    assert CutCandidates("Hee", rules, 2, 2) == [];
    assert CutCandidates("Hee", rules, 2, 1) == [];
  }

  lemma Cut_Hee_3(rules: seq<Rule>)
    requires TestRules(rules)
    ensures CutCandidates("Hee", rules, 3, 0) == []
  {
    assert "Hee"[2..3][0] == 'e';
    assert "Hee"[1..3][0] == 'e';
    assert CutCandidates("Hee", rules, 3, 4) == [];
    assert CutCandidates("Hee", rules, 3, 3) == [];
    assert CutCandidates("Hee", rules, 3, 2) == [];
    assert CutCandidates("Hee", rules, 3, 1) == [];
  }

  lemma Candidates_Hee(rules: seq<Rule>)
    requires TestRules(rules)
    ensures Candidates("Hee", rules, 3) == ["eee"]
  {
    Cut_Hee_1(rules);
    assert Candidates("Hee", rules, 1) == ["eee"];
    Cut_Hee_2(rules);
    assert Candidates("Hee", rules, 2) == ["eee"];
    Cut_Hee_3(rules);
    assert Candidates("Hee", rules, 3) == ["eee"];
  }

  lemma Cut_ee_1(rules: seq<Rule>)
    requires TestRules(rules)
    ensures CutCandidates("ee", rules, 1, 0) == []
  {
    assert "ee"[0..1][0] == 'e';
    assert CutCandidates("ee", rules, 1, 4) == [];
    assert CutCandidates("ee", rules, 1, 3) == [];
    assert CutCandidates("ee", rules, 1, 2) == [];
    assert CutCandidates("ee", rules, 1, 1) == [];
  }

  lemma Cut_ee_2(rules: seq<Rule>)
    requires TestRules(rules)
    ensures CutCandidates("ee", rules, 2, 0) == []
  {
    assert "ee"[1..2][0] == 'e';
    assert "ee"[0..2][0] == 'e';
    assert CutCandidates("ee", rules, 2, 4) == [];
    assert CutCandidates("ee", rules, 2, 3) == [];
    assert CutCandidates("ee", rules, 2, 2) == [];
    assert CutCandidates("ee", rules, 2, 1) == [];
  }

  lemma Candidates_ee(rules: seq<Rule>)
    requires TestRules(rules)
    ensures Candidates("ee", rules, 2) == []
  {
    Cut_ee_1(rules);
    assert Candidates("ee", rules, 1) == [];
    Cut_ee_2(rules);
    assert Candidates("ee", rules, 2) == [];
  }

  lemma Cut_He_1(rules: seq<Rule>)
    requires TestRules(rules)
    ensures CutCandidates("He", rules, 1, 0) == ["ee"]
  {
    assert "He"[0..1][0] == 'H';
    assert UndoAt("He", rules[0], 1) == "ee";
    assert CutCandidates("He", rules, 1, 4) == [];
    assert CutCandidates("He", rules, 1, 3) == [];
    assert CutCandidates("He", rules, 1, 2) == [];
    assert CutCandidates("He", rules, 1, 1) == [];
  }

  lemma Cut_He_2(rules: seq<Rule>)
    requires TestRules(rules)
    ensures CutCandidates("He", rules, 2, 0) == []
  {
    assert "He"[1..2][0] == 'e';
    assert "He"[0..2][1] == 'e';
    assert "He"[0..2][0] == 'H';
    assert CutCandidates("He", rules, 2, 4) == [];
    assert CutCandidates("He", rules, 2, 3) == [];
    assert CutCandidates("He", rules, 2, 2) == [];
    assert CutCandidates("He", rules, 2, 1) == [];
  }

  lemma Candidates_He(rules: seq<Rule>)
    requires TestRules(rules)
    ensures Candidates("He", rules, 2) == ["ee"]
  {
    Cut_He_1(rules);
    assert Candidates("He", rules, 1) == ["ee"];
    Cut_He_2(rules);
    assert Candidates("He", rules, 2) == ["ee"];
  }

  lemma Cut_eOe_1(rules: seq<Rule>)
    requires TestRules(rules)
    ensures CutCandidates("eOe", rules, 1, 0) == []
  {
    assert "eOe"[0..1][0] == 'e';
    assert CutCandidates("eOe", rules, 1, 4) == [];
    assert CutCandidates("eOe", rules, 1, 3) == [];
    assert CutCandidates("eOe", rules, 1, 2) == [];
    assert CutCandidates("eOe", rules, 1, 1) == [];
  }

  lemma Cut_eOe_2(rules: seq<Rule>)
    requires TestRules(rules)
    ensures CutCandidates("eOe", rules, 2, 0) == ["eee"]
  {
    assert "eOe"[1..2][0] == 'O';
    assert "eOe"[0..2][0] == 'e';
    assert UndoAt("eOe", rules[1], 2) == "eee";
    assert CutCandidates("eOe", rules, 2, 4) == [];
    assert CutCandidates("eOe", rules, 2, 3) == [];
    assert CutCandidates("eOe", rules, 2, 2) == [];
    assert CutCandidates("eOe", rules, 2, 1) == ["eee"];
  }

  lemma Cut_eOe_3(rules: seq<Rule>)
    requires TestRules(rules)
    ensures CutCandidates("eOe", rules, 3, 0) == []
  {
    assert "eOe"[2..3][0] == 'e';
    assert "eOe"[1..3][0] == 'O';
    assert "eOe"[1..3][1] == 'e';
    assert CutCandidates("eOe", rules, 3, 4) == [];
    assert CutCandidates("eOe", rules, 3, 3) == [];
    assert CutCandidates("eOe", rules, 3, 2) == [];
    assert CutCandidates("eOe", rules, 3, 1) == [];
  }

  lemma Candidates_eOe(rules: seq<Rule>)
    requires TestRules(rules)
    ensures Candidates("eOe", rules, 3) == ["eee"]
  {
    Cut_eOe_1(rules);
    assert Candidates("eOe", rules, 1) == [];
    Cut_eOe_2(rules);
    assert Candidates("eOe", rules, 2) == ["eee"];
    Cut_eOe_3(rules);
    assert Candidates("eOe", rules, 3) == ["eee"];
  }

  lemma Cut_HOe_1(rules: seq<Rule>)
    requires TestRules(rules)
    ensures CutCandidates("HOe", rules, 1, 0) == ["eOe"]
  {
    assert "HOe"[0..1][0] == 'H';
    assert UndoAt("HOe", rules[0], 1) == "eOe";
    assert CutCandidates("HOe", rules, 1, 4) == [];
    assert CutCandidates("HOe", rules, 1, 3) == [];
    assert CutCandidates("HOe", rules, 1, 2) == [];
    assert CutCandidates("HOe", rules, 1, 1) == [];
  }

  lemma Cut_HOe_2(rules: seq<Rule>)
    requires TestRules(rules)
    ensures CutCandidates("HOe", rules, 2, 0) == ["Hee", "He"]
  {
    assert "HOe"[1..2][0] == 'O';
    assert "HOe"[0..2][0] == 'H';
    assert "HOe"[0..2][1] == 'O';
    assert UndoAt("HOe", rules[1], 2) == "Hee";
    assert UndoAt("HOe", rules[2], 2) == "He";
    assert CutCandidates("HOe", rules, 2, 4) == [];
    assert CutCandidates("HOe", rules, 2, 3) == [];
    assert CutCandidates("HOe", rules, 2, 2) == ["He"];
    assert CutCandidates("HOe", rules, 2, 1) == ["Hee", "He"];
  }

  lemma Cut_HOe_3(rules: seq<Rule>)
    requires TestRules(rules)
    ensures CutCandidates("HOe", rules, 3, 0) == []
  {
    assert "HOe"[2..3][0] == 'e';
    assert "HOe"[1..3][0] == 'O';
    assert "HOe"[1..3][1] == 'e';
    assert CutCandidates("HOe", rules, 3, 4) == [];
    assert CutCandidates("HOe", rules, 3, 3) == [];
    assert CutCandidates("HOe", rules, 3, 2) == [];
    assert CutCandidates("HOe", rules, 3, 1) == [];
  }

  lemma Candidates_HOe(rules: seq<Rule>)
    requires TestRules(rules)
    ensures Candidates("HOe", rules, 3) == ["Hee", "He", "eOe"]
  {
    Cut_HOe_1(rules);
    assert Candidates("HOe", rules, 1) == ["eOe"];
    Cut_HOe_2(rules);
    assert Candidates("HOe", rules, 2) == ["Hee", "He", "eOe"];
    Cut_HOe_3(rules);
    assert Candidates("HOe", rules, 3) == ["Hee", "He", "eOe"];
  }

  lemma Cut_O_1(rules: seq<Rule>)
    requires TestRules(rules)
    ensures CutCandidates("O", rules, 1, 0) == ["e"]
  {
    assert "O"[0..1][0] == 'O';
    assert UndoAt("O", rules[1], 1) == "e";
    assert CutCandidates("O", rules, 1, 4) == [];
    assert CutCandidates("O", rules, 1, 3) == [];
    assert CutCandidates("O", rules, 1, 2) == [];
    assert CutCandidates("O", rules, 1, 1) == ["e"];
  }

  lemma Candidates_O(rules: seq<Rule>)
    requires TestRules(rules)
    ensures Candidates("O", rules, 1) == ["e"]
  {
    Cut_O_1(rules);
    assert Candidates("O", rules, 1) == ["e"];
  }

  lemma Cut_HH_1(rules: seq<Rule>)
    requires TestRules(rules)
    ensures CutCandidates("HH", rules, 1, 0) == ["eH"]
  {
    assert "HH"[0..1][0] == 'H';
    assert UndoAt("HH", rules[0], 1) == "eH";
    assert CutCandidates("HH", rules, 1, 4) == [];
    assert CutCandidates("HH", rules, 1, 3) == [];
    assert CutCandidates("HH", rules, 1, 2) == [];
    assert CutCandidates("HH", rules, 1, 1) == [];
  }

  lemma Cut_HH_2(rules: seq<Rule>)
    requires TestRules(rules)
    ensures CutCandidates("HH", rules, 2, 0) == ["He", "O"]
  {
    assert "HH"[1..2][0] == 'H';
    assert "HH"[0..2][1] == 'H';
    assert "HH"[0..2][0] == 'H';
    assert UndoAt("HH", rules[0], 2) == "He";
    assert UndoAt("HH", rules[4], 2) == "O";
    assert CutCandidates("HH", rules, 2, 4) == ["O"];
    assert CutCandidates("HH", rules, 2, 3) == ["O"];
    assert CutCandidates("HH", rules, 2, 2) == ["O"];
    assert CutCandidates("HH", rules, 2, 1) == ["O"];
  }

  lemma Candidates_HH(rules: seq<Rule>)
    requires TestRules(rules)
    ensures Candidates("HH", rules, 2) == ["He", "O", "eH"]
  {
    Cut_HH_1(rules);
    assert Candidates("HH", rules, 1) == ["eH"];
    Cut_HH_2(rules);
    assert Candidates("HH", rules, 2) == ["He", "O", "eH"];
  }

  lemma Cut_HOH_1(rules: seq<Rule>)
    requires TestRules(rules)
    ensures CutCandidates("HOH", rules, 1, 0) == ["eOH"]
  {
    assert "HOH"[0..1][0] == 'H';
    assert UndoAt("HOH", rules[0], 1) == "eOH";
    assert CutCandidates("HOH", rules, 1, 4) == [];
    assert CutCandidates("HOH", rules, 1, 3) == [];
    assert CutCandidates("HOH", rules, 1, 2) == [];
    assert CutCandidates("HOH", rules, 1, 1) == [];
  }

  lemma Cut_HOH_2(rules: seq<Rule>)
    requires TestRules(rules)
    ensures CutCandidates("HOH", rules, 2, 0) == ["HeH", "HH"]
  {
    assert "HOH"[1..2][0] == 'O';
    assert "HOH"[0..2][0] == 'H';
    assert "HOH"[0..2][1] == 'O';
    assert UndoAt("HOH", rules[1], 2) == "HeH";
    assert UndoAt("HOH", rules[2], 2) == "HH";
    assert CutCandidates("HOH", rules, 2, 4) == [];
    assert CutCandidates("HOH", rules, 2, 3) == [];
    assert CutCandidates("HOH", rules, 2, 2) == ["HH"];
    assert CutCandidates("HOH", rules, 2, 1) == ["HeH", "HH"];
  }

  lemma Cut_HOH_3(rules: seq<Rule>)
    requires TestRules(rules)
    ensures CutCandidates("HOH", rules, 3, 0) == ["HOe", "HH"]
  {
    assert "HOH"[2..3][0] == 'H';
    assert "HOH"[1..3][0] == 'O';
    assert UndoAt("HOH", rules[0], 3) == "HOe";
    assert UndoAt("HOH", rules[3], 3) == "HH";
    assert CutCandidates("HOH", rules, 3, 4) == [];
    assert CutCandidates("HOH", rules, 3, 3) == ["HH"];
    assert CutCandidates("HOH", rules, 3, 2) == ["HH"];
    assert CutCandidates("HOH", rules, 3, 1) == ["HH"];
  }

  lemma Candidates_HOH(rules: seq<Rule>)
    requires TestRules(rules)
    ensures Candidates("HOH", rules, 3) == ["HOe", "HH", "HeH", "HH", "eOH"]
  {
    Cut_HOH_1(rules);
    assert Candidates("HOH", rules, 1) == ["eOH"];
    Cut_HOH_2(rules);
    assert Candidates("HOH", rules, 2) == ["HeH", "HH", "eOH"];
    Cut_HOH_3(rules);
    assert Candidates("HOH", rules, 3) == ["HOe", "HH", "HeH", "HH", "eOH"];
  }

  /** A molecule other than "e" is searched through its candidates. */
  lemma Via(m: string, rules: seq<Rule>, fuel: nat, cs: seq<string>)
    requires fuel >= 1 && m != "e" && Candidates(m, rules, |m|) == cs
    ensures CountSteps(m, rules, None, fuel) == FirstSuccess(cs, rules, None, fuel - 1)
  {
  }

  /** The first candidate decides when its search succeeds, and is passed
      over when it fails. */
  lemma FirstSuccessHead(c: string, cs: seq<string>, rules: seq<Rule>, fuel: nat)
    ensures FirstSuccess([c] + cs, rules, None, fuel) ==
      match CountSteps(c, rules, None, fuel)
      case Some(b) => Some(b + 1)
      case None => FirstSuccess(cs, rules, None, fuel)
  {
    assert ([c] + cs)[0] == c && ([c] + cs)[1..] == cs;
  }

  lemma Search_eee(rules: seq<Rule>, fuel: nat)
    requires TestRules(rules)
    ensures CountSteps("eee", rules, None, fuel) == None
  {
    Candidates_eee(rules);
  }

  lemma Search_Hee(rules: seq<Rule>, fuel: nat)
    requires TestRules(rules) && fuel >= 1
    ensures CountSteps("Hee", rules, None, fuel) == None
  {
    Candidates_Hee(rules);
    Search_eee(rules, fuel - 1);
    Via("Hee", rules, fuel, ["eee"]);
    FirstSuccessHead("eee", [], rules, fuel - 1);
  }

  lemma Search_ee(rules: seq<Rule>, fuel: nat)
    requires TestRules(rules)
    ensures CountSteps("ee", rules, None, fuel) == None
  {
    Candidates_ee(rules);
  }

  lemma Search_He(rules: seq<Rule>, fuel: nat)
    requires TestRules(rules) && fuel >= 1
    ensures CountSteps("He", rules, None, fuel) == None
  {
    Candidates_He(rules);
    Search_ee(rules, fuel - 1);
    Via("He", rules, fuel, ["ee"]);
    FirstSuccessHead("ee", [], rules, fuel - 1);
  }

  lemma Search_eOe(rules: seq<Rule>, fuel: nat)
    requires TestRules(rules) && fuel >= 1
    ensures CountSteps("eOe", rules, None, fuel) == None
  {
    Candidates_eOe(rules);
    Search_eee(rules, fuel - 1);
    Via("eOe", rules, fuel, ["eee"]);
    FirstSuccessHead("eee", [], rules, fuel - 1);
  }

  lemma Search_HOe(rules: seq<Rule>, fuel: nat)
    requires TestRules(rules) && fuel >= 2
    ensures CountSteps("HOe", rules, None, fuel) == None
  {
    Candidates_HOe(rules);
    Search_Hee(rules, fuel - 1);
    Search_He(rules, fuel - 1);
    Search_eOe(rules, fuel - 1);
    Via("HOe", rules, fuel, ["Hee", "He", "eOe"]);
    FirstSuccessHead("eOe", [], rules, fuel - 1);
    FirstSuccessHead("He", ["eOe"], rules, fuel - 1);
    FirstSuccessHead("Hee", ["He", "eOe"], rules, fuel - 1);
  }

  lemma Search_e(rules: seq<Rule>, fuel: nat)
    requires TestRules(rules)
    ensures CountSteps("e", rules, None, fuel) == Some(0)
  {
  }

  lemma Search_O(rules: seq<Rule>, fuel: nat)
    requires TestRules(rules) && fuel >= 1
    ensures CountSteps("O", rules, None, fuel) == Some(1)
  {
    Candidates_O(rules);
    Search_e(rules, fuel - 1);
    Via("O", rules, fuel, ["e"]);
    FirstSuccessHead("e", [], rules, fuel - 1);
  }

  lemma Search_HH(rules: seq<Rule>, fuel: nat)
    requires TestRules(rules) && fuel >= 2
    ensures CountSteps("HH", rules, None, fuel) == Some(2)
  {
    Candidates_HH(rules);
    Search_He(rules, fuel - 1);
    Search_O(rules, fuel - 1);
    Via("HH", rules, fuel, ["He", "O", "eH"]);
    FirstSuccessHead("O", ["eH"], rules, fuel - 1);
    FirstSuccessHead("He", ["O", "eH"], rules, fuel - 1);
  }

  lemma Search_HOH(rules: seq<Rule>, fuel: nat)
    requires TestRules(rules) && fuel >= 3
    ensures CountSteps("HOH", rules, None, fuel) == Some(3)
  {
    Candidates_HOH(rules);
    Search_HOe(rules, fuel - 1);
    Search_HH(rules, fuel - 1);
    Via("HOH", rules, fuel, ["HOe", "HH", "HeH", "HH", "eOH"]);
    FirstSuccessHead("HH", ["HeH", "HH", "eOH"], rules, fuel - 1);
    FirstSuccessHead("HOe", ["HH", "HeH", "HH", "eOH"], rules, fuel - 1);
  }
}
