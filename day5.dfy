/** Day 5 (day-5/src/main.rs): Santa's rules for telling naughty strings from
    nice ones. Each check scans the string left to right (the `any`, `filter`
    and `count` of the source); each is proved equal to a plain statement
    about positions in the string. */
module Day5 {

  predicate IsVowel(c: char)
  {
    c in {'a', 'e', 'i', 'o', 'u'}
  }

  /** How many characters are vowels. */
  function VowelCount(s: string): (n: nat)
    ensures n <= |s|
  {
    if |s| == 0 then 0 else VowelCount(s[..|s| - 1]) + (if IsVowel(s[|s| - 1]) then 1 else 0)
  }

  /** `contains_three_vowels` */
  predicate ContainsThreeVowels(s: string)
  {
    VowelCount(s) >= 3
  }

  /** The positions holding a vowel. */
  function VowelPositions(s: string): set<nat>
  {
    set i: nat | i < |s| && IsVowel(s[i])
  }

  /** The count is the number of vowel positions. */
  lemma {:induction false} VowelCountIsPositions(s: string)
    ensures VowelCount(s) == |VowelPositions(s)|
  {
    if |s| > 0 {
      var n := |s| - 1;
      VowelCountIsPositions(s[..n]);
      var before := VowelPositions(s[..n]);
      assert n !in before;
      if IsVowel(s[n]) {
        assert VowelPositions(s) == before + {n};
      } else {
        assert VowelPositions(s) == before;
      }
    }
  }

  /** `contains_letter_pairs`: some character repeats at once. */
  predicate ContainsLetterPairs(s: string)
  {
    |s| >= 2 && (s[0] == s[1] || ContainsLetterPairs(s[1..]))
  }

  lemma {:induction false} LetterPairsAt(s: string)
    ensures ContainsLetterPairs(s) <==> exists i :: 0 <= i < |s| - 1 && s[i] == s[i + 1]
  {
    if |s| >= 2 {
      LetterPairsAt(s[1..]);
      if exists i :: 0 <= i < |s| - 1 && s[i] == s[i + 1] {
        var i :| 0 <= i < |s| - 1 && s[i] == s[i + 1];
        if i > 0 {
          assert s[1..][i - 1] == s[i] && s[1..][i] == s[i + 1];
        }
      }
    }
  }

  /** The four forbidden pairs. */
  predicate IsNaughtyPair(a: char, b: char)
  {
    (a, b) in {('a', 'b'), ('c', 'd'), ('p', 'q'), ('x', 'y')}
  }

  /** `contains_naughty_strings`: one of ab, cd, pq, xy occurs. */
  predicate ContainsNaughtyStrings(s: string)
  {
    |s| >= 2 && (IsNaughtyPair(s[0], s[1]) || ContainsNaughtyStrings(s[1..]))
  }

  lemma {:induction false} NaughtyAt(s: string)
    ensures ContainsNaughtyStrings(s) <==> exists i :: 0 <= i < |s| - 1 && IsNaughtyPair(s[i], s[i + 1])
  {
    if |s| >= 2 {
      NaughtyAt(s[1..]);
      if exists i :: 0 <= i < |s| - 1 && IsNaughtyPair(s[i], s[i + 1]) {
        var i :| 0 <= i < |s| - 1 && IsNaughtyPair(s[i], s[i + 1]);
        if i > 0 {
          assert s[1..][i - 1] == s[i] && s[1..][i] == s[i + 1];
        }
      }
    }
  }

  /** `contains_letter_pair_with_space`: a character repeats one later. */
  predicate ContainsLetterPairWithSpace(s: string)
  {
    |s| >= 3 && (s[0] == s[2] || ContainsLetterPairWithSpace(s[1..]))
  }

  lemma {:induction false} SpacedPairAt(s: string)
    ensures ContainsLetterPairWithSpace(s) <==> exists i :: 0 <= i < |s| - 2 && s[i] == s[i + 2]
  {
    if |s| >= 3 {
      SpacedPairAt(s[1..]);
      if exists i :: 0 <= i < |s| - 2 && s[i] == s[i + 2] {
        var i :| 0 <= i < |s| - 2 && s[i] == s[i + 2];
        if i > 0 {
          assert s[1..][i - 1] == s[i] && s[1..][i + 1] == s[i + 2];
        }
      }
    }
  }

  /** `contains_double_pair`: for some pair position `i`, some pair position
      `j` at distance at least 2 holds the same two characters (the two
      nested `any` loops of the source). */
  predicate ContainsDoublePair(s: string)
  {
    DoublePairFrom(s, 0)
  }

  predicate DoublePairFrom(s: string, i: nat)
    decreases |s| - i
  {
    i + 1 < |s| && (MatchesPairFrom(s, i, 0) || DoublePairFrom(s, i + 1))
  }

  /** Some pair position from `j` on matches the pair at `i` and is at least
      2 away from it. */
  predicate MatchesPairFrom(s: string, i: nat, j: nat)
    requires i + 1 < |s|
    decreases |s| - j
  {
    j + 1 < |s| && ((s[i] == s[j] && s[i + 1] == s[j + 1] && (i >= j + 2 || j >= i + 2))
                    || MatchesPairFrom(s, i, j + 1))
  }

  lemma {:induction false} MatchesPairAt(s: string, i: nat, j: nat)
    requires i + 1 < |s|
    ensures MatchesPairFrom(s, i, j) <==> exists k :: j <= k < |s| - 1 && s[i] == s[k] && s[i + 1] == s[k + 1] && (i >= k + 2 || k >= i + 2)
    decreases |s| - j
  {
    if j + 1 < |s| {
      MatchesPairAt(s, i, j + 1);
    }
  }

  /** The pairs at `a` and `b` hold the same characters and do not overlap. */
  predicate PairAgain(s: string, a: int, b: int)
  {
    0 <= a < |s| - 1 && 0 <= b < |s| - 1
    && s[a] == s[b] && s[a + 1] == s[b + 1] && (a >= b + 2 || b >= a + 2)
  }

  lemma {:induction false} DoublePairFromAt(s: string, i: nat)
    ensures DoublePairFrom(s, i) <==> exists a, b :: i <= a && PairAgain(s, a, b)
    decreases |s| - i
  {
    if i + 1 < |s| {
      DoublePairFromAt(s, i + 1);
      MatchesPairAt(s, i, 0);
      if MatchesPairFrom(s, i, 0) {
        var k :| 0 <= k < |s| - 1 && s[i] == s[k] && s[i + 1] == s[k + 1] && (i >= k + 2 || k >= i + 2);
        assert PairAgain(s, i, k);
      }
      if exists a, b :: i <= a && PairAgain(s, a, b) {
        var a, b :| i <= a && PairAgain(s, a, b);
        if a == i {
          assert 0 <= b < |s| - 1 && s[i] == s[b] && s[i + 1] == s[b + 1] && (i >= b + 2 || b >= i + 2);
        } else {
          assert i + 1 <= a && PairAgain(s, a, b);
        }
      }
    }
  }

  /** The same pair of characters occurs twice without overlapping. */
  lemma DoublePairAt(s: string)
    ensures ContainsDoublePair(s) <==> exists a, b :: (0 <= a && a + 2 <= b < |s| - 1
      && s[a] == s[b] && s[a + 1] == s[b + 1])
  {
    if ContainsDoublePair(s) {
      DoublePairWitness(s);
    } else {
      forall a, b | 0 <= a && a + 2 <= b < |s| - 1
        ensures !(s[a] == s[b] && s[a + 1] == s[b + 1])
      {
        if s[a] == s[b] && s[a + 1] == s[b + 1] {
          DoublePairFound(s, a, b);
        }
      }
    }
  }

  lemma DoublePairWitness(s: string)
    requires ContainsDoublePair(s)
    ensures exists a, b :: (0 <= a && a + 2 <= b < |s| - 1 && s[a] == s[b] && s[a + 1] == s[b + 1])
  {
    DoublePairFromAt(s, 0);
    var a, b :| 0 <= a && PairAgain(s, a, b);
    if a >= b + 2 {
      assert 0 <= b && b + 2 <= a < |s| - 1 && s[b] == s[a] && s[b + 1] == s[a + 1];
    } else {
      assert 0 <= a && a + 2 <= b < |s| - 1 && s[a] == s[b] && s[a + 1] == s[b + 1];
    }
  }

  lemma DoublePairFound(s: string, a: nat, b: nat)
    requires a + 2 <= b < |s| - 1 && s[a] == s[b] && s[a + 1] == s[b + 1]
    ensures ContainsDoublePair(s)
  {
    DoublePairFromAt(s, 0);
    assert PairAgain(s, a, b);
  }

  /** `is_nice_rule1` */
  predicate IsNiceRule1(s: string)
  {
    ContainsThreeVowels(s) && ContainsLetterPairs(s) && !ContainsNaughtyStrings(s)
  }

  /** `is_nice_rule2` */
  predicate IsNiceRule2(s: string)
  {
    ContainsDoublePair(s) && ContainsLetterPairWithSpace(s)
  }

  /** Rule 1 in terms of positions: at least three vowels, two equal
      characters side by side, and none of the four forbidden pairs. */
  lemma NiceRule1Meaning(s: string)
    ensures IsNiceRule1(s) <==>
      |VowelPositions(s)| >= 3
      && (exists i :: 0 <= i < |s| - 1 && s[i] == s[i + 1])
      && !(exists i :: 0 <= i < |s| - 1 && IsNaughtyPair(s[i], s[i + 1]))
  {
    VowelCountIsPositions(s);
    LetterPairsAt(s);
    NaughtyAt(s);
  }

  /** Rule 2 in terms of positions: a pair of characters that occurs twice
      without overlapping, and a character that repeats one later. */
  lemma NiceRule2Meaning(s: string)
    ensures IsNiceRule2(s) <==>
      (exists a, b :: 0 <= a && a + 2 <= b < |s| - 1 && s[a] == s[b] && s[a + 1] == s[b + 1])
      && (exists i :: 0 <= i < |s| - 2 && s[i] == s[i + 2])
  {
    DoublePairAt(s);
    SpacedPairAt(s);
  }

  /** `count_how_many_strings_are_nice_rule1` */
  function CountNiceRule1(lines: seq<string>): (n: nat)
    ensures n <= |lines|
  {
    if |lines| == 0 then 0 else (if IsNiceRule1(lines[0]) then 1 else 0) + CountNiceRule1(lines[1..])
  }

  /** `count_how_many_strings_are_nice_rule2` */
  function CountNiceRule2(lines: seq<string>): (n: nat)
    ensures n <= |lines|
  {
    if |lines| == 0 then 0 else (if IsNiceRule2(lines[0]) then 1 else 0) + CountNiceRule2(lines[1..])
  }

  /** The counts are the sizes of the nice parts of the list: counting two
      lists together adds their counts. */
  lemma {:induction false} CountsAdd(a: seq<string>, b: seq<string>)
    ensures CountNiceRule1(a + b) == CountNiceRule1(a) + CountNiceRule1(b)
    ensures CountNiceRule2(a + b) == CountNiceRule2(a) + CountNiceRule2(b)
  {
    if |a| == 0 {
      assert a + b == b;
    } else {
      CountsAdd(a[1..], b);
      assert (a + b)[1..] == a[1..] + b;
    }
  }

  /** Three vowels at three distinct positions make three vowels. */
  lemma ThreeVowelsAt(s: string, i: nat, j: nat, k: nat)
    requires i < j < k < |s| && IsVowel(s[i]) && IsVowel(s[j]) && IsVowel(s[k])
    ensures ContainsThreeVowels(s)
  {
    VowelCountIsPositions(s);
    assert {i, j, k} <= VowelPositions(s);
    assert |{i, j, k}| == 3;
    SubsetCardinality({i, j, k}, VowelPositions(s));
  }

  lemma SubsetCardinality(a: set<nat>, b: set<nat>)
    requires a <= b
    ensures |a| <= |b|
  {
    assert b == a + (b - a);
  }

  /* Each test vector is first proved about a parameter fixed by the
     precondition, so that the solver reasons about positions in the string
     instead of evaluating the recursive checks on a literal. */

  lemma ThreeVowelsVector1(s: string)
    requires s == "aei"
    ensures ContainsThreeVowels(s)
  {
    ThreeVowelsAt(s, 0, 1, 2);
  }

  lemma ThreeVowelsVector2(s: string)
    requires s == "xazegov"
    ensures ContainsThreeVowels(s)
  {
    ThreeVowelsAt(s, 1, 3, 5);
  }

  lemma ThreeVowelsVector3(s: string)
    requires s == "aeiouaeiouaeiou"
    ensures ContainsThreeVowels(s)
  {
    ThreeVowelsAt(s, 0, 1, 2);
  }

  lemma ThreeVowelsVector4(s: string)
    requires s == "abi"
    ensures !ContainsThreeVowels(s)
  {
    VowelCountIsPositions(s);
    assert VowelPositions(s) == {0, 2};
  }

  lemma ThreeVowelsVector5(s: string)
    requires s == "xazbgov"
    ensures !ContainsThreeVowels(s)
  {
    VowelCountIsPositions(s);
    assert VowelPositions(s) == {1, 5};
  }

  lemma ThreeVowelsVector6(s: string)
    requires s == "bdbdbdbdbd"
    ensures !ContainsThreeVowels(s)
  {
    VowelCountIsPositions(s);
    assert VowelPositions(s) == {};
  }

  /** The test vectors of `contains_three_vowels`. */
  lemma ThreeVowelsExamples()
    ensures ContainsThreeVowels("aei")
    ensures ContainsThreeVowels("xazegov")
    ensures ContainsThreeVowels("aeiouaeiouaeiou")
    ensures !ContainsThreeVowels("abi")
    ensures !ContainsThreeVowels("xazbgov")
    ensures !ContainsThreeVowels("bdbdbdbdbd")
  {
    ThreeVowelsVector1("aei");
    ThreeVowelsVector2("xazegov");
    ThreeVowelsVector3("aeiouaeiouaeiou");
    ThreeVowelsVector4("abi");
    ThreeVowelsVector5("xazbgov");
    ThreeVowelsVector6("bdbdbdbdbd");
  }

  lemma LetterPairsVector1(s: string)
    requires s == "xx"
    ensures ContainsLetterPairs(s)
  {
    LetterPairsAt(s);
    assert s[0] == s[1];
  }

  lemma LetterPairsVector2(s: string)
    requires s == "abcdde"
    ensures ContainsLetterPairs(s)
  {
    LetterPairsAt(s);
    assert s[3] == s[4];
  }

  lemma LetterPairsVector3(s: string)
    requires s == "aabbccdd"
    ensures ContainsLetterPairs(s)
  {
    LetterPairsAt(s);
    assert s[0] == s[1];
  }

  lemma LetterPairsVector4(s: string)
    requires s == "aeiouaeiouaeiou"
    ensures !ContainsLetterPairs(s)
  {
    LetterPairsAt(s);
  }

  lemma LetterPairsVector5(s: string)
    requires s == "xazegov"
    ensures !ContainsLetterPairs(s)
  {
    LetterPairsAt(s);
  }

  lemma LetterPairsVector6(s: string)
    requires s == "oxicszyiqifoyugx"
    ensures !ContainsLetterPairs(s)
  {
    LetterPairsAt(s);
  }

  /** The test vectors of `contains_letter_pairs`. */
  lemma LetterPairsExamples()
    ensures ContainsLetterPairs("xx")
    ensures ContainsLetterPairs("abcdde")
    ensures ContainsLetterPairs("aabbccdd")
    ensures !ContainsLetterPairs("aeiouaeiouaeiou")
    ensures !ContainsLetterPairs("xazegov")
    ensures !ContainsLetterPairs("oxicszyiqifoyugx")
  {
    LetterPairsVector1("xx");
    LetterPairsVector2("abcdde");
    LetterPairsVector3("aabbccdd");
    LetterPairsVector4("aeiouaeiouaeiou");
    LetterPairsVector5("xazegov");
    LetterPairsVector6("oxicszyiqifoyugx");
  }

  lemma NaughtyVector1(s: string)
    requires s == "xx"
    ensures !ContainsNaughtyStrings(s)
  {
    NaughtyAt(s);
  }

  lemma NaughtyVector2(s: string)
    requires s == "abcdde"
    ensures ContainsNaughtyStrings(s)
  {
    NaughtyAt(s);
    assert IsNaughtyPair(s[0], s[1]);
  }

  lemma NaughtyVector3(s: string)
    requires s == "aabbccdd"
    ensures ContainsNaughtyStrings(s)
  {
    NaughtyAt(s);
    assert IsNaughtyPair(s[1], s[2]);
  }

  lemma NaughtyVector4(s: string)
    requires s == "aeiouaeiouaeiou"
    ensures !ContainsNaughtyStrings(s)
  {
    NaughtyAt(s);
  }

  lemma NaughtyVector5(s: string)
    requires s == "xyazegov"
    ensures ContainsNaughtyStrings(s)
  {
    NaughtyAt(s);
    assert IsNaughtyPair(s[0], s[1]);
  }

  /** The test vectors of `contains_naughty_strings`. */
  lemma NaughtyExamples()
    ensures !ContainsNaughtyStrings("xx")
    ensures ContainsNaughtyStrings("abcdde")
    ensures ContainsNaughtyStrings("aabbccdd")
    ensures !ContainsNaughtyStrings("aeiouaeiouaeiou")
    ensures ContainsNaughtyStrings("xyazegov")
  {
    NaughtyVector1("xx");
    NaughtyVector2("abcdde");
    NaughtyVector3("aabbccdd");
    NaughtyVector4("aeiouaeiouaeiou");
    NaughtyVector5("xyazegov");
  }

  lemma NiceRule1Vector1(s: string)
    requires s == "ugknbfddgicrmopn"
    ensures IsNiceRule1(s)
  {
    ThreeVowelsAt(s, 0, 9, 13);
    LetterPairsAt(s);
    assert s[6] == s[7];
    NaughtyAt(s);
  }

  lemma NiceRule1Vector2(s: string)
    requires s == "aaa"
    ensures IsNiceRule1(s)
  {
    ThreeVowelsAt(s, 0, 1, 2);
    LetterPairsAt(s);
    assert s[0] == s[1];
    NaughtyAt(s);
  }

  lemma NiceRule1Vector3(s: string)
    requires s == "jchzalrnumimnmhp"
    ensures !IsNiceRule1(s)
  {
    LetterPairsAt(s);
  }

  lemma NiceRule1Vector4(s: string)
    requires s == "haegwjzuvuyypxyu"
    ensures !IsNiceRule1(s)
  {
    NaughtyAt(s);
    assert IsNaughtyPair(s[13], s[14]);
  }

  lemma NiceRule1Vector5(s: string)
    requires s == "dvszwmarrgswjxmb"
    ensures !IsNiceRule1(s)
  {
    VowelCountIsPositions(s);
    assert VowelPositions(s) == {6};
  }

  /** The test vectors of `is_nice_rule1`. */
  lemma NiceRule1Examples()
    ensures IsNiceRule1("ugknbfddgicrmopn")
    ensures IsNiceRule1("aaa")
    ensures !IsNiceRule1("jchzalrnumimnmhp")
    ensures !IsNiceRule1("haegwjzuvuyypxyu")
    ensures !IsNiceRule1("dvszwmarrgswjxmb")
  {
    NiceRule1Vector1("ugknbfddgicrmopn");
    NiceRule1Vector2("aaa");
    NiceRule1Vector3("jchzalrnumimnmhp");
    NiceRule1Vector4("haegwjzuvuyypxyu");
    NiceRule1Vector5("dvszwmarrgswjxmb");
  }

  lemma DoublePairVector1(s: string)
    requires s == "xyxy"
    ensures ContainsDoublePair(s)
  {
    DoublePairAt(s);
    assert s[0] == s[2] && s[1] == s[3];
  }

  lemma DoublePairVector2(s: string)
    requires s == "aabcdefgaa"
    ensures ContainsDoublePair(s)
  {
    DoublePairAt(s);
    assert s[0] == s[8] && s[1] == s[9];
  }

  lemma DoublePairVector3(s: string)
    requires s == "aaa"
    ensures !ContainsDoublePair(s)
  {
    DoublePairAt(s);
  }

  /** The test vectors of `contains_double_pair`. */
  lemma DoublePairExamples()
    ensures ContainsDoublePair("xyxy")
    ensures ContainsDoublePair("aabcdefgaa")
    ensures !ContainsDoublePair("aaa")
  {
    DoublePairVector1("xyxy");
    DoublePairVector2("aabcdefgaa");
    DoublePairVector3("aaa");
  }

  lemma SpacedPairVector1(s: string)
    requires s == "xyx"
    ensures ContainsLetterPairWithSpace(s)
  {
    SpacedPairAt(s);
    assert s[0] == s[2];
  }

  lemma SpacedPairVector2(s: string)
    requires s == "abcdefeghi"
    ensures ContainsLetterPairWithSpace(s)
  {
    SpacedPairAt(s);
    assert s[4] == s[6];
  }

  lemma SpacedPairVector3(s: string)
    requires s == "aaa"
    ensures ContainsLetterPairWithSpace(s)
  {
    SpacedPairAt(s);
    assert s[0] == s[2];
  }

  lemma SpacedPairVector4(s: string)
    requires s == "xyz"
    ensures !ContainsLetterPairWithSpace(s)
  {
    SpacedPairAt(s);
  }

  lemma SpacedPairVector5(s: string)
    requires s == "abcdefjghi"
    ensures !ContainsLetterPairWithSpace(s)
  {
    SpacedPairAt(s);
  }

  lemma SpacedPairVector6(s: string)
    requires s == "aab"
    ensures !ContainsLetterPairWithSpace(s)
  {
    SpacedPairAt(s);
  }

  /** The test vectors of `contains_letter_pair_with_space`. */
  lemma SpacedPairExamples()
    ensures ContainsLetterPairWithSpace("xyx")
    ensures ContainsLetterPairWithSpace("abcdefeghi")
    ensures ContainsLetterPairWithSpace("aaa")
    ensures !ContainsLetterPairWithSpace("xyz")
    ensures !ContainsLetterPairWithSpace("abcdefjghi")
    ensures !ContainsLetterPairWithSpace("aab")
  {
    SpacedPairVector1("xyx");
    SpacedPairVector2("abcdefeghi");
    SpacedPairVector3("aaa");
    SpacedPairVector4("xyz");
    SpacedPairVector5("abcdefjghi");
    SpacedPairVector6("aab");
  }

  lemma NiceRule2Vector1(s: string)
    requires s == "qjhvhtzxzqqjkmpb"
    ensures IsNiceRule2(s)
  {
    DoublePairAt(s);
    assert s[0] == s[10] && s[1] == s[11];
    SpacedPairAt(s);
    assert s[2] == s[4];
  }

  lemma NiceRule2Vector2(s: string)
    requires s == "xxyxx"
    ensures IsNiceRule2(s)
  {
    DoublePairAt(s);
    assert s[0] == s[3] && s[1] == s[4];
    SpacedPairAt(s);
    assert s[1] == s[3];
  }

  lemma NiceRule2Vector3(s: string)
    requires s == "uurcxstgmygtbstg"
    ensures !IsNiceRule2(s)
  {
    SpacedPairAt(s);
  }

  lemma NiceRule2Vector4(s: string)
    requires s == "ieodomkazucvgmuy"
    ensures !IsNiceRule2(s)
  {
    DoublePairAt(s);
  }

  /** The test vectors of `is_nice_rule2`. */
  lemma NiceRule2Examples()
    ensures IsNiceRule2("qjhvhtzxzqqjkmpb")
    ensures IsNiceRule2("xxyxx")
    ensures !IsNiceRule2("uurcxstgmygtbstg")
    ensures !IsNiceRule2("ieodomkazucvgmuy")
  {
    NiceRule2Vector1("qjhvhtzxzqqjkmpb");
    NiceRule2Vector2("xxyxx");
    NiceRule2Vector3("uurcxstgmygtbstg");
    NiceRule2Vector4("ieodomkazucvgmuy");
  }
}
