/** Day 11 (day-11/src/main.rs): Santa's next password. Passwords are
    incremented like base-26 numbers written with 'a'..'z' until one passes
    the three security rules. A panic of the source becomes `None`. */
module Day11 {
  import opened Wrappers
  import opened Arith

  predicate IsLetter(c: char)
  {
    'a' <= c <= 'z'
  }

  predicate Letters(s: string)
  {
    forall i :: 0 <= i < |s| ==> IsLetter(s[i])
  }

  /** `n` copies of 'a'. */
  function As(n: nat): (s: string)
    ensures |s| == n && Letters(s)
  {
    seq(n, _ => 'a')
  }

  /** Appends `n` 'a's to a successful result. */
  function Extend(r: Option<string>, n: nat): Option<string>
  {
    match r
    case None => None
    case Some(t) => Some(t + As(n))
  }

  /** The increment `get_next_string` performs: from the right, every 'z'
      becomes 'a' and carries; the first of 'a'..'y' goes up by one and
      stops the carry; anything else reached by the carry is an error.
      A carry out of the leftmost letter is dropped. */
  function Increment(s: string): (r: Option<string>)
    ensures r.Some? ==> |r.value| == |s|
  {
    if |s| == 0 then Some(s)
    else
      var c := s[|s| - 1];
      var front := s[..|s| - 1];
      if c == 'z' then Extend(Increment(front), 1)
      else if 'a' <= c <= 'y' then Some(front + [(c as int + 1) as char])
      else None
  }

  /** A run of trailing 'z's becomes a run of 'a's and the carry goes on
      to what stands in front of it. */
  lemma {:induction false} IncrementZs(s: string, i: nat)
    requires i <= |s|
    requires forall j :: i <= j < |s| ==> s[j] == 'z'
    ensures Increment(s) == Extend(Increment(s[..i]), |s| - i)
    decreases |s| - i
  {
    if i < |s| {
      IncrementZs(s, i + 1);
      var front := s[..i + 1];
      assert front[..i] == s[..i];
      assert Increment(front) == Extend(Increment(s[..i]), 1);
      match Increment(s[..i])
      case None =>
      case Some(t) =>
        assert t + As(1) + As(|s| - i - 1) == t + As(|s| - i);
    } else {
      assert s[..i] == s;
      assert s + As(0) == s;
      match Increment(s)
      case None =>
      case Some(t) => assert t + As(0) == t;
    }
  }

  /** `get_next_string`: the loop walks from the last byte to the first,
      wrapping 'z' to 'a' and stopping at the first byte it can raise. */
  method NextString(input: string) returns (r: Option<string>)
    ensures r == Increment(input)
  {
    var bytes := input;
    var i := |bytes|;
    while i > 0
      invariant 0 <= i <= |input| && |bytes| == |input|
      invariant bytes == input[..i] + As(|input| - i)
      invariant forall j :: i <= j < |input| ==> input[j] == 'z'
      decreases i
    {
      var c := bytes[i - 1];
      assert c == input[i - 1];
      if c == 'z' {
        bytes := bytes[i - 1 := 'a'];
        assert bytes == input[..i - 1] + As(|input| - i + 1);
      } else if 'a' <= c <= 'y' {
        bytes := bytes[i - 1 := (c as int + 1) as char];
        IncrementZs(input, i);
        assert input[..i][..i - 1] == input[..i - 1];
        assert bytes == input[..i - 1] + [(c as int + 1) as char] + As(|input| - i);
        return Some(bytes);
      } else {
        IncrementZs(input, i);
        assert input[..i][..i - 1] == input[..i - 1];
        return None;
      }
      i := i - 1;
    }
    IncrementZs(input, 0);
    return Some(bytes);
  }

  function Pow26(n: nat): (p: nat)
    ensures p >= 1
  {
    if n == 0 then 1 else 26 * Pow26(n - 1)
  }

  /** A string of letters read as a base-26 number, 'a' being 0 and the
      last letter the least significant digit. */
  function Value(s: string): nat
    requires Letters(s)
  {
    if |s| == 0 then 0
    else Value(s[..|s| - 1]) * 26 + (s[|s| - 1] - 'a') as nat
  }

  /** A value has as many base-26 digits as the string has letters. */
  lemma {:induction false} ValueBound(s: string)
    requires Letters(s)
    ensures Value(s) < Pow26(|s|)
  {
    if |s| > 0 {
      var front := s[..|s| - 1];
      ValueBound(front);
      assert Value(front) * 26 <= (Pow26(|s| - 1) - 1) * 26;
    }
  }

  lemma ValueSnoc(front: string, c: char)
    requires Letters(front) && IsLetter(c)
    ensures Letters(front + [c])
    ensures Value(front + [c]) == Value(front) * 26 + (c - 'a') as nat
  {
    assert (front + [c])[..|front|] == front;
  }

  /** Two letter strings of one length with one value are the same. */
  lemma {:induction false} ValueInjective(s: string, t: string)
    requires Letters(s) && Letters(t) && |s| == |t|
    requires Value(s) == Value(t)
    ensures s == t
  {
    if |s| > 0 {
      var n := |s| - 1;
      ValueInjective(s[..n], t[..n]);
      assert s == s[..n] + [s[n]] && t == t[..n] + [t[n]];
    }
  }

  /** On letters the increment adds one modulo 26 to the power of the
      length, and never fails. */
  lemma {:induction false} IncrementValue(s: string)
    requires Letters(s)
    ensures Increment(s).Some?
    ensures Letters(Increment(s).value)
    ensures Value(Increment(s).value) == (Value(s) + 1) % Pow26(|s|)
  {
    if |s| > 0 {
      if s[|s| - 1] == 'z' {
        IncrementValue(s[..|s| - 1]);
        IncrementCarry(s);
      } else {
        IncrementNoCarry(s);
      }
    }
  }

  /** A last letter 'z' becomes 'a' and carries into the front. */
  lemma IncrementCarry(s: string)
    requires Letters(s) && |s| > 0 && s[|s| - 1] == 'z'
    requires var front := s[..|s| - 1];
      && Increment(front).Some? && Letters(Increment(front).value)
      && Value(Increment(front).value) == (Value(front) + 1) % Pow26(|front|)
    ensures Increment(s).Some?
    ensures Letters(Increment(s).value)
    ensures Value(Increment(s).value) == (Value(s) + 1) % Pow26(|s|)
  {
    var n := |s| - 1;
    var front := s[..n];
    assert s == front + ['z'];
    ValueSnoc(front, 'z');
    var f := Increment(front).value;
    ValueSnoc(f, 'a');
    assert Increment(s).value == f + ['a'];
    var p := Pow26(n);
    assert Pow26(|s|) == 26 * p;
    var v := Value(front);
    assert Value(s) == v * 26 + 25;
    assert Value(f + ['a']) == Value(f) * 26;
    ValueBound(front);
    CarryArithmetic(v, p);
    SameModulo(Value(s) + 1, Pow26(|s|), v * 26 + 25 + 1, 26 * p);
    SameModulo(Value(front) + 1, Pow26(n), v + 1, p);
  }

  /** The arithmetic of a carry: (26 v + 25 + 1) mod 26 p is 26 ((v + 1) mod p). */
  lemma CarryArithmetic(v: nat, p: nat)
    requires v < p
    ensures (v * 26 + 25 + 1) % (26 * p) == ((v + 1) % p) * 26
  {
    if v + 1 < p {
      ModUnique(v + 1, p, 0, v + 1);
      ModUnique(v * 26 + 25 + 1, 26 * p, 0, (v + 1) * 26);
    } else {
      ModUnique(v + 1, p, 1, 0);
      ModUnique(v * 26 + 25 + 1, 26 * p, 1, 0);
    }
  }

  /** A last letter below 'z' goes up by one and nothing carries. */
  lemma IncrementNoCarry(s: string)
    requires Letters(s) && |s| > 0 && s[|s| - 1] != 'z'
    ensures Increment(s).Some?
    ensures Letters(Increment(s).value)
    ensures Value(Increment(s).value) == (Value(s) + 1) % Pow26(|s|)
  {
    var n := |s| - 1;
    var c := s[n];
    var front := s[..n];
    var d := (c as int + 1) as char;
    RaiseLast(s);
    assert s == front + [c];
    ValueSnoc(front, c);
    ValueSnoc(front, d);
    var p := Pow26(n);
    assert Pow26(|s|) == 26 * p;
    var v, digit := Value(front), (c - 'a') as nat;
    assert (d - 'a') as nat == digit + 1;
    var r := v * 26 + digit + 1;
    assert Value(front + [d]) == r;
    ValueBound(front);
    NoCarryArithmetic(v, digit, p);
    SameModulo(Value(s) + 1, Pow26(|s|), v * 26 + digit + 1, 26 * p);
  }

  /** A last letter below 'z' is raised by one. */
  lemma RaiseLast(s: string)
    requires Letters(s) && |s| > 0 && s[|s| - 1] != 'z'
    ensures Increment(s) == Some(s[..|s| - 1] + [(s[|s| - 1] as int + 1) as char])
  {
  }

  lemma SameModulo(x: nat, m: nat, y: nat, k: nat)
    requires x == y && m == k && m > 0
    ensures x % m == y % k
  {
  }

  /** Without a carry the sum stays below the modulus. */
  lemma NoCarryArithmetic(v: nat, digit: nat, p: nat)
    requires v < p && digit < 25
    ensures (v * 26 + digit + 1) % (26 * p) == v * 26 + digit + 1
  {
    assert v * 26 + digit + 1 < 26 * p;
    ModUnique(v * 26 + digit + 1, 26 * p, 0, v * 26 + digit + 1);
  }

  /** `z...z` wraps round to `a...a`. */
  lemma {:induction false} AllZsWrap(n: nat)
    ensures Increment(seq(n, _ => 'z')) == Some(As(n))
  {
    var s: string := seq(n, _ => 'z');
    IncrementZs(s, 0);
    assert s[..0] == "";
    assert "" + As(n) == As(n);
  }

  /** `k` increments in a row; a failure stops the chain. */
  function Steps(s: string, k: nat): (r: Option<string>)
    ensures r.Some? ==> |r.value| == |s|
  {
    if k == 0 then Some(s)
    else
      match Steps(s, k - 1)
      case None => None
      case Some(t) => Increment(t)
  }

  lemma {:induction false} StepsAdd(s: string, a: nat, b: nat)
    requires Steps(s, a).Some?
    ensures Steps(s, a + b) == Steps(Steps(s, a).value, b)
  {
    if b > 0 {
      StepsAdd(s, a, b - 1);
    }
  }

  /** After `k` increments a letter string has value `k` more, modulo
      26 to the power of its length. */
  lemma {:induction false} StepsValue(s: string, k: nat)
    requires Letters(s)
    ensures Steps(s, k).Some? && Letters(Steps(s, k).value)
    ensures Value(Steps(s, k).value) == (Value(s) + k) % Pow26(|s|)
  {
    var p := Pow26(|s|);
    ValueBound(s);
    if k == 0 {
      ModUnique(Value(s), p, 0, Value(s));
    } else {
      StepsValue(s, k - 1);
      var t := Steps(s, k - 1).value;
      IncrementValue(t);
      ModSucc(Value(s) + k - 1, p);
    }
  }

  lemma ModSucc(x: nat, p: nat)
    requires p > 0
    ensures (x % p + 1) % p == (x + 1) % p
  {
    var r := x % p;
    assert x == (x / p) * p + r;
    if r + 1 < p {
      ModUnique(r + 1, p, 0, r + 1);
      ModUnique(x + 1, p, x / p, r + 1);
    } else {
      ModUnique(r + 1, p, 1, 0);
      ModUnique(x + 1, p, x / p + 1, 0);
    }
  }

  /** After 26^n increments a letter string of length n is back where it
      started. */
  lemma Cycle(s: string)
    requires Letters(s)
    ensures Steps(s, Pow26(|s|)) == Some(s)
  {
    var p := Pow26(|s|);
    StepsValue(s, p);
    var t := Steps(s, p).value;
    WrapsAround(s, t, p);
  }

  /** A string whose value is a full period past that of `s` is `s`. */
  lemma WrapsAround(s: string, t: string, p: nat)
    requires Letters(s) && Letters(t) && |t| == |s| && p == Pow26(|s|)
    requires Value(t) == (Value(s) + p) % p
    ensures t == s
  {
    ValueBound(s);
    AddPeriod(Value(s), p);
    ValueInjective(t, s);
  }

  lemma AddPeriod(v: nat, p: nat)
    requires v < p
    ensures (v + p) % p == v
  {
    ModUnique(v + p, p, 1, v);
  }

  /** Hence the increments repeat with period 26^n. */
  lemma {:induction false} Periodic(s: string, k: nat)
    requires Letters(s)
    ensures Steps(s, k + Pow26(|s|)) == Steps(s, k)
  {
    Cycle(s);
    StepsAdd(s, Pow26(|s|), k);
    assert Pow26(|s|) + k == k + Pow26(|s|);
  }

  /** `contains_increasing_straight`: three neighbours that go up by one. */
  predicate StraightAt(p: string, i: nat)
    requires i + 2 < |p|
  {
    p[i + 1] as int == p[i] as int + 1 && p[i + 2] as int == p[i + 1] as int + 1
  }

  function HasStraight(p: string): (r: bool)
    ensures r <==> exists i: nat :: i + 2 < |p| && StraightAt(p, i)
  {
    if |p| < 3 then false
    else
      var rest := HasStraight(p[1..]);
      assert forall i: nat :: i + 2 < |p| - 1 ==> (StraightAt(p[1..], i) <==> StraightAt(p, i + 1));
      if StraightAt(p, 0) then true
      else
        assert rest ==> exists i: nat :: i + 2 < |p| && StraightAt(p, i) by {
          if rest {
            var i: nat :| i + 2 < |p| - 1 && StraightAt(p[1..], i);
            assert StraightAt(p, i + 1);
          }
        }
        assert (exists i: nat :: i + 2 < |p| && StraightAt(p, i)) ==> rest by {
          if exists i: nat :: i + 2 < |p| && StraightAt(p, i) {
            var i: nat :| i + 2 < |p| && StraightAt(p, i);
            assert i >= 1 && StraightAt(p[1..], i - 1);
          }
        }
        rest
  }

  predicate IsConfusing(c: char)
  {
    c == 'i' || c == 'o' || c == 'l'
  }

  /** `doesnt_contain_confusing_letters` */
  function NoConfusingLetters(p: string): (r: bool)
    ensures r <==> 'i' !in p && 'o' !in p && 'l' !in p
  {
    if |p| == 0 then true
    else
      assert p == [p[0]] + p[1..];
      !IsConfusing(p[0]) && NoConfusingLetters(p[1..])
  }

  /** An equal pair at `i`. */
  predicate PairAt(p: string, i: nat)
  {
    i + 1 < |p| && p[i] == p[i + 1]
  }

  /** The fold of `contains_double_pair` over the windows of two from
      `k` on: `count` pairs so far, `matched` when the last window was
      counted, so that the window after a counted pair is skipped. */
  function PairFold(p: string, k: nat, count: nat, matched: bool): nat
    decreases |p| - k
  {
    if k + 1 >= |p| then count
    else if !matched && p[k] == p[k + 1] then PairFold(p, k + 1, count + 1, true)
    else PairFold(p, k + 1, count, false)
  }

  /** `contains_double_pair` */
  predicate HasDoublePair(p: string)
  {
    PairFold(p, 0, 0, false) >= 2
  }

  /** The greedy count of non-overlapping pairs from `k` on. */
  function Greedy(p: string, k: nat): nat
    decreases |p| - k
  {
    if k + 1 >= |p| then 0
    else if PairAt(p, k) then 1 + Greedy(p, k + 2)
    else Greedy(p, k + 1)
  }

  lemma {:induction false} FoldGreedy(p: string, k: nat, count: nat, matched: bool)
    ensures PairFold(p, k, count, matched) == count + Greedy(p, if matched then k + 1 else k)
    decreases |p| - k
  {
    if k + 1 < |p| {
      if !matched && p[k] == p[k + 1] {
        FoldGreedy(p, k + 1, count + 1, true);
      } else {
        FoldGreedy(p, k + 1, count, false);
      }
    }
  }

  lemma {:induction false} GreedyOne(p: string, k: nat)
    ensures Greedy(p, k) >= 1 <==> exists i: nat :: k <= i && PairAt(p, i)
    decreases |p| - k
  {
    if k + 1 < |p| {
      GreedyOne(p, k + 1);
      if !PairAt(p, k) {
        assert forall i: nat :: k <= i && PairAt(p, i) ==> k + 1 <= i;
      }
    } else {
      assert forall i: nat :: k <= i ==> !PairAt(p, i);
    }
  }

  ghost predicate TwoPairsFrom(p: string, k: nat)
  {
    exists i: nat, j: nat :: k <= i && i + 2 <= j && PairAt(p, i) && PairAt(p, j)
  }

  lemma {:induction false} GreedyTwo(p: string, k: nat)
    ensures Greedy(p, k) >= 2 <==> TwoPairsFrom(p, k)
    decreases |p| - k
  {
    if k + 1 < |p| {
      if PairAt(p, k) {
        GreedyOne(p, k + 2);
        if Greedy(p, k + 2) >= 1 {
          var j: nat :| k + 2 <= j && PairAt(p, j);
          assert TwoPairsFrom(p, k) by {
            assert k <= k && k + 2 <= j && PairAt(p, k) && PairAt(p, j);
          }
        }
        if TwoPairsFrom(p, k) {
          var i: nat, j: nat :| k <= i && i + 2 <= j && PairAt(p, i) && PairAt(p, j);
          assert k + 2 <= j;
        }
      } else {
        GreedyTwo(p, k + 1);
        if TwoPairsFrom(p, k) {
          var i: nat, j: nat :| k <= i && i + 2 <= j && PairAt(p, i) && PairAt(p, j);
          assert k + 1 <= i;
          assert TwoPairsFrom(p, k + 1);
        }
      }
    }
  }

  /** The fold finds two pairs exactly when two equal pairs exist that do
      not overlap. */
  lemma DoublePairMeans(p: string)
    ensures HasDoublePair(p) <==> TwoPairsFrom(p, 0)
  {
    FoldGreedy(p, 0, 0, false);
    GreedyTwo(p, 0);
  }

  /** `is_valid_password` */
  predicate Valid(p: string)
  {
    HasStraight(p) && NoConfusingLetters(p) && HasDoublePair(p)
  }

  /** The `k`-th increment exists and is valid. */
  predicate ValidAt(p: string, k: nat)
  {
    Steps(p, k).Some? && Valid(Steps(p, k).value)
  }

  /** Every increment from the first to the `k`-th exists and is invalid. */
  predicate AllInvalidUpTo(p: string, k: nat)
  {
    forall j :: 1 <= j <= k ==> Steps(p, j).Some? && !Valid(Steps(p, j).value)
  }

  /** `get_next_password`: increment until valid. The source loops forever
      when no valid password follows; the model stops after 26^n steps,
      when a letter password has come back to itself (`Cycle`), and
      answers `None`, as it does for a panic. */
  method NextPassword(password: string) returns (r: Option<string>)
    ensures r.Some? ==> exists k :: 1 <= k && AllInvalidUpTo(password, k - 1) && Steps(password, k) == r && Valid(r.value)
    ensures r.None? ==> forall k :: 1 <= k <= Pow26(|password|) ==> !ValidAt(password, k)
  {
    var current := password;
    var steps := 0;
    while steps < Pow26(|password|)
      invariant steps <= Pow26(|password|)
      invariant Steps(password, steps) == Some(current)
      invariant AllInvalidUpTo(password, steps)
      decreases Pow26(|password|) - steps
    {
      var next := NextString(current);
      steps := steps + 1;
      if next.None? {
        NoneAfter(password, steps, Pow26(|password|));
        return None;
      }
      current := next.value;
      assert Steps(password, steps) == Some(current);
      if Valid(current) {
        assert AllInvalidUpTo(password, steps - 1);
        return Some(current);
      }
    }
    return None;
  }

  /** Once an increment fails, all later ones fail. */
  lemma {:induction false} NoneAfter(p: string, k: nat, n: nat)
    requires Steps(p, k).None? && AllInvalidUpTo(p, k - 1)
    ensures forall j :: 1 <= j <= n ==> !ValidAt(p, j)
  {
    forall j | k <= j
      ensures Steps(p, j).None?
    {
      StaysNone(p, k, j);
    }
  }

  lemma {:induction false} StaysNone(p: string, k: nat, j: nat)
    requires Steps(p, k).None? && k <= j
    ensures Steps(p, j).None?
    decreases j
  {
    if j > k {
      StaysNone(p, k, j - 1);
    }
  }

  /** For a password of letters, `None` means that no increment at all is
      valid: the source's loop never ends. */
  lemma {:induction false} NeverValid(p: string, k: nat)
    requires Letters(p)
    requires forall j :: 1 <= j <= Pow26(|p|) ==> !ValidAt(p, j)
    requires 1 <= k
    ensures !ValidAt(p, k)
    decreases k
  {
    if k > Pow26(|p|) {
      Periodic(p, k - Pow26(|p|));
      NeverValid(p, k - Pow26(|p|));
    }
  }

  lemma IncrementExample1(s: string)
    requires s == "abc"
    ensures Increment(s) == Some("abd")
  {
    assert s[2] == 'c' && s[..2] == "ab";
    assert "ab" + ['d'] == "abd";
  }

  lemma IncrementExample2(s: string)
    requires s == "abcz"
    ensures Increment(s) == Some("abda")
  {
    assert s[3] == 'z' && s[..3] == "abc";
    IncrementExample1(s[..3]);
    assert As(1) == "a";
    assert "abd" + "a" == "abda";
  }

  lemma IncrementExample3(s: string)
    requires s == "zz"
    ensures Increment(s) == Some("aa")
  {
    assert s[1] == 'z' && s[..1] == "z";
    assert s[..1][0] == 'z' && s[..1][..0] == "";
    assert As(1) == "a";
    assert "" + "a" == "a" && "a" + "a" == "aa";
    assert Increment(s[..1][..0]) == Some("");
    assert Increment(s[..1]) == Some("a");
  }

  lemma StraightExamples()
    ensures HasStraight("abc") && HasStraight("bcd") && HasStraight("cde")
    ensures !HasStraight("abd")
    ensures HasStraight("hijklmmn")
    ensures !HasStraight("abbceffg")
  {
    assert StraightAt("abc", 0) && StraightAt("bcd", 0) && StraightAt("cde", 0);
    assert StraightAt("hijklmmn", 0);
  }

  lemma ConfusingExamples()
    ensures NoConfusingLetters("acdfeffv")
    ensures !NoConfusingLetters("sdfdsfok")
    ensures !NoConfusingLetters("dsfdsfdsisdf")
    ensures !NoConfusingLetters("sdfdsfeflasd")
    ensures !NoConfusingLetters("hijklmmn")
  {
    assert "sdfdsfok"[6] == 'o';
    assert "dsfdsfdsisdf"[8] == 'i';
    assert "sdfdsfeflasd"[8] == 'l';
    assert "hijklmmn"[1] == 'i';
  }

  lemma DoublePairExamples()
    ensures HasDoublePair("abbceffg")
    ensures !HasDoublePair("abbcegjk")
    ensures !HasDoublePair("abcdeggg")
  {
  }

  lemma ValidExample1()
    ensures Valid("abcdffaa")
  {
    assert StraightAt("abcdffaa", 0);
    FirstValidLetters();
    FirstValidPairs();
  }

  lemma FirstValidLetters()
    ensures NoConfusingLetters("abcdffaa")
  {
  }

  lemma FirstValidPairs()
    ensures HasDoublePair("abcdffaa")
  {
  }

  lemma ValidExample2()
    ensures Valid("ghjaabcc")
  {
    assert StraightAt("ghjaabcc", 4);
    SecondValidLetters();
    SecondValidPairs();
  }

  lemma SecondValidLetters()
    ensures NoConfusingLetters("ghjaabcc")
  {
  }

  lemma SecondValidPairs()
    ensures HasDoublePair("ghjaabcc")
  {
  }

  lemma InvalidExamples()
    ensures !Valid("abbcegjk")
    ensures !Valid("hijklmmn")
    ensures !Valid("acdfeffv")
  {
    assert "hijklmmn"[1] == 'i';
    DoublePairExamples();
  }
}
