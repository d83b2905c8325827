/** Day 10 (day-10/src/main.rs): the look-and-say sequence. One step reads
    the digits as maximal runs of equal digits and writes, for each run,
    its length and its digit. */
module Day10 {

  /** A `u8`. */
  type Byte = x: int | 0 <= x < 256

  /** A run: `count` copies of `digit`. */
  datatype Run = Run(count: nat, digit: Byte)

  /** The length of the run at the front of `s`. */
  function RunLength(s: seq<Byte>): (n: nat)
    requires |s| > 0
    ensures 1 <= n <= |s|
    ensures forall i :: 0 <= i < n ==> s[i] == s[0]
    ensures n < |s| ==> s[n] != s[0]
  {
    if |s| == 1 || s[1] != s[0] then 1 else 1 + RunLength(s[1..])
  }

  /** `group_by` on the digit itself: the maximal runs, in order. */
  function Runs(s: seq<Byte>): seq<Run>
    decreases |s|
  {
    if |s| == 0 then []
    else
      var n := RunLength(s);
      [Run(n, s[0])] + Runs(s[n..])
  }

  /** The runs read are maximal: non-empty, neighbours differ, and the
      first holds the first digit. */
  lemma {:induction false} RunsMaximal(s: seq<Byte>)
    ensures IsRunList(Runs(s))
    ensures |s| > 0 ==> |Runs(s)| > 0 && Runs(s)[0].digit == s[0]
    decreases |s|
  {
    if |s| > 0 {
      var n := RunLength(s);
      RunsMaximal(s[n..]);
      var rest := Runs(s[n..]);
      assert Runs(s) == [Run(n, s[0])] + rest;
      assert n < |s| ==> rest[0].digit == s[n];
    }
  }

  /** Every run is non-empty and neighbouring runs have different digits. */
  predicate IsRunList(runs: seq<Run>)
  {
    && (forall i :: 0 <= i < |runs| ==> runs[i].count >= 1)
    && (forall i :: 0 <= i < |runs| - 1 ==> runs[i].digit != runs[i + 1].digit)
  }

  function Repeat(d: Byte, n: nat): (s: seq<Byte>)
    ensures |s| == n && forall i :: 0 <= i < n ==> s[i] == d
  {
    if n == 0 then [] else [d] + Repeat(d, n - 1)
  }

  /** The digits the runs stand for. */
  function Expand(runs: seq<Run>): seq<Byte>
  {
    if |runs| == 0 then [] else Repeat(runs[0].digit, runs[0].count) + Expand(runs[1..])
  }

  /** The runs spell out the digits they were read from. */
  lemma {:induction false} RunsExpand(s: seq<Byte>)
    ensures Expand(Runs(s)) == s
    decreases |s|
  {
    if |s| > 0 {
      var n := RunLength(s);
      RunsExpand(s[n..]);
      ExpandCons(Run(n, s[0]), Runs(s[n..]));
      RepeatPrefix(s, n);
    }
  }

  /** The digits of one run followed by more runs. */
  lemma ExpandCons(r: Run, rest: seq<Run>)
    ensures Expand([r] + rest) == Repeat(r.digit, r.count) + Expand(rest)
  {
    assert ([r] + rest)[0] == r && ([r] + rest)[1..] == rest;
  }

  /** A prefix of equal digits is a repetition of the first. */
  lemma RepeatPrefix(s: seq<Byte>, n: nat)
    requires 1 <= n <= |s| && forall i :: 0 <= i < n ==> s[i] == s[0]
    ensures Repeat(s[0], n) + s[n..] == s
  {
    assert Repeat(s[0], n) == s[..n];
    assert s[..n] + s[n..] == s;
  }

  /** Reading runs is the only way to split the digits into maximal runs:
      any list of non-empty runs with different neighbouring digits that
      spells `s` is `Runs(s)`. */
  lemma {:induction false} RunsUnique(runs: seq<Run>, s: seq<Byte>)
    requires IsRunList(runs) && Expand(runs) == s
    ensures runs == Runs(s)
    decreases |runs|
  {
    if |runs| > 0 {
      var r := runs[0];
      var tail := Expand(runs[1..]);
      assert runs == [r] + runs[1..];
      ExpandCons(r, runs[1..]);
      assert IsRunList(runs[1..]);
      RunsUnique(runs[1..], tail);
      if |runs| > 1 {
        assert runs[1..] == [runs[1]] + runs[2..];
        ExpandCons(runs[1], runs[2..]);
      }
      RunAtFront(r.digit, r.count, tail);
    }
  }

  /** A run of `count` copies of `d` in front of digits that do not start
      with `d` is the first maximal run. */
  lemma RunAtFront(d: Byte, count: nat, tail: seq<Byte>)
    requires count >= 1 && (|tail| > 0 ==> tail[0] != d)
    ensures var s := Repeat(d, count) + tail;
      s[0] == d && RunLength(s) == count && s[count..] == tail
  {
    var s := Repeat(d, count) + tail;
    var n := RunLength(s);
    assert s[0] == d;
    assert n <= count ==> s[n - 1] == d;
    assert s[count..] == tail;
  }

  /** Each run becomes its length (as a `u8`, so modulo 256) and its
      digit. */
  function Say(runs: seq<Run>): (s: seq<Byte>)
    ensures |s| == 2 * |runs|
  {
    if |runs| == 0 then []
    else [(runs[0].count % 256) as Byte, runs[0].digit] + Say(runs[1..])
  }

  /** Entry `2 i` is the length of run `i`, as a `u8`, and entry `2 i + 1`
      its digit. */
  lemma {:induction false} SayPairs(runs: seq<Run>, i: nat)
    requires i < |runs|
    ensures Say(runs)[2 * i] == runs[i].count % 256
    ensures Say(runs)[2 * i + 1] == runs[i].digit
  {
    if i > 0 {
      SayPairs(runs[1..], i - 1);
    }
  }

  /** `get_next_number`: two entries per maximal run. */
  function NextNumber(number: seq<Byte>): seq<Byte>
  {
    Say(Runs(number))
  }

  /** The step writes two entries per run, so at least two for any
      non-empty input. */
  lemma NextNumberLength(number: seq<Byte>)
    ensures |NextNumber(number)| == 2 * |Runs(number)|
    ensures |number| > 0 ==> |NextNumber(number)| >= 2
  {
  }

  /** Any split into maximal runs determines the step's output. */
  lemma NextOfRuns(runs: seq<Run>, s: seq<Byte>)
    requires IsRunList(runs) && Expand(runs) == s
    ensures NextNumber(s) == Say(runs)
  {
    RunsUnique(runs, s);
  }

  /** `get_number_after_n_iterations`: the `fold` over `0..n`, each turn
      replacing the number by the next one. */
  function Iterate(number: seq<Byte>, n: nat): seq<Byte>
    decreases n
  {
    if n == 0 then number else Iterate(NextNumber(number), n - 1)
  }

  /** Doing `m` steps and then `n` more is doing `m + n`. */
  lemma {:induction false} IterateAdd(number: seq<Byte>, m: nat, n: nat)
    ensures Iterate(Iterate(number, m), n) == Iterate(number, m + n)
    decreases m
  {
    if m > 0 {
      var next := NextNumber(number);
      IterateAdd(next, m - 1, n);
      assert Iterate(number, m) == Iterate(next, m - 1);
      assert Iterate(number, m + n) == Iterate(next, m - 1 + n);
    }
  }

  lemma Step1()
    ensures NextNumber([1]) == [1, 1]
  {
    RunsUnique([Run(1, 1)], [1]);
  }

  lemma Step2()
    ensures NextNumber([1, 1]) == [2, 1]
  {
    RunsUnique([Run(2, 1)], [1, 1]);
  }

  lemma Step3(s: seq<Byte>)
    requires s == [2, 1]
    ensures NextNumber(s) == [1, 2, 1, 1]
  {
    var runs := [Run(1, 2), Run(1, 1)];
    assert Expand(runs) == [2, 1] by {
      assert Expand(runs[1..]) == [1];
    }
    NextOfRuns(runs, s);
    assert Say(runs) == [1, 2, 1, 1] by {
      assert Say(runs[1..]) == [1, 1];
    }
  }

  lemma Step4(s: seq<Byte>)
    requires s == [1, 2, 1, 1]
    ensures NextNumber(s) == [1, 1, 1, 2, 2, 1]
  {
    var runs := [Run(1, 1), Run(1, 2), Run(2, 1)];
    assert Expand(runs) == [1, 2, 1, 1] by {
      assert Repeat(1, 2) == [1, 1];
      assert Expand(runs[2..]) == [1, 1];
      assert Expand(runs[1..]) == [2, 1, 1];
    }
    NextOfRuns(runs, s);
    assert Say(runs) == [1, 1, 1, 2, 2, 1] by {
      assert Say(runs[2..]) == [2, 1];
      assert Say(runs[1..]) == [1, 2, 2, 1];
    }
  }

  lemma Step5(s: seq<Byte>)
    requires s == [1, 1, 1, 2, 2, 1]
    ensures NextNumber(s) == [3, 1, 2, 2, 1, 1]
  {
    var runs := [Run(3, 1), Run(2, 2), Run(1, 1)];
    assert Expand(runs) == [1, 1, 1, 2, 2, 1] by {
      assert Repeat(2, 2) == [2, 2];
      assert Repeat(1, 3) == [1, 1, 1];
      assert Expand(runs[2..]) == [1];
      assert Expand(runs[1..]) == [2, 2, 1];
    }
    NextOfRuns(runs, s);
    assert Say(runs) == [3, 1, 2, 2, 1, 1] by {
      assert Say(runs[2..]) == [1, 1];
      assert Say(runs[1..]) == [2, 2, 1, 1];
    }
  }

  /** A single run of `n` copies of `d` is said as its length (modulo
      256) and its digit. */
  lemma OneRun(d: Byte, n: nat)
    requires n >= 1
    ensures NextNumber(Repeat(d, n)) == [(n % 256) as Byte, d]
  {
    var r := Run(n, d);
    ExpandCons(r, []);
    assert [r] + [] == [r];
    assert Repeat(d, n) + [] == Repeat(d, n);
    RunsUnique([r], Repeat(d, n));
  }

  /** Twelve threes make one run of length twelve: the step gives
      [12, 3], one entry for the length, not [1, 2, 3]. */
  lemma TwelveThrees(d: Byte, n: nat)
    requires d == 3 && n == 12
    ensures NextNumber(Repeat(d, n)) == [12, 3]
  {
    OneRun(d, n);
  }

  /** A run longer than 255 has its length cut to a `u8`. */
  lemma LongRun(d: Byte, n: nat)
    requires d == 1 && n == 257
    ensures NextNumber(Repeat(d, n)) == [1, 1]
  {
    OneRun(d, n);
  }

  lemma IterateExamples()
    ensures Iterate([1], 0) == [1]
    ensures Iterate([1], 1) == [1, 1]
    ensures Iterate([1], 2) == [2, 1]
    ensures Iterate([1], 3) == [1, 2, 1, 1]
    ensures Iterate([1], 4) == [1, 1, 1, 2, 2, 1]
    ensures Iterate([1], 5) == [3, 1, 2, 2, 1, 1]
  {
    Step1();
    Step2();
    Step3(Iterate([1], 2));
    Step4(Iterate([1], 3));
    Step5(Iterate([1], 4));
  }
}
