/** Day 2 (day-2/src/main.rs): presents are boxes given as "LxWxH"; each box
    needs paper for its surface plus its smallest side, and ribbon for its
    smallest perimeter plus its volume. */
module Day2 {
  import opened Wrappers
  import opened Strings

  predicate Sorted(s: seq<nat>)
  {
    forall i :: 0 < i < |s| ==> s[i - 1] <= s[i]
  }

  /** `x` put into its place in the sorted `s`. */
  function Insert(x: nat, s: seq<nat>): (r: seq<nat>)
    requires Sorted(s)
    ensures |r| == |s| + 1 && (r[0] == x || (|s| > 0 && r[0] == s[0]))
    ensures Sorted(r) && multiset(r) == multiset(s) + multiset{x}
  {
    if |s| == 0 then [x]
    else if x <= s[0] then [x] + s
    else
      var rest := Insert(x, s[1..]);
      assert s == [s[0]] + s[1..];
      [s[0]] + rest
  }

  /** `Vec::sort` on the dimensions of one box: ascending, same numbers. */
  function Sort(s: seq<nat>): (r: seq<nat>)
    ensures |r| == |s| && Sorted(r) && multiset(r) == multiset(s)
  {
    if |s| == 0 then []
    else
      assert s == [s[0]] + s[1..];
      Insert(s[0], Sort(s[1..]))
  }

  /** One line of the input: its 'x'-separated numbers, sorted; None if one
      of them is not a number (the source panics). */
  function ParseBox(line: string): (r: Option<seq<nat>>)
    ensures r.Some? <==> ParseAll(Split(line, 'x')).Some?
    ensures r.Some? ==> Sorted(r.value) && |r.value| == |Split(line, 'x')|
    ensures r.Some? ==> multiset(r.value) == multiset(ParseAll(Split(line, 'x')).value)
  {
    var fields := Split(line, 'x');
    match ParseAll(fields)
    case Some(dims) => Some(Sort(dims))
    case None => None
  }

  /** Every field parsed as a `usize`, or None if any fails. */
  function ParseAll(fields: seq<string>): (r: Option<seq<nat>>)
    ensures r.Some? <==> forall i :: 0 <= i < |fields| ==> ParseUsize(fields[i]).Some?
    ensures r.Some? ==> |r.value| == |fields|
    ensures r.Some? ==> forall i :: 0 <= i < |fields| ==> ParseUsize(fields[i]) == Some(r.value[i])
  {
    if forall i :: 0 <= i < |fields| ==> ParseUsize(fields[i]).Some? then
      Some(seq(|fields|, i requires 0 <= i < |fields| && ParseUsize(fields[i]).Some? => ParseUsize(fields[i]).value))
    else None
  }

  /** `parse`: one box per line; None if any line fails. */
  function Parse(input: string): (r: Option<seq<seq<nat>>>)
    ensures r.Some? <==> forall i :: 0 <= i < |Lines(input)| ==> ParseBox(Lines(input)[i]).Some?
    ensures r.Some? ==> |r.value| == |Lines(input)|
    ensures r.Some? ==> forall i :: 0 <= i < |r.value| ==> Some(r.value[i]) == ParseBox(Lines(input)[i])
  {
    var lines := Lines(input);
    if forall i :: 0 <= i < |lines| ==> ParseBox(lines[i]).Some? then
      Some(seq(|lines|, i requires 0 <= i < |lines| && ParseBox(lines[i]).Some? => ParseBox(lines[i]).value))
    else None
  }

  /** The paper one box needs; the source indexes dimensions 0, 1 and 2 and
      panics on a shorter list. */
  function PaperFor(d: seq<nat>): nat
    requires |d| >= 3
  {
    2 * (d[0] * d[1] + d[1] * d[2] + d[2] * d[0]) + d[0] * d[1]
  }

  /** The ribbon one box needs. */
  function RibbonFor(d: seq<nat>): nat
    requires |d| >= 3
  {
    2 * (d[0] + d[1]) + d[0] * d[1] * d[2]
  }

  /** Sorting what is already sorted changes nothing. */
  lemma {:induction false} SortOfSorted(s: seq<nat>)
    requires Sorted(s)
    ensures Sort(s) == s
  {
    if |s| > 0 {
      SortOfSorted(s[1..]);
      assert [s[0]] + s[1..] == s;
    }
  }

  /** Sorting twice is sorting once. */
  lemma SortIdempotent(s: seq<nat>)
    ensures Sort(Sort(s)) == Sort(s)
  {
    SortOfSorted(Sort(s));
  }

  /** Sorting two dimensions. */
  lemma SortTwo(w: nat, h: nat)
    ensures Sort([w, h]) == if w <= h then [w, h] else [h, w]
  {
    assert [w, h][1..] == [h];
    assert [h][1..] == [];
    assert Sort([h]) == [h];
  }

  /** Sorting three dimensions puts them in ascending order. */
  lemma SortThree(l: nat, w: nat, h: nat)
    ensures var d := Sort([l, w, h]);
      |d| == 3 && d[0] <= d[1] <= d[2]
      && (d[0], d[1], d[2]) in {(l, w, h), (l, h, w), (w, l, h), (w, h, l), (h, l, w), (h, w, l)}
  {
    assert [l, w, h][1..] == [w, h];
    SortTwo(w, h);
    if w <= h {
      InsertIntoPair(l, w, h);
    } else {
      InsertIntoPair(l, h, w);
    }
  }

  lemma InsertIntoPair(x: nat, a: nat, b: nat)
    requires a <= b
    ensures Insert(x, [a, b]) == (if x <= a then [x, a, b] else if x <= b then [a, x, b] else [a, b, x])
  {
    assert [a, b][1..] == [b];
    assert [b][1..] == [];
  }

  /** On three sorted dimensions the extra paper is the smallest side and
      the ribbon goes round the smallest perimeter. */
  lemma SortedSides(a: nat, b: nat, c: nat)
    requires a <= b <= c
    ensures a * b <= b * c && a * b <= c * a
    ensures a + b <= b + c && a + b <= c + a
  {
    MulMonotone(a, c, b);
    MulMonotone(b, c, a);
  }

  lemma MulMonotone(x: nat, y: nat, k: nat)
    requires x <= y
    ensures x * k <= y * k
  {
  }

  /** On a box with sorted dimensions the paper is the surface plus the
      smallest side, and the ribbon the smallest perimeter plus the volume. */
  lemma SmallestSide(d: seq<nat>)
    requires |d| == 3 && Sorted(d)
    ensures PaperFor(d) == 2 * (d[0] * d[1] + d[1] * d[2] + d[2] * d[0]) + Min(d[0] * d[1], Min(d[1] * d[2], d[2] * d[0]))
    ensures RibbonFor(d) == 2 * Min(d[0] + d[1], Min(d[1] + d[2], d[2] + d[0])) + d[0] * d[1] * d[2]
  {
    SortedSides(d[0], d[1], d[2]);
  }

  /** `calculate_wrapping_paper`: the paper of all boxes added up. */
  function WrappingPaper(boxes: seq<seq<nat>>): nat
    requires forall i :: 0 <= i < |boxes| ==> |boxes[i]| >= 3
  {
    if |boxes| == 0 then 0
    else WrappingPaper(boxes[..|boxes| - 1]) + PaperFor(boxes[|boxes| - 1])
  }

  /** `calculate_ribbons` */
  function Ribbons(boxes: seq<seq<nat>>): nat
    requires forall i :: 0 <= i < |boxes| ==> |boxes[i]| >= 3
  {
    if |boxes| == 0 then 0
    else Ribbons(boxes[..|boxes| - 1]) + RibbonFor(boxes[|boxes| - 1])
  }

  /** The totals are sums: the boxes of two lists together need what each
      list needs. */
  lemma {:induction false} TotalsAdd(a: seq<seq<nat>>, b: seq<seq<nat>>)
    requires forall i :: 0 <= i < |a| ==> |a[i]| >= 3
    requires forall i :: 0 <= i < |b| ==> |b[i]| >= 3
    ensures WrappingPaper(a + b) == WrappingPaper(a) + WrappingPaper(b)
    ensures Ribbons(a + b) == Ribbons(a) + Ribbons(b)
    decreases |b|
  {
    if |b| == 0 {
      assert a + b == a;
    } else {
      TotalsAdd(a, b[..|b| - 1]);
      assert (a + b)[..|a + b| - 1] == a + b[..|b| - 1];
      assert (a + b)[|a + b| - 1] == b[|b| - 1];
    }
  }

  /** The test inputs parse to one sorted box each. */
  lemma ParseExamples()
    ensures Parse("2x3x4") == Some([[2, 3, 4]])
    ensures Parse("1x1x10") == Some([[1, 1, 10]])
  {
    ParseExample234();
    ParseExample1110();
  }

  lemma ParseExample234()
    ensures Parse("2x3x4") == Some([[2, 3, 4]])
  {
    var fields := ["2", "3", "4"];
    assert Join(fields, 'x') == "2x3x4" by {
      assert fields[1..][1..] == ["4"];
    }
    assert Decimal(2) == "2" && Decimal(3) == "3" && Decimal(4) == "4";
    ParseLineExample("2x3x4", fields, [2, 3, 4]);
  }

  lemma ParseExample1110()
    ensures Parse("1x1x10") == Some([[1, 1, 10]])
  {
    var fields := ["1", "1", "10"];
    assert Join(fields, 'x') == "1x1x10" by {
      assert fields[1..][1..] == ["10"];
    }
    assert Decimal(1) == "1" && Decimal(10) == "10";
    ParseLineExample("1x1x10", fields, [1, 1, 10]);
  }

  lemma ParseLineExample(line: string, fields: seq<string>, dims: seq<nat>)
    requires |line| > 0 && '\n' !in line && line[|line| - 1] != '\r'
    requires |fields| == |dims| == 3 && Join(fields, 'x') == line
    requires forall i :: 0 <= i < 3 ==> 'x' !in fields[i] && fields[i] == Decimal(dims[i]) && dims[i] <= UsizeMax
    requires dims[0] <= dims[1] <= dims[2]
    ensures Parse(line) == Some([dims])
  {
    BoxExample(line, fields, dims);
    ParseOneLine(line);
  }

  lemma BoxExample(line: string, fields: seq<string>, dims: seq<nat>)
    requires |fields| == |dims| == 3 && Join(fields, 'x') == line
    requires forall i :: 0 <= i < 3 ==> 'x' !in fields[i] && fields[i] == Decimal(dims[i]) && dims[i] <= UsizeMax
    requires dims[0] <= dims[1] <= dims[2]
    ensures ParseBox(line) == Some(dims)
  {
    SplitJoin(fields, 'x');
    ParseFieldsExample(fields, dims);
    SortOfSorted(dims);
  }

  /** Input of one line is one box. */
  lemma ParseOneLine(line: string)
    requires |line| > 0 && '\n' !in line && line[|line| - 1] != '\r'
    requires ParseBox(line).Some?
    ensures Parse(line) == Some([ParseBox(line).value])
  {
    OneLine(line);
    var r := Parse(line);
    assert r.Some? && |r.value| == 1 && r.value[0] == ParseBox(line).value;
    assert r.value == [ParseBox(line).value];
  }

  lemma ParseFieldsExample(fields: seq<string>, dims: seq<nat>)
    requires |fields| == |dims|
    requires forall i :: 0 <= i < |fields| ==> fields[i] == Decimal(dims[i]) && dims[i] <= UsizeMax
    ensures ParseAll(fields) == Some(dims)
  {
    forall i | 0 <= i < |fields|
      ensures ParseUsize(fields[i]) == Some(dims[i])
    {
      ParseUsizeDecimal(dims[i]);
    }
    var r := ParseAll(fields);
    assert r.Some? && |r.value| == |dims|;
    assert forall i :: 0 <= i < |dims| ==> r.value[i] == dims[i];
    assert r.value == dims;
  }

  /** The test vectors: 2x3x4 needs 58 feet of paper and 34 of ribbon,
      1x1x10 needs 43 and 14. */
  lemma TotalExamples()
    ensures WrappingPaper([[2, 3, 4]]) == 58 && Ribbons([[2, 3, 4]]) == 34
    ensures WrappingPaper([[1, 1, 10]]) == 43 && Ribbons([[1, 1, 10]]) == 14
  {
    assert [[2, 3, 4]][..0] == [];
    assert [[1, 1, 10]][..0] == [];
  }
}
