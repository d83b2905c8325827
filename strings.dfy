/** The pieces of Rust's `str` API the puzzle parsers lean on: `split` on one
    character, `lines`, and `usize::from_str` / `isize::from_str`. */
module Strings {
  import opened Wrappers

  /** `str::split(sep)`: the pieces between separators, in order; there is
      always at least one piece, and an empty string gives one empty piece. */
  function Split(s: string, sep: char): (parts: seq<string>)
    ensures |parts| >= 1
    ensures forall i :: 0 <= i < |parts| ==> sep !in parts[i]
    ensures Join(parts, sep) == s
    decreases |s|
  {
    if |s| == 0 then [""]
    else
      var rest := Split(s[1..], sep);
      if s[0] == sep then [""] + rest
      else [[s[0]] + rest[0]] + rest[1..]
  }

  /** The pieces glued back together with the separator between them. */
  function Join(parts: seq<string>, sep: char): string
    requires |parts| >= 1
  {
    if |parts| == 1 then parts[0] else parts[0] + [sep] + Join(parts[1..], sep)
  }

  /** Splitting the joined pieces gives the pieces back, as long as none of
      them contains the separator: `Split` and `Join` are inverses. */
  lemma {:induction false} SplitJoin(parts: seq<string>, sep: char)
    requires |parts| >= 1
    requires forall i :: 0 <= i < |parts| ==> sep !in parts[i]
    ensures Split(Join(parts, sep), sep) == parts
    decreases |parts|, |parts[0]|
  {
    var s := Join(parts, sep);
    if |parts[0]| == 0 {
      if |parts| > 1 {
        var tail := Join(parts[1..], sep);
        SplitJoin(parts[1..], sep);
        assert Split(s, sep) == [""] + Split(tail, sep) by {
          assert s == [sep] + tail;
          assert s[1..] == tail;
        }
        assert parts == [""] + parts[1..];
      } else {
        assert s == "";
      }
    } else {
      var c := parts[0][0];
      var shorter := [parts[0][1..]] + parts[1..];
      assert sep !in shorter[0] by {
        assert forall c :: c in parts[0][1..] ==> c in parts[0];
      }
      var tail := Join(shorter, sep);
      SplitJoin(shorter, sep);
      assert s[1..] == tail && c != sep by {
        assert shorter[1..] == parts[1..];
        assert s == [c] + tail by {
          if |parts| > 1 {
            assert tail == parts[0][1..] + [sep] + Join(parts[1..], sep);
          }
        }
      }
      assert Split(s, sep) == [[c] + shorter[0]] + shorter[1..];
      assert [c] + parts[0][1..] == parts[0];
      assert shorter[1..] == parts[1..];
    }
  }

  /** The pieces between '\n' that `str::lines` keeps: a final '\n' does not
      start another line, so a last empty piece is dropped, and the empty
      string has no lines at all. */
  function RawLines(s: string): (raw: seq<string>)
    ensures forall i :: 0 <= i < |raw| ==> '\n' !in raw[i]
  {
    var parts := Split(s, '\n');
    if parts[|parts| - 1] == "" then parts[..|parts| - 1] else parts
  }

  /** `str::lines`: the kept pieces, each with one trailing '\r' removed. */
  function Lines(s: string): (lines: seq<string>)
    ensures forall i :: 0 <= i < |lines| ==> '\n' !in lines[i]
  {
    var raw := RawLines(s);
    seq(|raw|, i requires 0 <= i < |raw| => StripCarriageReturn(raw[i]))
  }

  /** Line `i` is kept piece `i` with at most one '\r' stripped. */
  lemma LinesStripRaw(s: string)
    ensures |Lines(s)| == |RawLines(s)|
    ensures forall i :: 0 <= i < |Lines(s)| ==>
      Lines(s)[i] == RawLines(s)[i] || Lines(s)[i] + ['\r'] == RawLines(s)[i]
  {
  }

  /** One more piece at the end of a join. */
  lemma {:induction false} JoinSnoc(parts: seq<string>, last: string, sep: char)
    requires |parts| >= 1
    ensures Join(parts + [last], sep) == Join(parts, sep) + [sep] + last
    decreases |parts|
  {
    if |parts| > 1 {
      JoinSnoc(parts[1..], last, sep);
      assert (parts + [last])[1..] == parts[1..] + [last];
    }
  }

  /** The kept pieces joined with '\n' give the text back, less at most one
      final '\n': `lines` loses nothing but the line breaks, one '\r' per
      line and a trailing line break. */
  lemma LinesJoinBack(s: string)
    ensures RawLines(s) == [] <==> s == ""
    ensures RawLines(s) != [] ==>
      s == Join(RawLines(s), '\n') || s == Join(RawLines(s), '\n') + "\n"
  {
    var parts := Split(s, '\n');
    var n := |parts|;
    assert Join(parts, '\n') == s;
    if parts[n - 1] != "" {
      assert RawLines(s) == parts;
    } else if n == 1 {
      assert RawLines(s) == [];
      assert s == parts[0] == "";
    } else {
      var kept := parts[..n - 1];
      assert RawLines(s) == kept;
      assert parts == kept + [""];
      JoinSnoc(kept, "", '\n');
      assert s == Join(kept, '\n') + "\n";
    }
  }

  /** The partner: lines free of line breaks and of a trailing '\r', each
      ended by '\n', are read back as they were. */
  lemma LinesOfJoined(ls: seq<string>)
    requires |ls| >= 1
    requires forall i :: 0 <= i < |ls| ==> '\n' !in ls[i]
    requires forall i :: 0 <= i < |ls| ==> |ls[i]| == 0 || ls[i][|ls[i]| - 1] != '\r'
    ensures Lines(Join(ls, '\n') + "\n") == ls
  {
    var parts := ls + [""];
    JoinSnoc(ls, "", '\n');
    assert Join(parts, '\n') == Join(ls, '\n') + "\n";
    assert forall i :: 0 <= i < |parts| ==> '\n' !in parts[i] by {
      forall i | 0 <= i < |parts|
        ensures '\n' !in parts[i]
      {
        if i < |ls| {
          assert parts[i] == ls[i];
        }
      }
    }
    SplitJoin(parts, '\n');
    assert parts[..|parts| - 1] == ls;
    var text := Join(ls, '\n') + "\n";
    assert RawLines(text) == ls;
    LinesStripRaw(text);
  }

  function StripCarriageReturn(line: string): (r: string)
    ensures r == line || (line == r + ['\r'])
    ensures |r| <= |line| && forall c :: c in r ==> c in line
  {
    if |line| > 0 && line[|line| - 1] == '\r' then line[..|line| - 1] else line
  }

  /** A line without line breaks is its own single line. */
  lemma OneLine(s: string)
    requires |s| > 0 && '\n' !in s && s[|s| - 1] != '\r'
    ensures Lines(s) == [s]
  {
    SplitJoin([s], '\n');
    assert Split(s, '\n') == [s];
    assert |Lines(s)| == 1 && Lines(s)[0] == StripCarriageReturn(s);
  }

  predicate IsDigit(c: char)
  {
    '0' <= c <= '9'
  }

  function DigitValue(c: char): (d: nat)
    requires IsDigit(c)
    ensures d < 10
  {
    (c - '0') as nat
  }

  function DigitChar(d: nat): (c: char)
    requires d < 10
    ensures IsDigit(c) && DigitValue(c) == d
  {
    ('0' as int + d) as char
  }

  predicate AllDigits(s: string)
  {
    forall i :: 0 <= i < |s| ==> IsDigit(s[i])
  }

  /** The number a digit string denotes, most significant digit first. */
  function DecimalValue(s: string): nat
    requires AllDigits(s)
  {
    if |s| == 0 then 0 else DecimalValue(s[..|s| - 1]) * 10 + DigitValue(s[|s| - 1])
  }

  /** The decimal digits of `n`, without leading zeros. */
  function Decimal(n: nat): (s: string)
    ensures |s| >= 1 && AllDigits(s)
  {
    if n < 10 then [DigitChar(n)] else Decimal(n / 10) + [DigitChar(n % 10)]
  }

  /** Reading the digits of `n` gives `n` back. */
  lemma {:induction false} DecimalRoundTrip(n: nat)
    ensures DecimalValue(Decimal(n)) == n
  {
    if n >= 10 {
      DecimalRoundTrip(n / 10);
      assert Decimal(n)[..|Decimal(n)| - 1] == Decimal(n / 10);
    }
  }

  /** The largest `usize` on a 64-bit target. */
  const UsizeMax: nat := 0xFFFF_FFFF_FFFF_FFFF

  /** `usize::from_str`: an optional '+', then at least one decimal digit and
      nothing else, and a value that fits in 64 bits. */
  function ParseUsize(s: string): (r: Option<nat>)
    ensures r.Some? ==> r.value <= UsizeMax
  {
    var digits := if |s| > 0 && s[0] == '+' then s[1..] else s;
    if |digits| == 0 || !AllDigits(digits) then None
    else
      var v := DecimalValue(digits);
      if v <= UsizeMax then Some(v) else None
  }

  /** Every `usize` survives printing and parsing. */
  lemma ParseUsizeDecimal(n: nat)
    requires n <= UsizeMax
    ensures ParseUsize(Decimal(n)) == Some(n)
  {
    DecimalRoundTrip(n);
  }

  /** `ParseUsize` accepts exactly the strings described above. */
  lemma ParseUsizeRejects(s: string)
    ensures |s| == 0 ==> ParseUsize(s).None?
    ensures (exists i :: 0 <= i < |s| && !IsDigit(s[i]) && !(i == 0 && s[i] == '+')) ==> ParseUsize(s).None?
  {
    if |s| > 0 && s[0] == '+' {
      forall i | 1 <= i < |s| && !IsDigit(s[i])
        ensures !AllDigits(s[1..])
      {
        assert s[1..][i - 1] == s[i];
      }
    }
  }

  /** Signed parsing (`isize::from_str`, `i32::from_str`): an optional sign,
      then digits, within `min ..= max`. */
  function ParseSigned(s: string, min: int, max: int): (r: Option<int>)
    ensures r.Some? ==> min <= r.value <= max
    ensures r.Some? ==> |s| > 0
    ensures r.Some? && r.value < 0 ==> s[0] == '-'
    ensures r.Some? && s[0] == '-' ==> r.value <= 0
  {
    var negative := |s| > 0 && s[0] == '-';
    var digits := if |s| > 0 && (s[0] == '+' || s[0] == '-') then s[1..] else s;
    if |digits| == 0 || !AllDigits(digits) then None
    else
      var v := if negative then -(DecimalValue(digits) as int) else DecimalValue(digits);
      if min <= v <= max then Some(v) else None
  }

  /** `ParseSigned` rejects the empty string, a lone sign, and any string
      with a non-digit other than one leading sign. */
  lemma ParseSignedRejects(s: string, min: int, max: int)
    ensures |s| <= 1 && (|s| == 0 || !IsDigit(s[0])) ==> ParseSigned(s, min, max).None?
    ensures (exists i :: 0 <= i < |s| && !IsDigit(s[i]) && !(i == 0 && (s[i] == '+' || s[i] == '-')))
      ==> ParseSigned(s, min, max).None?
  {
    if |s| > 0 && (s[0] == '+' || s[0] == '-') {
      forall i | 1 <= i < |s| && !IsDigit(s[i])
        ensures !AllDigits(s[1..])
      {
        assert s[1..][i - 1] == s[i];
      }
    }
  }

  /** The decimal text of a signed value: a '-' before the digits of a
      negative one. */
  function SignedDecimal(n: int): (s: string)
    ensures |s| >= 1
  {
    if n < 0 then "-" + Decimal(-n) else Decimal(n)
  }

  /** Every signed value in range survives printing and parsing, negative
      ones included. */
  lemma ParseSignedDecimal(n: int, min: int, max: int)
    requires min <= n <= max
    ensures ParseSigned(SignedDecimal(n), min, max) == Some(n)
  {
    var magnitude := if n < 0 then -n else n;
    assert IsDigit(Decimal(magnitude)[0]);
    DecimalRoundTrip(magnitude);
    if n < 0 {
      assert SignedDecimal(n)[1..] == Decimal(magnitude);
    }
  }

  /** The ASCII characters `char::is_whitespace` accepts: the space and the
      control characters from '\t' to '\r'. */
  predicate IsWhitespace(c: char)
  {
    c == ' ' || '\t' <= c <= '\r'
  }

  predicate NoWhitespace(s: string)
  {
    forall i :: 0 <= i < |s| ==> !IsWhitespace(s[i])
  }

  /** The digits of a number form a word that starts with no sign. */
  lemma DecimalWord(n: nat)
    ensures |Decimal(n)| > 0 && NoWhitespace(Decimal(n))
    ensures Decimal(n)[0] != '+' && Decimal(n)[0] != '-'
  {
    forall i | 0 <= i < |Decimal(n)|
      ensures !IsWhitespace(Decimal(n)[i])
    {
      assert IsDigit(Decimal(n)[i]);
    }
    assert IsDigit(Decimal(n)[0]);
  }

  /** The longest prefix of `s` without whitespace. */
  function WordAt(s: string): (w: string)
    ensures |w| <= |s| && w == s[..|w|] && NoWhitespace(w)
    ensures |w| < |s| ==> IsWhitespace(s[|w|])
  {
    if |s| == 0 || IsWhitespace(s[0]) then []
    else
      var rest := WordAt(s[1..]);
      assert s[..|rest| + 1] == [s[0]] + rest;
      [s[0]] + rest
  }

  /** `str::split_whitespace`: the maximal runs of non-whitespace, in order. */
  function Words(s: string): (ws: seq<string>)
    ensures forall i :: 0 <= i < |ws| ==> |ws[i]| > 0 && NoWhitespace(ws[i])
    decreases |s|
  {
    if |s| == 0 then []
    else if IsWhitespace(s[0]) then Words(s[1..])
    else
      var w := WordAt(s);
      [w] + Words(s[|w|..])
  }

  /** Words glued together with single spaces. */
  function Unwords(ws: seq<string>): string
  {
    if |ws| == 0 then "" else if |ws| == 1 then ws[0] else ws[0] + " " + Unwords(ws[1..])
  }

  lemma {:induction false} WordAtWord(w: string, rest: string)
    requires NoWhitespace(w)
    requires |rest| == 0 || IsWhitespace(rest[0])
    ensures WordAt(w + rest) == w
    decreases |w|
  {
    if |w| > 0 {
      WordAtWord(w[1..], rest);
      assert (w + rest)[1..] == w[1..] + rest;
    } else {
      assert w + rest == rest;
    }
  }

  /** Splitting words glued with spaces gives the words back. */
  lemma {:induction false} WordsUnwords(ws: seq<string>)
    requires forall i :: 0 <= i < |ws| ==> |ws[i]| > 0 && NoWhitespace(ws[i])
    ensures Words(Unwords(ws)) == ws
  {
    if |ws| == 1 {
      WordAtWord(ws[0], "");
      assert ws[0] + "" == ws[0];
      assert ws[0][|ws[0]|..] == "";
    } else if |ws| > 1 {
      var tail := Unwords(ws[1..]);
      WordsUnwords(ws[1..]);
      var s := ws[0] + " " + tail;
      WordAtWord(ws[0], " " + tail);
      assert ws[0] + (" " + tail) == s;
      assert s[|ws[0]|..] == " " + tail;
      assert (" " + tail)[1..] == tail;
    }
  }

  /** `str::find(c)`: the index of the first occurrence of `c`. */
  function Find(s: string, c: char): (r: Option<nat>)
    ensures r.Some? ==> r.value < |s| && s[r.value] == c && c !in s[..r.value]
    ensures r.None? <==> c !in s
  {
    if |s| == 0 then None
    else if s[0] == c then Some(0)
    else
      match Find(s[1..], c)
      case Some(k) =>
        assert s[..k + 1] == [s[0]] + s[1..][..k];
        Some(k + 1)
      case None =>
        assert s == [s[0]] + s[1..];
        None
  }

  /** Finding `c` in `a + [c] + b` with `c` absent from `a` gives `|a|`. */
  lemma {:induction false} FindAfter(a: string, c: char, b: string)
    requires c !in a
    ensures Find(a + [c] + b, c) == Some(|a|)
  {
    if |a| > 0 {
      FindAfter(a[1..], c, b);
      assert (a + [c] + b)[1..] == a[1..] + [c] + b;
    }
  }

  /** `p` occurs in `s` at index `k`. */
  predicate OccursAt(s: string, p: string, k: nat)
  {
    k + |p| <= |s| && s[k..k + |p|] == p
  }

  /** `str::find(pattern)`: the index of the first occurrence of `p`. */
  function FindSubstring(s: string, p: string): (r: Option<nat>)
    ensures r.Some? ==> OccursAt(s, p, r.value) && forall k :: 0 <= k < r.value ==> !OccursAt(s, p, k)
    ensures r.None? ==> forall k :: 0 <= k ==> !OccursAt(s, p, k)
    decreases |s|
  {
    if |s| < |p| then None
    else if s[..|p|] == p then Some(0)
    else
      var rest := FindSubstring(s[1..], p);
      assert forall k :: 1 <= k ==> OccursAt(s, p, k) == OccursAt(s[1..], p, k - 1);
      match rest
      case Some(k) => Some(k + 1)
      case None => None
  }

  /** `str::split(pattern)` for a non-empty string pattern: cut at the first
      occurrence, then go on after it. */
  function SplitOn(s: string, sep: string): (parts: seq<string>)
    requires |sep| > 0
    ensures |parts| >= 1
    ensures forall i :: 0 <= i < |parts| - 1 ==> FindSubstring(parts[i], sep) == None
    ensures JoinWith(parts, sep) == s
    decreases |s|
  {
    match FindSubstring(s, sep)
    case None => [s]
    case Some(k) =>
      var head := s[..k];
      var rest := SplitOn(s[k + |sep|..], sep);
      assert FindSubstring(head, sep) == None by {
        forall j | 0 <= j
          ensures OccursAt(head, sep, j) ==> OccursAt(s, sep, j)
        {
          if j + |sep| <= k {
            assert head[j..j + |sep|] == s[j..j + |sep|];
          }
        }
      }
      var parts := [head] + rest;
      assert parts[1..] == rest;
      assert JoinWith(parts, sep) == s by {
        assert s == head + sep + s[k + |sep|..];
      }
      assert forall i :: 1 <= i < |parts| ==> parts[i] == rest[i - 1];
      parts
  }

  /** The pieces glued back together with the pattern between them. */
  function JoinWith(parts: seq<string>, sep: string): string
    requires |parts| >= 1
  {
    if |parts| == 1 then parts[0] else parts[0] + sep + JoinWith(parts[1..], sep)
  }

  /** The first occurrence of a two-character pattern with two different
      characters in `a + sep + b` is the one after `a`, when `a` has none. */
  lemma FindSeparator(a: string, sep: string, b: string)
    requires |sep| == 2 && sep[0] != sep[1]
    requires FindSubstring(a, sep) == None
    ensures FindSubstring(a + sep + b, sep) == Some(|a|)
  {
    var s := a + sep + b;
    assert OccursAt(s, sep, |a|) by {
      assert s[|a|..|a| + 2] == sep;
    }
    forall k | 0 <= k && k + 2 <= |a|
      ensures OccursAt(s, sep, k) ==> OccursAt(a, sep, k)
    {
      assert s[k..k + 2] == a[k..k + 2];
    }
    assert s[|a|] == sep[0];
  }

  /** Splitting the joined pieces gives the pieces back when none of them
      holds the pattern (for two-character patterns of two different
      characters, which cannot straddle a seam). */
  lemma {:induction false} SplitOnJoin(parts: seq<string>, sep: string)
    requires |parts| >= 1
    requires |sep| == 2 && sep[0] != sep[1]
    requires forall i :: 0 <= i < |parts| ==> FindSubstring(parts[i], sep) == None
    ensures SplitOn(JoinWith(parts, sep), sep) == parts
    decreases |parts|
  {
    if |parts| > 1 {
      var rest := JoinWith(parts[1..], sep);
      var s := parts[0] + sep + rest;
      assert JoinWith(parts, sep) == s;
      FindSeparator(parts[0], sep, rest);
      assert s[|parts[0]| + 2..] == rest;
      assert s[..|parts[0]|] == parts[0];
      SplitOnJoin(parts[1..], sep);
      assert SplitOn(s, sep) == [parts[0]] + SplitOn(rest, sep);
      assert parts == [parts[0]] + parts[1..];
    } else {
      assert SplitOn(parts[0], sep) == [parts[0]];
    }
  }

  /** A pattern whose first character does not occur does not occur. */
  lemma Absent(s: string, sep: string)
    requires |sep| > 0 && sep[0] !in s
    ensures FindSubstring(s, sep) == None
  {
    forall k | 0 <= k
      ensures !OccursAt(s, sep, k)
    {
      if k + |sep| <= |s| {
        assert s[k..k + |sep|][0] == s[k];
      }
    }
  }

  /** A two-character pattern found in neither half, and not spelled by the
      last character of `a` and the first of `b`, is not in `a + b`. */
  lemma AbsentConcat(a: string, b: string, sep: string)
    requires |sep| == 2
    requires FindSubstring(a, sep) == None && FindSubstring(b, sep) == None
    requires |a| > 0 && |b| > 0 ==> !(a[|a| - 1] == sep[0] && b[0] == sep[1])
    ensures FindSubstring(a + b, sep) == None
  {
    var s := a + b;
    forall k | 0 <= k
      ensures !OccursAt(s, sep, k)
    {
      OccursAtPair(s, sep, k);
      if k + 2 <= |a| {
        OccursAtPair(a, sep, k);
      } else if |a| <= k && k + 2 <= |s| {
        OccursAtPair(b, sep, k - |a|);
      }
    }
  }

  /** A two-character pattern occurs where its two characters do. */
  lemma OccursAtPair(s: string, sep: string, k: nat)
    requires |sep| == 2
    ensures OccursAt(s, sep, k) <==> k + 2 <= |s| && s[k] == sep[0] && s[k + 1] == sep[1]
  {
    if k + 2 <= |s| && s[k] == sep[0] && s[k + 1] == sep[1] {
      assert s[k..k + 2] == sep;
    }
  }
}
