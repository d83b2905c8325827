/** Day 8 (day-8/src/main.rs): string literals as they appear in the puzzle
    input. `parse_string` runs a small state machine over the characters of
    a literal and collects the characters it stands for; `encode_string`
    writes a string back as a literal. The two are proved inverse. */
module Day8 {
  import opened Wrappers

  /** Where the scanner is: outside a literal, inside one, after a
      backslash, after `\x`, or after `\x` and one hex digit. */
  datatype ParseState =
    | NoString
    | Normal
    | Escaped
    | EscapedHexadecimal
    | EscapedHexadecimal1(digit: char)

  /** What one scanning step gives: the next state and possibly a character
      of the decoded string, or an error message. */
  datatype Step =
    | Continue(state: ParseState, emitted: Option<char>)
    | Failure(message: string)

  /** The outcome of `parse_string`. */
  datatype ParseResult = Ok(value: string) | Err(message: string)

  const UnknownSymbol := "Unknown symbol outside of String. Expected '\"'."
  const UnknownEscape := "Unknown Escape Sequence. Expected '\"', '\\' or 'x'."
  const UnknownHexadecimal := "Unknown Hexadecimal Escape Sequence. Expected a digit."

  predicate IsHexDigit(c: char)
  {
    '0' <= c <= '9' || 'A' <= c <= 'F' || 'a' <= c <= 'f'
  }

  /** `char::to_digit(16)` on a hex digit. */
  function HexValue(c: char): (d: nat)
    requires IsHexDigit(c)
    ensures d < 16
  {
    if c <= '9' then (c - '0') as nat
    else if c <= 'F' then (c - 'A') as nat + 10
    else (c - 'a') as nat + 10
  }

  /** `scan_no_string`: only an opening quote is allowed outside a literal. */
  function ScanNoString(c: char): (r: Step)
    ensures r.Continue? <==> c == '"'
    ensures r.Continue? ==> r == Continue(Normal, None)
  {
    if c == '"' then Continue(Normal, None) else Failure(UnknownSymbol)
  }

  /** `scan_normal`: a quote closes the literal, a backslash starts an
      escape and anything else stands for itself. */
  function ScanNormal(c: char): (r: Step)
    ensures r.Continue?
    ensures c != '"' && c != '\\' ==> r == Continue(Normal, Some(c))
    ensures r.emitted.None? <==> c == '"' || c == '\\'
  {
    if c == '"' then Continue(NoString, None)
    else if c == '\\' then Continue(Escaped, None)
    else Continue(Normal, Some(c))
  }

  /** `scan_escaped`: `\"` and `\\` stand for the quote and the backslash,
      `\x` starts a hex escape; any other escape is an error. */
  function ScanEscaped(c: char): (r: Step)
    ensures r.Continue? <==> c == '"' || c == '\\' || c == 'x'
    ensures c == '"' || c == '\\' ==> r == Continue(Normal, Some(c))
  {
    if c == '"' || c == '\\' then Continue(Normal, Some(c))
    else if c == 'x' then Continue(EscapedHexadecimal, None)
    else Failure(UnknownEscape)
  }

  /** `scan_escaped_hex`: the first hex digit is remembered. */
  function ScanEscapedHex(c: char): (r: Step)
    ensures r.Continue? <==> IsHexDigit(c)
    ensures r.Continue? ==> r == Continue(EscapedHexadecimal1(c), None)
  {
    if IsHexDigit(c) then Continue(EscapedHexadecimal1(c), None) else Failure(UnknownHexadecimal)
  }

  /** `scan_escaped_hex1`: the second hex digit completes the escape, which
      stands for the character with code 16 * first + second. */
  function ScanEscapedHex1(c: char, digit: char): (r: Step)
    ensures r.Continue? <==> IsHexDigit(c)
    ensures r.Continue? && IsHexDigit(digit) ==>
      r == Continue(Normal, Some((16 * HexValue(digit) + HexValue(c)) as char))
  {
    if IsHexDigit(c) then
      Continue(Normal, if IsHexDigit(digit) then Some((16 * HexValue(digit) + HexValue(c)) as char) else None)
    else Failure(UnknownHexadecimal)
  }

  /** One step of the scanner from `state`. */
  function Scan(state: ParseState, c: char): Step
  {
    match state
    case NoString => ScanNoString(c)
    case Normal => ScanNormal(c)
    case Escaped => ScanEscaped(c)
    case EscapedHexadecimal => ScanEscapedHex(c)
    case EscapedHexadecimal1(digit) => ScanEscapedHex1(c, digit)
  }

  /** `p` in front of a successful result; an error stays as it is. */
  function Prepend(p: string, r: ParseResult): ParseResult
  {
    if r.Ok? then Ok(p + r.value) else r
  }

  function Emitted(e: Option<char>): string
  {
    if e.Some? then [e.value] else ""
  }

  /** What `parse_string` gives for `input` when the scanner starts in
      `state`: the first error stops the scan, and is the result; otherwise
      the emitted characters in order. The final state is not checked, so
      an unterminated literal is accepted. */
  function ScanFrom(state: ParseState, input: string): (r: ParseResult)
    ensures r.Ok? ==> |r.value| <= |input|
    decreases |input|
  {
    if |input| == 0 then Ok("")
    else
      match Scan(state, input[0])
      case Failure(message) => Err(message)
      case Continue(next, emitted) => Prepend(Emitted(emitted), ScanFrom(next, input[1..]))
  }

  lemma PrependTwice(p: string, q: string, r: ParseResult)
    ensures Prepend(p, Prepend(q, r)) == Prepend(p + q, r)
  {
  }

  /** `parse_string`: the scan with its mutable state and error variable.
      It computes exactly `ScanFrom(NoString, input)`. */
  method ParseString(input: string) returns (r: ParseResult)
    ensures r == ScanFrom(NoString, input)
  {
    var state := NoString;
    var error: Option<string> := None;
    var parsed := "";
    var i := 0;
    while i < |input| && error.None?
      invariant 0 <= i <= |input|
      invariant error.None? ==> ScanFrom(NoString, input) == Prepend(parsed, ScanFrom(state, input[i..]))
      invariant error.Some? ==> ScanFrom(NoString, input) == Err(error.value)
      decreases |input| - i
    {
      var c := input[i];
      assert input[i..][0] == c && input[i..][1..] == input[i + 1..];
      var step := Scan(state, c);
      if step.Failure? {
        error := Some(step.message);
      } else {
        PrependTwice(parsed, Emitted(step.emitted), ScanFrom(step.state, input[i + 1..]));
        state := step.state;
        parsed := parsed + Emitted(step.emitted);
      }
      i := i + 1;
    }
    if error.Some? {
      r := Err(error.value);
    } else {
      assert input[i..] == "";
      assert parsed + "" == parsed;
      r := Ok(parsed);
    }
  }

  predicate NeedsEscape(c: char)
  {
    c == '\\' || c == '"'
  }

  /** One character written inside a literal. */
  function EncodeChar(c: char): (s: string)
    ensures NeedsEscape(c) ==> s == ['\\', c]
    ensures !NeedsEscape(c) ==> s == [c]
  {
    if NeedsEscape(c) then ['\\', c] else [c]
  }

  /** The inside of the literal: every character written in turn. */
  function EncodeBody(s: string): string
  {
    if |s| == 0 then "" else EncodeChar(s[0]) + EncodeBody(s[1..])
  }

  /** `encode_string`: the input between quotes with every backslash and
      quote escaped. */
  function EncodeString(s: string): (r: string)
    ensures |r| >= 2 && r[0] == '"' && r[|r| - 1] == '"'
  {
    "\"" + EncodeBody(s) + "\""
  }

  /** How many characters need an escape. */
  function EscapeCount(s: string): (n: nat)
    ensures n <= |s|
  {
    if |s| == 0 then 0 else (if NeedsEscape(s[0]) then 1 else 0) + EscapeCount(s[1..])
  }

  /** Each character grows by one exactly when it needs an escape. */
  lemma {:induction false} EncodeBodyLength(s: string)
    ensures |EncodeBody(s)| == |s| + EscapeCount(s)
  {
    if |s| > 0 {
      EncodeBodyLength(s[1..]);
    }
  }

  /** The encoded literal is longer by two quotes and one backslash per
      escaped character. */
  lemma EncodeLength(s: string)
    ensures |EncodeString(s)| == |s| + 2 + EscapeCount(s)
  {
    EncodeBodyLength(s);
  }

  /** Inside a literal, a character without escape stands for itself. */
  lemma ScanPlain(c: char, rest: string)
    requires !NeedsEscape(c)
    ensures ScanFrom(Normal, [c] + rest) == Prepend([c], ScanFrom(Normal, rest))
  {
    assert ([c] + rest)[1..] == rest;
  }

  /** Inside a literal, `\` and `"` stand for the escaped character. */
  lemma ScanEscape(c: char, rest: string)
    requires NeedsEscape(c)
    ensures ScanFrom(Normal, ['\\', c] + rest) == Prepend([c], ScanFrom(Normal, rest))
  {
    var t := ['\\', c] + rest;
    assert t[1..] == [c] + rest;
    assert ([c] + rest)[1..] == rest;
    assert ScanFrom(Normal, t) == ScanFrom(Escaped, [c] + rest);
  }

  /** A quote closes the literal without emitting anything. */
  lemma ScanClose(rest: string)
    ensures ScanFrom(Normal, "\"" + rest) == ScanFrom(NoString, rest)
  {
    assert ("\"" + rest)[1..] == rest;
    var r := ScanFrom(NoString, rest);
    if r.Ok? {
      assert "" + r.value == r.value;
    }
  }

  /** Scanning an encoded body and its closing quote inside a literal gives
      the string back and leaves the scanner outside the literal. */
  lemma {:induction false} ScanEncodedBody(s: string, rest: string)
    ensures ScanFrom(Normal, EncodeBody(s) + "\"" + rest) == Prepend(s, ScanFrom(NoString, rest))
  {
    if |s| == 0 {
      assert EncodeBody(s) + "\"" + rest == "\"" + rest;
      ScanClose(rest);
      var r := ScanFrom(NoString, rest);
      if r.Ok? {
        assert s + r.value == r.value;
      }
    } else {
      var c := s[0];
      var tail := EncodeBody(s[1..]) + "\"" + rest;
      ScanEncodedBody(s[1..], rest);
      assert EncodeBody(s) + "\"" + rest == EncodeChar(c) + tail;
      if NeedsEscape(c) {
        ScanEscape(c, tail);
      } else {
        ScanPlain(c, tail);
      }
      PrependTwice([c], s[1..], ScanFrom(NoString, rest));
      assert [c] + s[1..] == s;
    }
  }

  /** Parsing an encoded string gives the string back. */
  lemma ParseEncoded(s: string)
    ensures ScanFrom(NoString, EncodeString(s)) == Ok(s)
  {
    var t := EncodeString(s);
    ScanEncodedBody(s, "");
    assert t[1..] == EncodeBody(s) + "\"" + "";
    assert s + "" == s;
  }

  /** A hex escape stands for the character with code 16 * first + second. */
  lemma HexEscape(d1: char, d2: char, rest: string)
    requires IsHexDigit(d1) && IsHexDigit(d2)
    ensures ScanFrom(Normal, ['\\', 'x', d1, d2] + rest)
      == Prepend([(16 * HexValue(d1) + HexValue(d2)) as char], ScanFrom(Normal, rest))
  {
    var t := ['\\', 'x', d1, d2] + rest;
    var c := (16 * HexValue(d1) + HexValue(d2)) as char;
    assert t[1..] == ['x', d1, d2] + rest;
    assert t[1..][1..] == [d1, d2] + rest;
    assert t[1..][1..][1..] == [d2] + rest;
    assert t[1..][1..][1..][1..] == rest;
    assert ScanFrom(EscapedHexadecimal1(d1), [d2] + rest) == Prepend([c], ScanFrom(Normal, rest));
    assert ScanFrom(EscapedHexadecimal, [d1, d2] + rest) == ScanFrom(EscapedHexadecimal1(d1), [d2] + rest);
    assert ScanFrom(Escaped, ['x', d1, d2] + rest) == ScanFrom(EscapedHexadecimal, [d1, d2] + rest);
  }

  /** The successful cases of the parsing test. */
  lemma ParseEmpty()
    ensures ScanFrom(NoString, "\"\"") == Ok("")
  {
    ParseEncoded("");
  }

  lemma ParsePlain()
    ensures ScanFrom(NoString, "\"abc\"") == Ok("abc")
  {
    ParseEncoded("abc");
  }

  lemma ParseEscapedQuote()
    ensures ScanFrom(NoString, "\"aaa\\\"aaa\"") == Ok("aaa\"aaa")
  {
    EncodeBody3("aaa", "\"", "aaa");
    EncodeLetters();
    ParseEncoded("aaa" + "\"" + "aaa");
    QuoteInput();
    QuoteText();
  }

  lemma ParseEscapedBackslash()
    ensures ScanFrom(NoString, "\"aaa\\\\aaa\"") == Ok("aaa\\aaa")
  {
    EncodeBody3("aaa", "\\", "aaa");
    EncodeLetters();
    ParseEncoded("aaa" + "\\" + "aaa");
    BackslashInput();
    BackslashText();
  }

  lemma ParseHexEscape()
    ensures ScanFrom(NoString, "\"\\x27\"") == Ok("'")
  {
    HexEscape('2', '7', "\"");
  }

  /** The failing cases of the parsing test, each with its message. */
  lemma ParseFailures()
    ensures ScanFrom(NoString, "a") == Err(UnknownSymbol)
    ensures ScanFrom(NoString, "\"abc\"a") == Err(UnknownSymbol)
    ensures ScanFrom(NoString, "\"aaa\\aaa\"") == Err(UnknownEscape)
    ensures ScanFrom(NoString, "\"\\xg7\"") == Err(UnknownHexadecimal)
  {
    ParseUnknownStart();
    ParseTrailingSymbol();
    ParseUnknownEscape();
    ParseBadHexadecimal();
  }

  lemma ParseUnknownStart()
    ensures ScanFrom(NoString, "a") == Err(UnknownSymbol)
  {
  }

  lemma ParseTrailingSymbol()
    ensures ScanFrom(NoString, "\"abc\"a") == Err(UnknownSymbol)
  {
  }

  lemma ParseUnknownEscape()
    ensures ScanFrom(NoString, "\"aaa\\aaa\"") == Err(UnknownEscape)
  {
  }

  lemma ParseBadHexadecimal()
    ensures ScanFrom(NoString, "\"\\xg7\"") == Err(UnknownHexadecimal)
  {
  }

  /** The final state is not checked: an unterminated literal parses. */
  lemma UnterminatedAccepted()
    ensures ScanFrom(NoString, "\"abc") == Ok("abc")
  {
  }

  /** The encoding test. */
  lemma EncodeEmptyLiteral()
    ensures EncodeString("\"\"") == "\"\\\"\\\"\""
  {
  }

  lemma EncodePlainLiteral()
    ensures EncodeString("\"abc\"") == "\"\\\"abc\\\"\""
  {
  }

  lemma EncodeEscapedQuote()
    ensures EncodeString("\"aaa\\\"aaa\"") == "\"\\\"aaa\\\\\\\"aaa\\\"\""
  {
    EncodeBody3("\"aaa", "\\\"", "aaa\"");
    EncodeLetters();
    EncodedQuoteInput();
    EncodedQuoteText();
  }

  lemma EncodeEscapedBackslash()
    ensures EncodeString("\"aaa\\\\aaa\"") == "\"\\\"aaa\\\\\\\\aaa\\\"\""
  {
    EncodeBody3("\"aaa", "\\\\", "aaa\"");
    EncodeLetters();
    EncodedBackslashInput();
    EncodedBackslashText();
  }

  /** The escaping tests' strings, put together from their pieces. */
  lemma QuoteInput()
    ensures "aaa" + "\"" + "aaa" == "aaa\"aaa"
  {
  }

  lemma QuoteText()
    ensures "\"" + ("aaa" + "\\\"" + "aaa") + "\"" == "\"aaa\\\"aaa\""
  {
  }

  lemma BackslashInput()
    ensures "aaa" + "\\" + "aaa" == "aaa\\aaa"
  {
  }

  lemma BackslashText()
    ensures "\"" + ("aaa" + "\\\\" + "aaa") + "\"" == "\"aaa\\\\aaa\""
  {
  }

  lemma EncodedQuoteInput()
    ensures "\"aaa" + "\\\"" + "aaa\"" == "\"aaa\\\"aaa\""
  {
  }

  lemma EncodedQuoteText()
    ensures "\"" + ("\\\"aaa" + "\\\\\\\"" + "aaa\\\"") + "\"" == "\"\\\"aaa\\\\\\\"aaa\\\"\""
  {
  }

  lemma EncodedBackslashInput()
    ensures "\"aaa" + "\\\\" + "aaa\"" == "\"aaa\\\\aaa\""
  {
  }

  lemma EncodedBackslashText()
    ensures "\"" + ("\\\"aaa" + "\\\\\\\\" + "aaa\\\"") + "\"" == "\"\\\"aaa\\\\\\\\aaa\\\"\""
  {
  }

  /** Encoding works piece by piece. */
  lemma {:induction false} EncodeBodyAppend(a: string, b: string)
    ensures EncodeBody(a + b) == EncodeBody(a) + EncodeBody(b)
  {
    if |a| == 0 {
      assert a + b == b;
    } else {
      var x, y, z := EncodeChar(a[0]), EncodeBody(a[1..]), EncodeBody(b);
      EncodeBodyAppend(a[1..], b);
      EncodeBodyStep(a, b);
      assert x + (y + z) == x + y + z;
    }
  }

  lemma EncodeBodyStep(a: string, b: string)
    requires |a| > 0
    ensures EncodeBody(a + b) == EncodeChar(a[0]) + EncodeBody(a[1..] + b)
    ensures EncodeBody(a) == EncodeChar(a[0]) + EncodeBody(a[1..])
  {
    assert (a + b)[0] == a[0] && (a + b)[1..] == a[1..] + b;
  }

  lemma EncodeBody3(a: string, b: string, c: string)
    ensures EncodeBody(a + b + c) == EncodeBody(a) + EncodeBody(b) + EncodeBody(c)
  {
    EncodeBodyAppend(a + b, c);
    EncodeBodyAppend(a, b);
  }

  /** The pieces of the escaping tests. */
  lemma EncodeLetters()
    ensures EncodeBody("aaa") == "aaa"
    ensures EncodeBody("\"") == "\\\"" && EncodeBody("\\") == "\\\\"
    ensures EncodeBody("\\\"") == "\\\\\\\"" && EncodeBody("\\\\") == "\\\\\\\\"
    ensures EncodeBody("\"aaa") == "\\\"aaa" && EncodeBody("aaa\"") == "aaa\\\""
  {
    EncodeAaa();
    assert "\"aaa"[1..] == "aaa";
    assert "aaa\""[1..] == "aa\"";
    assert "aa\""[1..] == "a\"";
    assert "a\""[1..] == "\"";
  }

  lemma EncodeAaa()
    ensures EncodeBody("aaa") == "aaa"
  {
    assert "aaa"[1..] == "aa";
    assert "aa"[1..] == "a";
  }

  lemma EncodeHexEscape()
    ensures EncodeString("\"\\x27\"") == "\"\\\"\\\\x27\\\"\""
  {
  }
}
