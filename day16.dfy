/** Day 16 (day-16/src/main.rs): which Aunt Sue sent the gift. Each Sue
    lists some of her properties; the ticker tape gives a list of measured
    properties, and the first Sue whose known properties agree with the list
    is the one. */
module Day16 {
  import opened Wrappers
  import opened Strings

  /** A Sue and the properties remembered about her. */
  datatype Sue = Sue(properties: map<string, nat>)

  /** `HashMap::from_iter`: the pairs inserted in order, so a later pair
      replaces an earlier one with the same name. */
  function Collect(pairs: seq<(string, nat)>): (m: map<string, nat>)
    ensures m.Keys == set i | 0 <= i < |pairs| :: pairs[i].0
    ensures forall i :: 0 <= i < |pairs| && (forall j :: i < j < |pairs| ==> pairs[j].0 != pairs[i].0) ==>
      m[pairs[i].0] == pairs[i].1
  {
    if |pairs| == 0 then map[]
    else
      var last := pairs[|pairs| - 1];
      var init := pairs[..|pairs| - 1];
      assert forall i :: 0 <= i < |pairs| - 1 ==> init[i] == pairs[i];
      assert (set i | 0 <= i < |pairs| :: pairs[i].0) == (set i | 0 <= i < |init| :: init[i].0) + {last.0} by {
        assert forall i :: 0 <= i < |pairs| - 1 ==> pairs[i].0 == init[i].0;
      }
      Collect(init)[last.0 := last.1]
  }

  /** `parse_property`: the text before the first ": " is the name and the
      text up to the next ": " the value; a missing value or one that is not
      a `usize` panics. */
  function ParseProperty(text: string): (r: Option<(string, nat)>)
    ensures r.Some? ==> FindSubstring(r.value.0, ": ") == None
  {
    var pieces := SplitOn(text, ": ");
    if |pieces| < 2 then None
    else
      match ParseUsize(pieces[1])
      case None => None
      case Some(v) => Some((pieces[0], v))
  }

  /** Every item parsed, or `None` if one of them panics. */
  function ParseProperties(items: seq<string>): Option<seq<(string, nat)>>
  {
    CollectAll(ParseProperty, items)
  }

  /** `Sue::parse`: skip up to the first ": ", split the rest at ", " and
      parse every piece as a property. */
  function ParseSue(line: string): Option<Sue>
  {
    match FindSubstring(line, ": ")
    case None => None
    case Some(index) =>
      match ParseProperties(SplitOn(line[index + 2..], ", "))
      case None => None
      case Some(pairs) => Some(Sue(Collect(pairs)))
  }

  /** `parse_property_list`: one property per line. */
  function ParsePropertyList(lines: seq<string>): Option<map<string, nat>>
  {
    match ParseProperties(lines)
    case None => None
    case Some(pairs) => Some(Collect(pairs))
  }

  /** Part 1: every remembered property that the list also measures has the
      measured value; properties the list does not mention do not matter. */
  predicate MatchesPart1(sue: Sue, list: map<string, nat>)
  {
    forall p :: p in sue.properties && p in list ==> sue.properties[p] == list[p]
  }

  /** Part 2's comparison of a Sue's value against the measured one. */
  predicate Agrees(property: string, sueValue: nat, measured: nat)
  {
    if property == "cats" || property == "trees" then sueValue > measured
    else if property == "pomeranians" || property == "goldfish" then sueValue < measured
    else sueValue == measured
  }

  predicate MatchesPart2(sue: Sue, list: map<string, nat>)
  {
    forall p :: p in sue.properties && p in list ==> Agrees(p, sue.properties[p], list[p])
  }

  predicate Matches(sue: Sue, list: map<string, nat>, part2: bool)
  {
    if part2 then MatchesPart2(sue, list) else MatchesPart1(sue, list)
  }

  /** `find_sue_part1` / `find_sue_part2`: the 1-based number of the first
      matching Sue. */
  function FindSue(sues: seq<Sue>, list: map<string, nat>, part2: bool): (r: Option<nat>)
    ensures r.Some? ==> (1 <= r.value <= |sues| && Matches(sues[r.value - 1], list, part2) &&
      forall i :: 0 <= i < r.value - 1 ==> !Matches(sues[i], list, part2))
    ensures r.None? <==> forall i :: 0 <= i < |sues| ==> !Matches(sues[i], list, part2)
  {
    if |sues| == 0 then None
    else if Matches(sues[0], list, part2) then Some(1)
    else
      match FindSue(sues[1..], list, part2)
      case None =>
        assert forall i :: 1 <= i < |sues| ==> sues[i] == sues[1..][i - 1];
        None
      case Some(k) =>
        assert forall i :: 1 <= i < |sues| ==> sues[i] == sues[1..][i - 1];
        Some(k + 1)
  }

  /** A Sue who shares no property with the list matches in both parts. */
  lemma NothingShared(sue: Sue, list: map<string, nat>)
    requires sue.properties.Keys !! list.Keys
    ensures MatchesPart1(sue, list) && MatchesPart2(sue, list)
  {
  }

  /** The ranges of part 2 change nothing for a Sue who remembers none of
      cats, trees, pomeranians and goldfish. */
  lemma PlainPropertiesAgree(sue: Sue, list: map<string, nat>)
    requires forall p :: p in sue.properties ==> p !in {"cats", "trees", "pomeranians", "goldfish"}
    ensures MatchesPart2(sue, list) <==> MatchesPart1(sue, list)
  {
  }

  /** Forgetting properties keeps a match. */
  lemma ForgetKeepsMatch(sue: Sue, fewer: Sue, list: map<string, nat>, part2: bool)
    requires fewer.properties.Keys <= sue.properties.Keys
    requires forall p :: p in fewer.properties ==> fewer.properties[p] == sue.properties[p]
    requires Matches(sue, list, part2)
    ensures Matches(fewer, list, part2)
  {
  }

  /** The text of one property. */
  function PropertyText(property: (string, nat)): string
  {
    property.0 + ": " + Decimal(property.1)
  }

  /** The texts of the properties, one per item. */
  function Items(properties: seq<(string, nat)>): (items: seq<string>)
    ensures |items| == |properties|
  {
    seq(|properties|, k requires 0 <= k < |properties| => PropertyText(properties[k]))
  }

  /** The measured list: lines written as "name: value" parse to the map of
      those properties, the last line winning for a repeated name. */
  lemma PropertyListRoundTrip(properties: seq<(string, nat)>)
    requires forall i :: 0 <= i < |properties| ==> PlainName(properties[i].0) && properties[i].1 <= UsizeMax
    ensures ParsePropertyList(Items(properties)) == Some(Collect(properties))
  {
    ItemsParse(properties);
  }

  /** The measured list fails to parse exactly when one of its lines does. */
  lemma PropertyListFails(lines: seq<string>)
    ensures ParsePropertyList(lines).None? <==> exists i :: 0 <= i < |lines| && ParseProperty(lines[i]).None?
  {
    if ParsePropertyList(lines).None? {
      var i := CollectAllFailure(ParseProperty, lines);
    } else {
      CollectAllSound(ParseProperty, lines);
    }
  }

  /** A line of the input: a Sue's number and her properties. */
  function SueLine(number: nat, properties: seq<(string, nat)>): string
    requires |properties| >= 1
  {
    "Sue " + Decimal(number) + ": " + JoinWith(Items(properties), ", ")
  }

  /** A name the line format can carry: neither separator occurs in it. */
  predicate PlainName(name: string)
  {
    FindSubstring(name, ": ") == None && FindSubstring(name, ", ") == None
  }

  lemma DigitsPlain(digits: string)
    requires AllDigits(digits)
    ensures ':' !in digits && ',' !in digits && ' ' !in digits
  {
  }

  lemma PropertyRoundTrip(property: (string, nat))
    requires PlainName(property.0) && property.1 <= UsizeMax
    ensures ParseProperty(PropertyText(property)) == Some(property)
  {
    var (name, value) := property;
    var digits := Decimal(value);
    DigitsPlain(digits);
    Absent(digits, ": ");
    FindSeparator(name, ": ", digits);
    var text := name + ": " + digits;
    assert text[..|name|] == name;
    assert text[|name| + 2..] == digits;
    assert SplitOn(text, ": ") == [name, digits];
    ParseUsizeDecimal(value);
  }

  lemma PropertyHasNoComma(property: (string, nat))
    requires PlainName(property.0)
    ensures FindSubstring(PropertyText(property), ", ") == None
  {
    var (name, value) := property;
    var digits := Decimal(value);
    DigitsPlain(digits);
    Absent(digits, ", ");
    Absent(": ", ", ");
    AbsentConcat(": ", digits, ", ");
    AbsentConcat(name, ": " + digits, ", ");
    assert name + (": " + digits) == PropertyText(property);
  }

  /** The items of plain properties parse back to the properties. */
  lemma ItemsParse(properties: seq<(string, nat)>)
    requires forall i :: 0 <= i < |properties| ==> PlainName(properties[i].0) && properties[i].1 <= UsizeMax
    ensures ParseProperties(Items(properties)) == Some(properties)
    ensures forall i :: 0 <= i < |properties| ==> FindSubstring(Items(properties)[i], ", ") == None
  {
    var items := Items(properties);
    forall i | 0 <= i < |properties|
      ensures ParseProperty(items[i]) == Some(properties[i])
      ensures FindSubstring(items[i], ", ") == None
    {
      PropertyRoundTrip(properties[i]);
      PropertyHasNoComma(properties[i]);
    }
    if ParseProperties(items).None? {
      var i := CollectAllFailure(ParseProperty, items);
    }
    CollectAllSound(ParseProperty, items);
    assert ParseProperties(items).value == properties;
  }

  /** The "Sue N" prefix holds no ": ", so the first one follows it. */
  lemma SkipPrefix(number: nat, rest: string)
    ensures FindSubstring("Sue " + Decimal(number) + ": " + rest, ": ") == Some(|"Sue " + Decimal(number)|)
    ensures ("Sue " + Decimal(number) + ": " + rest)[|"Sue " + Decimal(number)| + 2..] == rest
  {
    var prefix := "Sue " + Decimal(number);
    DigitsPlain(Decimal(number));
    assert ':' !in prefix;
    Absent(prefix, ": ");
    FindSeparator(prefix, ": ", rest);
  }

  /** Parsing a written line gives back the Sue with those properties. */
  lemma ParseSueLine(number: nat, properties: seq<(string, nat)>)
    requires |properties| >= 1
    requires forall i :: 0 <= i < |properties| ==> PlainName(properties[i].0) && properties[i].1 <= UsizeMax
    ensures ParseSue(SueLine(number, properties)) == Some(Sue(Collect(properties)))
  {
    var rest := JoinWith(Items(properties), ", ");
    SkipPrefix(number, rest);
    ItemsParse(properties);
    SplitOnJoin(Items(properties), ", ");
  }

  /** A line with nothing after its ": " panics on the missing value. */
  lemma EmptyListFails(number: nat)
    ensures ParseSue("Sue " + Decimal(number) + ": ").None?
  {
    var prefix := "Sue " + Decimal(number);
    SkipPrefix(number, "");
    assert prefix + ": " + "" == prefix + ": ";
    assert SplitOn("", ", ") == [""];
    assert SplitOn("", ": ") == [""];
  }

  /** The measured list of the tests, and the two Sues of the part 1
      tests. */
  const Measured := map["children" := 3, "cats" := 7, "vizslas" := 7, "cars" := 8]
  const Matching := Sue(map["children" := 3, "cars" := 8, "vizslas" := 7])
  const Differing := Sue(map["children" := 3, "cats" := 8, "vizslas" := 7])

  lemma Part1Examples()
    ensures MatchesPart1(Matching, Measured)
    ensures !MatchesPart1(Differing, Measured)
    ensures FindSue([Differing, Matching], Measured, false) == Some(2)
  {
    assert Differing.properties["cats"] != Measured["cats"];
  }

  /** The part 2 test: trees are a lower bound, so seven trees do not match
      seven measured trees, while the misspelt "tress" is not measured. */
  const MeasuredTrees := map["children" := 3, "trees" := 7, "vizslas" := 7, "cars" := 8]
  const WithTress := Sue(map["children" := 3, "cars" := 8, "tress" := 8])
  const WithTrees := Sue(map["children" := 3, "cars" := 8, "trees" := 7])

  lemma Part2Example()
    ensures !MatchesPart2(WithTrees, MeasuredTrees)
    ensures MatchesPart2(WithTress, MeasuredTrees)
    ensures FindSue([WithTrees, WithTress], MeasuredTrees, true) == Some(2)
  {
    assert !Agrees("trees", WithTrees.properties["trees"], MeasuredTrees["trees"]);
    assert "tress" != "trees" by {
      assert "tress"[3] != "trees"[3];
    }
  }

  lemma ExampleNamesPlain(props: seq<(string, nat)>)
    requires props == [("children", 3), ("cars", 8), ("vizslas", 7)]
    ensures forall i :: 0 <= i < |props| ==> PlainName(props[i].0) && props[i].1 <= UsizeMax
  {
    forall i | 0 <= i < |props|
      ensures PlainName(props[i].0)
    {
      Absent(props[i].0, ": ");
      Absent(props[i].0, ", ");
    }
  }

  lemma ExampleCollect(props: seq<(string, nat)>)
    requires props == [("children", 3), ("cars", 8), ("vizslas", 7)]
    ensures Collect(props) == Matching.properties
  {
    assert Collect(props[..2]) == map["children" := 3, "cars" := 8];
  }

  /** The test line of the matching Sue is what the line format writes for
      her, so it parses to her. */
  lemma ParseExampleLine(props: seq<(string, nat)>)
    requires props == [("children", 3), ("cars", 8), ("vizslas", 7)]
    ensures ParseSue(SueLine(1, props)) == Some(Matching)
  {
    ExampleNamesPlain(props);
    ParseSueLine(1, props);
    ExampleCollect(props);
  }
}
