/** Day 6 (day-6/src/main.rs): a 1000 x 1000 grid of lights, stored row by
    row in one vector of 1,000,000 cells, is driven by instructions such as
    "turn on 0,0 through 999,999". Binary lights are switched on, off or
    flipped; dimmable lights gain 1, lose 1 (never going below 0) or gain 2. */
module Day6 {
  import opened Wrappers
  import opened Strings

  datatype Operation = Toggle | TurnOff | TurnOn

  /** A rectangle of cells, both corners included, and what to do to it. */
  datatype Instruction = Instruction(operation: Operation, min: (nat, nat), max: (nat, nat))

  /** Cells per row. */
  const Width: nat := 1000

  /** Cells in the grid. */
  const GridSize: nat := 1_000_000

  /** `parse_coordinate`: "x,y"; None where the source panics (no comma, or a
      side that is not a `usize`). */
  function ParseCoordinate(pair: string): Option<(nat, nat)>
  {
    match Find(pair, ',')
    case None => None
    case Some(index) =>
      match (ParseUsize(pair[..index]), ParseUsize(pair[index + 1..]))
      case (Some(x), Some(y)) => Some((x, y))
      case _ => None
  }

  /** `parse`: the first word is "turn" followed by "on" (any other second
      word means off), or any other word, which means toggle; then the first
      corner, one word that is skipped, and the second corner. None where the
      source panics on a missing word or a bad coordinate. */
  function Parse(line: string): Option<Instruction>
  {
    ParseWords(Words(line))
  }

  /** `Parse` once the line is split into words. */
  function ParseWords(words: seq<string>): Option<Instruction>
  {
    var first := if IsTurn(words) then 2 else 1;
    if |words| < first + 3 then None
    else
      match (ParseCoordinate(words[first]), ParseCoordinate(words[first + 2]))
      case (Some(min), Some(max)) => Some(Instruction(OperationOf(words), min, max))
      case _ => None
  }

  predicate IsTurn(words: seq<string>)
  {
    |words| > 0 && words[0] == "turn"
  }

  /** "turn on" switches on, "turn" with any other second word switches off,
      any other first word toggles. */
  function OperationOf(words: seq<string>): Operation
    requires |words| >= 2
  {
    if !IsTurn(words) then Toggle else if words[1] == "on" then TurnOn else TurnOff
  }

  /** The words that name an operation in the input. */
  function OperationWords(op: Operation): seq<string>
  {
    match op
    case TurnOn => ["turn", "on"]
    case TurnOff => ["turn", "off"]
    case Toggle => ["toggle"]
  }

  function FormatCoordinate(p: (nat, nat)): string
  {
    Decimal(p.0) + "," + Decimal(p.1)
  }

  /** An instruction written the way the puzzle input writes it. */
  function Format(instruction: Instruction): string
  {
    Unwords(OperationWords(instruction.operation)
            + [FormatCoordinate(instruction.min), "through", FormatCoordinate(instruction.max)])
  }

  /** A coordinate survives printing and parsing. */
  lemma CoordinateRoundTrip(p: (nat, nat))
    requires p.0 <= UsizeMax && p.1 <= UsizeMax
    ensures ParseCoordinate(FormatCoordinate(p)) == Some(p)
  {
    var s := FormatCoordinate(p);
    assert ',' !in Decimal(p.0) by {
      assert AllDigits(Decimal(p.0));
    }
    FindAfter(Decimal(p.0), ',', Decimal(p.1));
    assert s[..|Decimal(p.0)|] == Decimal(p.0);
    assert s[|Decimal(p.0)| + 1..] == Decimal(p.1);
    ParseUsizeDecimal(p.0);
    ParseUsizeDecimal(p.1);
  }

  lemma FormattedCoordinateIsWord(p: (nat, nat))
    ensures |FormatCoordinate(p)| > 0 && NoWhitespace(FormatCoordinate(p))
  {
    var s := FormatCoordinate(p);
    forall i | 0 <= i < |s|
      ensures !IsWhitespace(s[i])
    {
      if i < |Decimal(p.0)| {
        assert s[i] == Decimal(p.0)[i];
      } else if i > |Decimal(p.0)| {
        assert s[i] == Decimal(p.1)[i - |Decimal(p.0)| - 1];
      }
    }
  }

  /** Every instruction survives printing and parsing: `Parse` reads back
      what `Format` writes. */
  lemma ParseFormat(instruction: Instruction)
    requires instruction.min.0 <= UsizeMax && instruction.min.1 <= UsizeMax
    requires instruction.max.0 <= UsizeMax && instruction.max.1 <= UsizeMax
    ensures Parse(Format(instruction)) == Some(instruction)
  {
    FormatWords(instruction);
    ParseFromWords(instruction, Format(instruction));
  }

  /** The words of an instruction as `Format` joins them. */
  function InstructionWords(instruction: Instruction): seq<string>
  {
    OperationWords(instruction.operation)
      + [FormatCoordinate(instruction.min), "through", FormatCoordinate(instruction.max)]
  }

  lemma FormatWords(instruction: Instruction)
    ensures Words(Format(instruction)) == InstructionWords(instruction)
  {
    var ws := InstructionWords(instruction);
    assert Format(instruction) == Unwords(ws);
    FormattedCoordinateIsWord(instruction.min);
    FormattedCoordinateIsWord(instruction.max);
    forall i | 0 <= i < |ws|
      ensures |ws[i]| > 0 && NoWhitespace(ws[i])
    {
    }
    WordsUnwords(ws);
  }

  lemma ParseFromWords(instruction: Instruction, line: string)
    requires instruction.min.0 <= UsizeMax && instruction.min.1 <= UsizeMax
    requires instruction.max.0 <= UsizeMax && instruction.max.1 <= UsizeMax
    requires Words(line) == InstructionWords(instruction)
    ensures Parse(line) == Some(instruction)
  {
    var a := FormatCoordinate(instruction.min);
    var b := FormatCoordinate(instruction.max);
    CoordinateRoundTrip(instruction.min);
    CoordinateRoundTrip(instruction.max);
    ParseOperationWords(instruction.operation, a, b, instruction.min, instruction.max);
  }

  lemma ParseOperationWords(op: Operation, a: string, b: string, min: (nat, nat), max: (nat, nat))
    requires ParseCoordinate(a) == Some(min) && ParseCoordinate(b) == Some(max)
    ensures ParseWords(OperationWords(op) + [a, "through", b]) == Some(Instruction(op, min, max))
  {
    var ws := OperationWords(op) + [a, "through", b];
    var first := |OperationWords(op)|;
    OperationWordsRead(op, a, b);
    assert first == if IsTurn(ws) then 2 else 1;
    assert ws[first] == a && ws[first + 2] == b;
  }

  /** The operation words are read back as their operation. */
  lemma OperationWordsRead(op: Operation, a: string, b: string)
    ensures var ws := OperationWords(op) + [a, "through", b];
      && IsTurn(ws) == (op != Toggle)
      && OperationOf(ws) == op
  {
    var ws := OperationWords(op) + [a, "through", b];
    match op
    case Toggle =>
      assert ws[0] == "toggle" && ws[0][1] == 'o' && "turn"[1] == 'u';
    case TurnOn =>
      assert ws[0] == "turn" && ws[1] == "on";
    case TurnOff =>
      assert ws[0] == "turn" && ws[1] == "off" && ws[1][1] == 'f' && "on"[1] == 'n';
  }

  /** The three instructions of the parsing test. */
  lemma ParseExamples()
    ensures Parse("turn on 0,0 through 999,999") == Some(Instruction(TurnOn, (0, 0), (999, 999)))
    ensures Parse("toggle 0,0 through 999,0") == Some(Instruction(Toggle, (0, 0), (999, 0)))
    ensures Parse("turn off 499,499 through 500,500") == Some(Instruction(TurnOff, (499, 499), (500, 500)))
  {
    ParseTurnOnExample();
    ParseToggleExample();
    ParseTurnOffExample();
  }

  lemma ParseTurnOnExample()
    ensures Parse("turn on 0,0 through 999,999") == Some(Instruction(TurnOn, (0, 0), (999, 999)))
  {
    CoordinateExamples();
    assert OperationWords(TurnOn) + ["0,0", "through", "999,999"] == ["turn", "on", "0,0", "through", "999,999"];
    TurnOnWords();
    ParseExample(Instruction(TurnOn, (0, 0), (999, 999)), "turn on 0,0 through 999,999", "0,0", "999,999");
  }

  lemma ParseToggleExample()
    ensures Parse("toggle 0,0 through 999,0") == Some(Instruction(Toggle, (0, 0), (999, 0)))
  {
    CoordinateExamples();
    assert OperationWords(Toggle) + ["0,0", "through", "999,0"] == ["toggle", "0,0", "through", "999,0"];
    ToggleWords();
    ParseExample(Instruction(Toggle, (0, 0), (999, 0)), "toggle 0,0 through 999,0", "0,0", "999,0");
  }

  lemma ParseTurnOffExample()
    ensures Parse("turn off 499,499 through 500,500") == Some(Instruction(TurnOff, (499, 499), (500, 500)))
  {
    CoordinateExamples();
    assert OperationWords(TurnOff) + ["499,499", "through", "500,500"] == ["turn", "off", "499,499", "through", "500,500"];
    TurnOffWords();
    ParseExample(Instruction(TurnOff, (499, 499), (500, 500)), "turn off 499,499 through 500,500", "499,499", "500,500");
  }

  lemma CoordinateExamples()
    ensures FormatCoordinate((0, 0)) == "0,0" && FormatCoordinate((999, 999)) == "999,999"
    ensures FormatCoordinate((999, 0)) == "999,0"
    ensures FormatCoordinate((499, 499)) == "499,499" && FormatCoordinate((500, 500)) == "500,500"
  {
    DecimalZero();
    Decimal999();
    Decimal499();
    Decimal500();
  }

  lemma DecimalZero()
    ensures Decimal(0) == "0"
  {
  }

  lemma Decimal999()
    ensures Decimal(999) == "999"
  {
  }

  lemma Decimal499()
    ensures Decimal(499) == "499"
  {
  }

  lemma Decimal500()
    ensures Decimal(500) == "500"
  {
  }

  /** The words of the second parsing test, joined. */
  lemma ToggleWords()
    ensures Unwords(["toggle", "0,0", "through", "999,0"]) == "toggle 0,0 through 999,0"
  {
    ToggleWords1();
    assert ["toggle", "0,0", "through", "999,0"][1..] == ["0,0", "through", "999,0"];
    assert "toggle" + " " + "0,0 through 999,0" == "toggle 0,0 through 999,0";
  }

  lemma ToggleWords1()
    ensures Unwords(["0,0", "through", "999,0"]) == "0,0 through 999,0"
  {
    ToggleWords2();
    assert ["0,0", "through", "999,0"][1..] == ["through", "999,0"];
    assert "0,0" + " " + "through 999,0" == "0,0 through 999,0";
  }

  lemma ToggleWords2()
    ensures Unwords(["through", "999,0"]) == "through 999,0"
  {
  }

  /** The words of the first parsing test, joined. */
  lemma TurnOnWords()
    ensures Unwords(["turn", "on", "0,0", "through", "999,999"]) == "turn on 0,0 through 999,999"
  {
    TurnOnWords1();
    assert ["turn", "on", "0,0", "through", "999,999"][1..] == ["on", "0,0", "through", "999,999"];
    assert "turn" + " " + "on 0,0 through 999,999" == "turn on 0,0 through 999,999";
  }

  lemma TurnOnWords1()
    ensures Unwords(["on", "0,0", "through", "999,999"]) == "on 0,0 through 999,999"
  {
    TurnOnWords2();
    assert ["on", "0,0", "through", "999,999"][1..] == ["0,0", "through", "999,999"];
    assert "on" + " " + "0,0 through 999,999" == "on 0,0 through 999,999";
  }

  lemma TurnOnWords2()
    ensures Unwords(["0,0", "through", "999,999"]) == "0,0 through 999,999"
  {
    TurnOnWords3();
    assert ["0,0", "through", "999,999"][1..] == ["through", "999,999"];
    assert "0,0" + " " + "through 999,999" == "0,0 through 999,999";
  }

  lemma TurnOnWords3()
    ensures Unwords(["through", "999,999"]) == "through 999,999"
  {
  }

  /** The words of the third parsing test, joined. */
  lemma TurnOffWords()
    ensures Unwords(["turn", "off", "499,499", "through", "500,500"]) == "turn off 499,499 through 500,500"
  {
    TurnOffWords1();
    assert ["turn", "off", "499,499", "through", "500,500"][1..] == ["off", "499,499", "through", "500,500"];
    assert "turn" + " " + "off 499,499 through 500,500" == "turn off 499,499 through 500,500";
  }

  lemma TurnOffWords1()
    ensures Unwords(["off", "499,499", "through", "500,500"]) == "off 499,499 through 500,500"
  {
    TurnOffWords2();
    assert ["off", "499,499", "through", "500,500"][1..] == ["499,499", "through", "500,500"];
    assert "off" + " " + "499,499 through 500,500" == "off 499,499 through 500,500";
  }

  lemma TurnOffWords2()
    ensures Unwords(["499,499", "through", "500,500"]) == "499,499 through 500,500"
  {
    TurnOffWords3();
    assert ["499,499", "through", "500,500"][1..] == ["through", "500,500"];
    assert "499,499" + " " + "through 500,500" == "499,499 through 500,500";
  }

  lemma TurnOffWords3()
    ensures Unwords(["through", "500,500"]) == "through 500,500"
  {
  }

  lemma ParseExample(instruction: Instruction, line: string, min: string, max: string)
    requires instruction.min.0 < 1000 && instruction.min.1 < 1000
    requires instruction.max.0 < 1000 && instruction.max.1 < 1000
    requires FormatCoordinate(instruction.min) == min && FormatCoordinate(instruction.max) == max
    requires line == Unwords(OperationWords(instruction.operation) + [min, "through", max])
    ensures Parse(line) == Some(instruction)
  {
    ParseFormat(instruction);
  }

  /** The row (first coordinate) of a cell index. */
  function RowOf(i: nat): nat
  {
    i / Width
  }

  /** The column (second coordinate) of a cell index. */
  function ColumnOf(i: nat): nat
  {
    i % Width
  }

  /** The source stores cell `(y, x)` at `x + 1000 * y`. */
  lemma IndexCoordinates(y: nat, x: nat)
    requires x < Width
    ensures RowOf(x + Width * y) == y && ColumnOf(x + Width * y) == x
  {
  }

  /** Cell `i` lies in the instruction's rectangle. */
  predicate InRectangle(instruction: Instruction, i: nat)
  {
    && instruction.min.0 <= RowOf(i) <= instruction.max.0
    && instruction.min.1 <= ColumnOf(i) <= instruction.max.1
  }

  /** The source indexes the vector with `x + 1000 * y` and panics past its
      end; a rectangle with both coordinates below 1000 stays inside. */
  predicate InGrid(instruction: Instruction)
  {
    (instruction.min.0 <= instruction.max.0 && instruction.min.1 <= instruction.max.1)
    ==> instruction.max.0 < Width && instruction.max.1 < Width
  }

  /** What a binary instruction does to one light. */
  function Switch(op: Operation, on: bool): (r: bool)
    ensures op == TurnOn ==> r
    ensures op == TurnOff ==> !r
    ensures op == Toggle ==> r != on
  {
    match op
    case TurnOn => true
    case TurnOff => false
    case Toggle => !on
  }

  /** What a dimmable instruction does to one light: +1, -1 or +2, and
      never below 0. */
  function Dim(op: Operation, level: int): (r: int)
    ensures r >= 0
    ensures level >= 0 && op == TurnOn ==> r == level + 1
    ensures level >= 0 && op == Toggle ==> r == level + 2
    ensures level >= 0 && op == TurnOff ==> r == if level == 0 then 0 else level - 1
  {
    Max(0, level + match op
                   case TurnOn => 1
                   case TurnOff => -1
                   case Toggle => 2)
  }

  /** The binary grid after an instruction. */
  function Switched(grid: seq<bool>, instruction: Instruction): (r: seq<bool>)
    ensures |r| == |grid|
  {
    seq(|grid|, i requires 0 <= i < |grid| =>
      if InRectangle(instruction, i) then Switch(instruction.operation, grid[i]) else grid[i])
  }

  /** The dimmable grid after an instruction. */
  function Dimmed(grid: seq<int>, instruction: Instruction): (r: seq<int>)
    ensures |r| == |grid|
  {
    seq(|grid|, i requires 0 <= i < |grid| =>
      if InRectangle(instruction, i) then Dim(instruction.operation, grid[i]) else grid[i])
  }

  /** The binary grid after a list of instructions, first to last. */
  function SwitchedAll(grid: seq<bool>, instructions: seq<Instruction>): (r: seq<bool>)
    ensures |r| == |grid|
    decreases |instructions|
  {
    if |instructions| == 0 then grid
    else SwitchedAll(Switched(grid, instructions[0]), instructions[1..])
  }

  /** The dimmable grid after a list of instructions, first to last. */
  function DimmedAll(grid: seq<int>, instructions: seq<Instruction>): (r: seq<int>)
    ensures |r| == |grid|
    decreases |instructions|
  {
    if |instructions| == 0 then grid
    else DimmedAll(Dimmed(grid, instructions[0]), instructions[1..])
  }

  /** Lights outside the rectangle are untouched; inside, "turn on" lights
      them, "turn off" darkens them and "toggle" flips them. */
  lemma SwitchedCells(grid: seq<bool>, instruction: Instruction, i: nat)
    requires i < |grid|
    ensures !InRectangle(instruction, i) ==> Switched(grid, instruction)[i] == grid[i]
    ensures InRectangle(instruction, i) && instruction.operation == TurnOn ==> Switched(grid, instruction)[i]
    ensures InRectangle(instruction, i) && instruction.operation == TurnOff ==> !Switched(grid, instruction)[i]
    ensures InRectangle(instruction, i) && instruction.operation == Toggle ==> Switched(grid, instruction)[i] == !grid[i]
  {
  }

  /** Toggling the same rectangle twice restores the grid. */
  lemma ToggleTwice(grid: seq<bool>, instruction: Instruction)
    requires instruction.operation == Toggle
    ensures Switched(Switched(grid, instruction), instruction) == grid
  {
  }

  /** Turning a rectangle on (or off) twice is turning it on (or off) once. */
  lemma SwitchTwice(grid: seq<bool>, instruction: Instruction)
    requires instruction.operation != Toggle
    ensures Switched(Switched(grid, instruction), instruction) == Switched(grid, instruction)
  {
  }

  predicate NonNegative(grid: seq<int>)
  {
    forall i :: 0 <= i < |grid| ==> grid[i] >= 0
  }

  /** Brightness is never negative: instructions keep a non-negative grid
      non-negative. */
  lemma {:induction false} DimmedAllNonNegative(grid: seq<int>, instructions: seq<Instruction>)
    requires NonNegative(grid)
    ensures NonNegative(DimmedAll(grid, instructions))
    decreases |instructions|
  {
    if |instructions| > 0 {
      DimmedAllNonNegative(Dimmed(grid, instructions[0]), instructions[1..]);
    }
  }

  class BinaryLights {
    const lights: array<bool>

    /** `BinaryLights::new`: every light off. */
    constructor ()
      ensures fresh(lights) && lights.Length == GridSize
      ensures forall i :: 0 <= i < GridSize ==> !lights[i]
    {
      lights := new bool[GridSize](i => false);
    }

    /** `apply_instruction`: row by row, column by column, every cell of the
        rectangle is switched. */
    method ApplyInstruction(instruction: Instruction)
      requires lights.Length == GridSize && InGrid(instruction)
      modifies lights
      ensures lights[..] == Switched(old(lights[..]), instruction)
    {
      ghost var before := lights[..];
      var op := instruction.operation;
      var y := instruction.min.0;
      while y <= instruction.max.0
        invariant instruction.min.0 <= y
        invariant instruction.min.0 <= instruction.max.0 ==> y <= instruction.max.0 + 1
        invariant forall i :: 0 <= i < GridSize ==>
          lights[i] == if InRectangle(instruction, i) && RowOf(i) < y then Switch(op, before[i]) else before[i]
      {
        var x := instruction.min.1;
        while x <= instruction.max.1
          invariant instruction.min.1 <= x
          invariant instruction.min.1 <= instruction.max.1 ==> x <= instruction.max.1 + 1
          invariant forall i :: 0 <= i < GridSize ==>
            lights[i] == if InRectangle(instruction, i) && (RowOf(i) < y || (RowOf(i) == y && ColumnOf(i) < x))
              then Switch(op, before[i]) else before[i]
        {
          IndexCoordinates(y, x);
          lights[x + Width * y] := Switch(op, lights[x + Width * y]);
          x := x + 1;
        }
        y := y + 1;
      }
      assert lights[..] == Switched(before, instruction);
    }

    /** `apply_instructions`: each instruction in turn. */
    method ApplyInstructions(instructions: seq<Instruction>)
      requires lights.Length == GridSize
      requires forall k :: 0 <= k < |instructions| ==> InGrid(instructions[k])
      modifies lights
      ensures lights[..] == SwitchedAll(old(lights[..]), instructions)
    {
      for k := 0 to |instructions|
        invariant SwitchedAll(old(lights[..]), instructions) == SwitchedAll(lights[..], instructions[k..])
      {
        assert instructions[k..][1..] == instructions[k + 1..];
        ApplyInstruction(instructions[k]);
      }
    }

    /** `get_active_lights_count` */
    function ActiveLightsCount(): nat
      reads lights
    {
      CountOn(lights[..])
    }
  }

  class DimmableLights {
    const lights: array<int>

    /** `DimmableLights::new`: every light at brightness 0. */
    constructor ()
      ensures fresh(lights) && lights.Length == GridSize
      ensures forall i :: 0 <= i < GridSize ==> lights[i] == 0
    {
      lights := new int[GridSize](i => 0);
    }

    /** `apply_instruction`: row by row, column by column, every cell of the
        rectangle is dimmed. */
    method ApplyInstruction(instruction: Instruction)
      requires lights.Length == GridSize && InGrid(instruction)
      modifies lights
      ensures lights[..] == Dimmed(old(lights[..]), instruction)
    {
      ghost var before := lights[..];
      var op := instruction.operation;
      var y := instruction.min.0;
      while y <= instruction.max.0
        invariant instruction.min.0 <= y
        invariant instruction.min.0 <= instruction.max.0 ==> y <= instruction.max.0 + 1
        invariant forall i :: 0 <= i < GridSize ==>
          lights[i] == if InRectangle(instruction, i) && RowOf(i) < y then Dim(op, before[i]) else before[i]
      {
        var x := instruction.min.1;
        while x <= instruction.max.1
          invariant instruction.min.1 <= x
          invariant instruction.min.1 <= instruction.max.1 ==> x <= instruction.max.1 + 1
          invariant forall i :: 0 <= i < GridSize ==>
            lights[i] == if InRectangle(instruction, i) && (RowOf(i) < y || (RowOf(i) == y && ColumnOf(i) < x))
              then Dim(op, before[i]) else before[i]
        {
          IndexCoordinates(y, x);
          lights[x + Width * y] := Dim(op, lights[x + Width * y]);
          x := x + 1;
        }
        y := y + 1;
      }
      assert lights[..] == Dimmed(before, instruction);
    }

    /** `apply_instructions`: each instruction in turn. */
    method ApplyInstructions(instructions: seq<Instruction>)
      requires lights.Length == GridSize
      requires forall k :: 0 <= k < |instructions| ==> InGrid(instructions[k])
      modifies lights
      ensures lights[..] == DimmedAll(old(lights[..]), instructions)
    {
      for k := 0 to |instructions|
        invariant DimmedAll(old(lights[..]), instructions) == DimmedAll(lights[..], instructions[k..])
      {
        assert instructions[k..][1..] == instructions[k + 1..];
        ApplyInstruction(instructions[k]);
      }
    }

    /** `get_active_lights_count`: the total brightness. */
    function ActiveLightsCount(): int
      reads lights
    {
      Sum(lights[..])
    }
  }

  /** The number of lights that are on (`filter(..).count()`). */
  function CountOn(grid: seq<bool>): (n: nat)
    ensures n <= |grid|
  {
    if |grid| == 0 then 0 else CountOn(grid[..|grid| - 1]) + (if grid[|grid| - 1] then 1 else 0)
  }

  /** The total brightness (`fold(0, |a, l| a + l)`). */
  function Sum(grid: seq<int>): int
  {
    if |grid| == 0 then 0 else Sum(grid[..|grid| - 1]) + grid[|grid| - 1]
  }

  function Indicator(on: bool): nat
  {
    if on then 1 else 0
  }

  /** Counting two parts of a grid adds their counts. */
  lemma {:induction false} CountAppend(a: seq<bool>, b: seq<bool>)
    ensures CountOn(a + b) == CountOn(a) + CountOn(b)
    decreases |b|
  {
    if |b| == 0 {
      assert a + b == a;
    } else {
      CountAppend(a, b[..|b| - 1]);
      assert (a + b)[..|a + b| - 1] == a + b[..|b| - 1];
    }
  }

  /** Changing one light changes the count by what that light adds. */
  lemma {:induction false} CountUpdate(grid: seq<bool>, i: nat, on: bool)
    requires i < |grid|
    ensures CountOn(grid[i := on]) == CountOn(grid) - Indicator(grid[i]) + Indicator(on)
  {
    var n := |grid| - 1;
    if i == n {
      assert grid[i := on][..n] == grid[..n];
    } else {
      CountUpdate(grid[..n], i, on);
      assert grid[i := on][..n] == grid[..n][i := on];
    }
  }

  /** A grid with every light on counts all of them. */
  lemma {:induction false} CountAllOn(grid: seq<bool>)
    requires forall i :: 0 <= i < |grid| ==> grid[i]
    ensures CountOn(grid) == |grid|
  {
    if |grid| > 0 {
      CountAllOn(grid[..|grid| - 1]);
    }
  }

  /** `k` rows whose first light is off and all others on count 999 per row. */
  lemma {:induction false} CountRows(grid: seq<bool>, k: nat)
    requires |grid| == Width * k
    requires forall i :: 0 <= i < |grid| ==> grid[i] == (ColumnOf(i) != 0)
    ensures CountOn(grid) == (Width - 1) * k
  {
    if k > 0 {
      var m := Width * (k - 1);
      CountRows(grid[..m], k - 1);
      assert grid == grid[..m] + grid[m..];
      CountAppend(grid[..m], grid[m..]);
      LastRowCount(grid, k);
    }
  }

  lemma LastRowCount(grid: seq<bool>, k: nat)
    requires k > 0 && |grid| == Width * k
    requires forall i :: 0 <= i < |grid| ==> grid[i] == (ColumnOf(i) != 0)
    ensures CountOn(grid[Width * (k - 1)..]) == Width - 1
  {
    var row := grid[Width * (k - 1)..];
    forall j | 0 <= j < Width
      ensures row[j] == (j != 0)
    {
      IndexCoordinates(k - 1, j);
    }
    assert row == [false] + row[1..];
    CountAppend([false], row[1..]);
    CountAllOn(row[1..]);
  }

  /** Summing two parts of a grid adds their sums. */
  lemma {:induction false} SumAppend(a: seq<int>, b: seq<int>)
    ensures Sum(a + b) == Sum(a) + Sum(b)
    decreases |b|
  {
    if |b| == 0 {
      assert a + b == a;
    } else {
      SumAppend(a, b[..|b| - 1]);
      assert (a + b)[..|a + b| - 1] == a + b[..|b| - 1];
    }
  }

  /** Changing one light changes the sum by the difference. */
  lemma {:induction false} SumUpdate(grid: seq<int>, i: nat, level: int)
    requires i < |grid|
    ensures Sum(grid[i := level]) == Sum(grid) - grid[i] + level
  {
    var n := |grid| - 1;
    if i == n {
      assert grid[i := level][..n] == grid[..n];
    } else {
      SumUpdate(grid[..n], i, level);
      assert grid[i := level][..n] == grid[..n][i := level];
    }
  }

  /** A grid with every light at 1 sums to its size. */
  lemma {:induction false} SumAllOne(grid: seq<int>)
    requires forall i :: 0 <= i < |grid| ==> grid[i] == 1
    ensures Sum(grid) == |grid|
  {
    if |grid| > 0 {
      SumAllOne(grid[..|grid| - 1]);
    }
  }

  /** `k` rows whose first light is at 3 and all others at 1 sum to 1002
      per row. */
  lemma {:induction false} SumRows(grid: seq<int>, k: nat)
    requires |grid| == Width * k
    requires forall i :: 0 <= i < |grid| ==> grid[i] == if ColumnOf(i) == 0 then 3 else 1
    ensures Sum(grid) == 1002 * k
  {
    if k > 0 {
      var m := Width * (k - 1);
      SumRows(grid[..m], k - 1);
      assert grid == grid[..m] + grid[m..];
      SumAppend(grid[..m], grid[m..]);
      LastRowSum(grid, k);
    }
  }

  lemma LastRowSum(grid: seq<int>, k: nat)
    requires k > 0 && |grid| == Width * k
    requires forall i :: 0 <= i < |grid| ==> grid[i] == if ColumnOf(i) == 0 then 3 else 1
    ensures Sum(grid[Width * (k - 1)..]) == 1002
  {
    var row := grid[Width * (k - 1)..];
    forall j | 0 <= j < Width
      ensures row[j] == if j == 0 then 3 else 1
    {
      IndexCoordinates(k - 1, j);
    }
    assert row == [3] + row[1..];
    SumAppend([3], row[1..]);
    SumAllOne(row[1..]);
  }

  /** The three instructions of the lighting tests. */
  const AllOn := Instruction(TurnOn, (0, 0), (999, 999))
  const FirstColumn := Instruction(Toggle, (0, 0), (999, 0))
  const MiddleFour := Instruction(TurnOff, (499, 499), (500, 500))

  /** The four cells of the middle square, by index. */
  lemma MiddleFourCells(i: nat)
    ensures InRectangle(MiddleFour, i) <==> i in {499499, 499500, 500499, 500500}
  {
    IndexCoordinates(499, 499);
    IndexCoordinates(499, 500);
    IndexCoordinates(500, 499);
    IndexCoordinates(500, 500);
  }

  /** The binary test: all on gives 1,000,000 lights, toggling the first
      column leaves 999,000, and turning off the middle four 998,996. */
  lemma BinaryExample()
    ensures var g1 := Switched(seq(GridSize, i => false), AllOn);
      && CountOn(g1) == 1000000
      && CountOn(Switched(g1, FirstColumn)) == 999000
      && CountOn(Switched(Switched(g1, FirstColumn), MiddleFour)) == 998996
  {
    var g1 := Switched(seq(GridSize, i => false), AllOn);
    CountAllOn(g1);
    var g2 := Switched(g1, FirstColumn);
    CountRows(g2, 1000);
    var g3 := Switched(g2, MiddleFour);
    var h := g2[499499 := false][499500 := false][500499 := false][500500 := false];
    forall i | 0 <= i < GridSize
      ensures g3[i] == h[i]
    {
      MiddleFourCells(i);
    }
    assert g3 == h;
    IndexCoordinates(499, 499);
    IndexCoordinates(499, 500);
    IndexCoordinates(500, 499);
    IndexCoordinates(500, 500);
    CountUpdate(g2, 499499, false);
    CountUpdate(g2[499499 := false], 499500, false);
    CountUpdate(g2[499499 := false][499500 := false], 500499, false);
    CountUpdate(g2[499499 := false][499500 := false][500499 := false], 500500, false);
  }

  /** The dimmable test: all up by one gives 1,000,000, the first column up
      by two more gives 1,002,000, and the middle four down by one
      1,001,996. */
  lemma DimmableExample()
    ensures var g1 := Dimmed(seq(GridSize, i => 0), AllOn);
      && Sum(g1) == 1000000
      && Sum(Dimmed(g1, FirstColumn)) == 1002000
      && Sum(Dimmed(Dimmed(g1, FirstColumn), MiddleFour)) == 1001996
  {
    var g1 := Dimmed(seq(GridSize, i => 0), AllOn);
    SumAllOne(g1);
    var g2 := Dimmed(g1, FirstColumn);
    SumRows(g2, 1000);
    var g3 := Dimmed(g2, MiddleFour);
    var h := g2[499499 := 0][499500 := 0][500499 := 0][500500 := 0];
    forall i | 0 <= i < GridSize
      ensures g3[i] == h[i]
    {
      MiddleFourCells(i);
    }
    assert g3 == h;
    IndexCoordinates(499, 499);
    IndexCoordinates(499, 500);
    IndexCoordinates(500, 499);
    IndexCoordinates(500, 500);
    SumUpdate(g2, 499499, 0);
    SumUpdate(g2[499499 := 0], 499500, 0);
    SumUpdate(g2[499499 := 0][499500 := 0], 500499, 0);
    SumUpdate(g2[499499 := 0][499500 := 0][500499 := 0], 500500, 0);
  }
}
