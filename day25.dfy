/**
 * Day 25: the code on the weather machine's manual. Codes fill an infinite
 * grid diagonal by diagonal, from bottom-left to top-right; each code is the
 * previous one times 252533 modulo 33554393.
 */
module Day25 {
  import opened Wrappers

  const StartValue: nat := 20151125
  const Multiplier: nat := 252533
  const Modulus: nat := 33554393

  /** The triangular number 0 + 1 + … + (d - 1). */
  function Triangle(d: nat): nat
  {
    if d == 0 then 0 else Triangle(d - 1) + (d - 1)
  }

  lemma {:induction false} TriangleFormula(d: nat)
    ensures d * (d - 1) == 2 * Triangle(d)
  {
    if d > 0 {
      TriangleFormula(d - 1);
      assert d * (d - 1) == (d - 1) * (d - 2) + 2 * (d - 1);
    }
  }

  /**
   * The position of a cell in the order the codes are written (1 for row 1,
   * column 1); `None` where the unsigned subtractions underflow, that is when
   * row + column <= 1.
   */
  function IndexFromCoordinate(row: nat, column: nat): (r: Option<nat>)
    ensures r.None? <==> row + column <= 1
    ensures r.Some? ==> r.value == Triangle(row + column - 1) + column
  {
    if row + column <= 1 then None
    else
      var diagonal := row + column - 1;
      TriangleFormula(diagonal);
      Some(diagonal * (diagonal - 1) / 2 + column)
  }

  /** The cell written after (row, column): up the diagonal, or to the start of the next one. */
  function Next(row: nat, column: nat): (nat, nat)
  {
    if row <= 1 then (column + 1, 1) else (row - 1, column + 1)
  }

  /** The cell written before (row, column), for every cell but the first. */
  function Previous(row: nat, column: nat): (nat, nat)
    requires row >= 1
  {
    if column <= 1 then (1, row - 1) else (row + 1, column - 1)
  }

  /** Walking on from a cell increases its index by exactly one. */
  lemma IndexOfNext(row: nat, column: nat)
    requires row >= 1 && column >= 1
    ensures var (r, c) := Next(row, column);
      IndexFromCoordinate(r, c) == Some(IndexFromCoordinate(row, column).value + 1)
  {
  }

  /** Stepping back and then on returns to the cell, and the index drops by one. */
  lemma PreviousThenNext(row: nat, column: nat)
    requires row >= 1 && column >= 1 && row + column > 2
    ensures var (r, c) := Previous(row, column);
      && r >= 1 && c >= 1 && Next(r, c) == (row, column)
      && IndexFromCoordinate(r, c).value + 1 == IndexFromCoordinate(row, column).value
  {
  }

  /** The n-th cell (from 1) of the writing order. */
  function Walk(n: nat): (nat, nat)
    decreases n
  {
    if n <= 1 then (1, 1) else var (r, c) := Walk(n - 1); Next(r, c)
  }

  /** The n-th cell of the walk has index n. */
  lemma {:induction false} WalkIndex(n: nat)
    requires n >= 1
    ensures Walk(n).0 >= 1 && Walk(n).1 >= 1
    ensures IndexFromCoordinate(Walk(n).0, Walk(n).1) == Some(n)
  {
    if n > 1 {
      WalkIndex(n - 1);
      IndexOfNext(Walk(n - 1).0, Walk(n - 1).1);
    }
  }

  /** Every cell is reached by the walk at its own index: the index is a bijection onto 1, 2, 3, … */
  lemma {:induction false} IndexWalk(row: nat, column: nat)
    requires row >= 1 && column >= 1
    ensures IndexFromCoordinate(row, column).value >= 1
    ensures Walk(IndexFromCoordinate(row, column).value) == (row, column)
    decreases IndexFromCoordinate(row, column).value
  {
    var n := IndexFromCoordinate(row, column).value;
    if row + column > 2 {
      PreviousThenNext(row, column);
      var (r, c) := Previous(row, column);
      IndexWalk(r, c);
    }
  }

  /** Two cells with the same index are the same cell. */
  lemma IndexInjective(row: nat, column: nat, row': nat, column': nat)
    requires row >= 1 && column >= 1 && row' >= 1 && column' >= 1
    requires IndexFromCoordinate(row, column) == IndexFromCoordinate(row', column')
    ensures row == row' && column == column'
  {
    IndexWalk(row, column);
    IndexWalk(row', column');
  }

  /** One step of the code generator. */
  function NextCode(value: nat): (r: nat)
    ensures r < Modulus
  {
    (value * Multiplier) % Modulus
  }

  /** The code after `steps` steps from `start`. */
  function CodeAfter(start: nat, steps: nat): (r: nat)
    ensures steps > 0 ==> r < Modulus
  {
    if steps == 0 then start else NextCode(CodeAfter(start, steps - 1))
  }

  /**
   * The code at a cell: the generator applied index - 1 times (none at all
   * when the index is 0), `None` where the index underflows.
   */
  function CodeAt(row: nat, column: nat, start: nat): Option<nat>
  {
    match IndexFromCoordinate(row, column)
    case None => None
    case Some(index) => Some(CodeAfter(start, SaturatingSub(index, 1)))
  }

  /** Runs the generator index - 1 times from `start`. */
  method GetCode(row: nat, column: nat, start: nat) returns (code: Option<nat>)
    ensures code == CodeAt(row, column, start)
  {
    var index := IndexFromCoordinate(row, column);
    if index.None? {
      return None;
    }
    var value := start;
    var i := 1;
    while i < index.value
      invariant 1 <= i && (i <= index.value || i == 1)
      invariant value == CodeAfter(start, i - 1)
    {
      value := NextCode(value);
      i := i + 1;
    }
    assert i - 1 == SaturatingSub(index.value, 1);
    return Some(value);
  }

  /** The first cell holds the start value. */
  lemma FirstCode(start: nat)
    ensures CodeAt(1, 1, start) == Some(start)
  {
  }

  /** The code of the next cell in writing order is one generator step on from this one. */
  lemma CodeOfNext(row: nat, column: nat, start: nat)
    requires row >= 1 && column >= 1
    ensures var (r, c) := Next(row, column);
      CodeAt(r, c, start) == Some(NextCode(CodeAt(row, column, start).value))
  {
    IndexOfNext(row, column);
  }

  /** The positions of the first four diagonals. */
  lemma IndexExamples()
    ensures IndexFromCoordinate(1, 1) == Some(1)
    ensures IndexFromCoordinate(2, 1) == Some(2)
    ensures IndexFromCoordinate(1, 2) == Some(3)
    ensures IndexFromCoordinate(3, 1) == Some(4)
    ensures IndexFromCoordinate(2, 2) == Some(5)
    ensures IndexFromCoordinate(1, 3) == Some(6)
    ensures IndexFromCoordinate(4, 1) == Some(7)
    ensures IndexFromCoordinate(3, 2) == Some(8)
    ensures IndexFromCoordinate(2, 3) == Some(9)
    ensures IndexFromCoordinate(1, 4) == Some(10)
    ensures IndexFromCoordinate(5, 1) == Some(11)
  {
  }

  /** The first twelve steps of the generator from the puzzle's start value. */
  lemma {:induction false} CodeChain()
    ensures CodeAfter(StartValue, 1) == 31916031
    ensures CodeAfter(StartValue, 2) == 18749137
    ensures CodeAfter(StartValue, 3) == 16080970
    ensures CodeAfter(StartValue, 4) == 21629792
    ensures CodeAfter(StartValue, 5) == 17289845
    ensures CodeAfter(StartValue, 7) == 8057251
    ensures CodeAfter(StartValue, 8) == 16929656
    ensures CodeAfter(StartValue, 12) == 1601130
  {
    assert CodeAfter(StartValue, 0) == 20151125;
    assert CodeAfter(StartValue, 1) == 31916031;
    assert CodeAfter(StartValue, 2) == 18749137;
    assert CodeAfter(StartValue, 3) == 16080970;
    assert CodeAfter(StartValue, 4) == 21629792;
    assert CodeAfter(StartValue, 5) == 17289845;
    assert CodeAfter(StartValue, 6) == 24592653;
    assert CodeAfter(StartValue, 7) == 8057251;
    assert CodeAfter(StartValue, 8) == 16929656;
    assert CodeAfter(StartValue, 9) == 30943339;
    assert CodeAfter(StartValue, 10) == 77061;
    assert CodeAfter(StartValue, 11) == 32451966;
  }

  /** The codes in the top-left three-by-three corner of the grid. */
  method GetCodeExamples() returns (codes: seq<Option<nat>>)
    ensures codes == [Some(20151125), Some(18749137), Some(17289845),
                      Some(31916031), Some(21629792), Some(16929656),
                      Some(16080970), Some(8057251), Some(1601130)]
  {
    CodeChain();
    IndexExamples();
    assert IndexFromCoordinate(3, 3) == Some(13);
    var c11 := GetCode(1, 1, StartValue);
    var c12 := GetCode(1, 2, StartValue);
    var c13 := GetCode(1, 3, StartValue);
    var c21 := GetCode(2, 1, StartValue);
    var c22 := GetCode(2, 2, StartValue);
    var c23 := GetCode(2, 3, StartValue);
    var c31 := GetCode(3, 1, StartValue);
    var c32 := GetCode(3, 2, StartValue);
    var c33 := GetCode(3, 3, StartValue);
    codes := [c11, c12, c13, c21, c22, c23, c31, c32, c33];
  }
}
