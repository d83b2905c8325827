/** Day 18 (day-18/src/main.rs): a 100 by 100 grid of lights animated by a
    game-of-life rule. Cell (x, y) lives at index x + 100 y of one flat
    array. */
module Day18 {
  import opened Wrappers
  import opened Arith
  import opened Strings

  const Side: nat := 100
  const Cells: nat := 10000

  /** 1 when (x, y) is inside the grid and lit, 0 otherwise. */
  function Lit(g: seq<bool>, x: int, y: int): nat
    requires |g| == Cells
  {
    if 0 <= x < Side && 0 <= y < Side && g[x + Side * y] then 1 else 0
  }

  /** The reference count: the eight neighbours, those outside the grid
      counting as unlit. */
  function Neighbours(g: seq<bool>, x: int, y: int): nat
    requires |g| == Cells
  {
    Lit(g, x - 1, y - 1) + Lit(g, x, y - 1) + Lit(g, x + 1, y - 1) +
    Lit(g, x - 1, y) + Lit(g, x + 1, y) +
    Lit(g, x - 1, y + 1) + Lit(g, x, y + 1) + Lit(g, x + 1, y + 1)
  }

  /** A lit light stays lit with 2 or 3 lit neighbours; an unlit one turns
      on with exactly 3. */
  function Rule(lit: bool, neighbours: nat): bool
  {
    if lit then neighbours == 2 || neighbours == 3 else neighbours == 3
  }

  function NextStatus(g: seq<bool>, x: nat, y: nat): bool
    requires |g| == Cells && x < Side && y < Side
  {
    Rule(g[x + Side * y], Neighbours(g, x, y))
  }

  /** The next frame: every cell from the old frame only. */
  function Step(g: seq<bool>): (r: seq<bool>)
    requires |g| == Cells
    ensures |r| == Cells
  {
    seq(Cells, i requires 0 <= i < Cells => NextStatus(g, i % Side, i / Side))
  }

  /** What the neighbour loop adds for row `iy`, columns `lo .. hi`,
      skipping the cell itself. */
  function RowPart(g: seq<bool>, x: int, y: int, iy: int, lo: int, hi: int): nat
    requires |g| == Cells
    decreases hi - lo
  {
    if hi <= lo then 0
    else RowPart(g, x, y, iy, lo, hi - 1) + (if x == hi - 1 && y == iy then 0 else Lit(g, hi - 1, iy))
  }

  /** What the neighbour loop adds for rows `lo .. hi`. */
  function Rows(g: seq<bool>, x: nat, y: int, lo: int, hi: int): nat
    requires |g| == Cells
    decreases hi - lo
  {
    if hi <= lo then 0
    else Rows(g, x, y, lo, hi - 1) + RowPart(g, x, y, hi - 1, SaturatingSub(x, 1), Min(Side, x + 2))
  }

  /** The three cells of row `iy` around column `x`, the cell itself left
      out. */
  function Around(g: seq<bool>, x: int, y: int, iy: int): nat
    requires |g| == Cells
  {
    (if iy == y then 0 else Lit(g, x, iy)) + Lit(g, x - 1, iy) + Lit(g, x + 1, iy)
  }

  /** Clipping the columns to the grid loses nothing. */
  lemma RowWindow(g: seq<bool>, x: nat, y: int, iy: int)
    requires |g| == Cells && x < Side
    ensures RowPart(g, x, y, iy, SaturatingSub(x, 1), Min(Side, x + 2)) == Around(g, x, y, iy)
  {
    var lo := SaturatingSub(x, 1);
    if x == 0 {
      assert RowPart(g, x, y, iy, lo, 1) == (if y == iy then 0 else Lit(g, 0, iy));
    } else if x == Side - 1 {
      assert RowPart(g, x, y, iy, lo, x) == Lit(g, x - 1, iy);
    } else {
      assert RowPart(g, x, y, iy, lo, x) == Lit(g, x - 1, iy);
      assert RowPart(g, x, y, iy, lo, x + 1) == Lit(g, x - 1, iy) + (if y == iy then 0 else Lit(g, x, iy));
    }
  }

  /** Clipping the rows to the grid loses nothing: the loop counts the
      eight neighbours. */
  lemma WindowIsNeighbours(g: seq<bool>, x: nat, y: nat)
    requires |g| == Cells && x < Side && y < Side
    ensures Rows(g, x, y, SaturatingSub(y, 1), Min(Side, y + 2)) == Neighbours(g, x, y)
  {
    var lo := SaturatingSub(y, 1);
    RowWindow(g, x, y, y - 1);
    RowWindow(g, x, y, y);
    RowWindow(g, x, y, y + 1);
    if y == 0 {
      assert Rows(g, x, y, lo, 1) == Around(g, x, y, 0);
    } else if y == Side - 1 {
      assert Rows(g, x, y, lo, y) == Around(g, x, y, y - 1);
    } else {
      assert Rows(g, x, y, lo, y) == Around(g, x, y, y - 1);
      assert Rows(g, x, y, lo, y + 1) == Around(g, x, y, y - 1) + Around(g, x, y, y);
    }
  }

  /** The corners switched on, everything else as it was. */
  function WithCorners(g: seq<bool>): (r: seq<bool>)
    requires |g| == Cells
    ensures |r| == Cells
  {
    g[0 := true][Side - 1 := true][Side * (Side - 1) := true][Cells - 1 := true]
  }

  predicate IsCorner(i: nat)
  {
    i == 0 || i == Side - 1 || i == Side * (Side - 1) || i == Cells - 1
  }

  /** Switching the corners on sets exactly the four corners. */
  lemma CornersOnly(g: seq<bool>)
    requires |g| == Cells
    ensures forall i :: 0 <= i < Cells ==> WithCorners(g)[i] == (IsCorner(i) || g[i])
    ensures WithCorners(WithCorners(g)) == WithCorners(g)
  {
  }

  /** `count_active_lights`: the lit cells counted by a left fold. */
  function CountOn(g: seq<bool>): nat
  {
    if |g| == 0 then 0 else CountOn(g[..|g| - 1]) + (if g[|g| - 1] then 1 else 0)
  }

  function OnSet(g: seq<bool>): set<nat>
  {
    set i: nat | i < |g| && g[i]
  }

  /** The count is the number of lit cells. */
  lemma {:induction false} CountOnIsSize(g: seq<bool>)
    ensures CountOn(g) == |OnSet(g)|
  {
    if |g| > 0 {
      var init := g[..|g| - 1];
      CountOnIsSize(init);
      if g[|g| - 1] {
        assert OnSet(g) == OnSet(init) + {|g| - 1};
      } else {
        assert OnSet(g) == OnSet(init);
      }
    }
  }

  /** The index of cell (x, y), and back. */
  lemma CellIndex(x: nat, y: nat)
    requires x < Side
    ensures (x + Side * y) % Side == x && (x + Side * y) / Side == y
  {
    ModUnique(x + Side * y, Side, y, x);
  }

  /** The first `n` cells of `s` already hold the next frame of `g`. */
  ghost predicate Done(s: seq<bool>, g: seq<bool>, n: nat)
    requires |g| == Cells
  {
    n <= |s| && n <= Cells && forall i :: 0 <= i < n ==> s[i] == Step(g)[i]
  }

  /** Writing the next status of (x, y) extends the finished part by one
      cell, in row-major order. */
  lemma DoneStep(s: seq<bool>, g: seq<bool>, x: nat, y: nat, lit: bool)
    requires |g| == Cells && |s| == Cells && x < Side && y < Side
    requires Done(s, g, Side * y + x) && lit == NextStatus(g, x, y)
    ensures Done(s[x + Side * y := lit], g, Side * y + x + 1)
  {
    CellIndex(x, y);
    assert Step(g)[x + Side * y] == lit;
  }

  lemma DoneAll(s: seq<bool>, g: seq<bool>)
    requires |g| == Cells && |s| == Cells && Done(s, g, Cells)
    ensures s == Step(g)
  {
  }

  /** The grid of lights. */
  class Lights {
    var lights: array<bool>

    ghost predicate Valid()
      reads this
    {
      lights.Length == Cells
    }

    /** `Lights::new`: every light off. */
    constructor ()
      ensures Valid() && fresh(lights)
      ensures forall i :: 0 <= i < Cells ==> !lights[i]
    {
      lights := new bool[Cells](i => false);
    }

    /** `clone`: a copy of the cells in a new array. */
    constructor Copy(source: array<bool>)
      requires source.Length == Cells
      ensures Valid() && fresh(lights) && lights[..] == source[..]
    {
      lights := new bool[Cells](i reads source => if 0 <= i < Cells then source[i] else false);
    }

    /** `Index`: the light at (x, y), as long as x + 100 y is in the
        array. */
    function Get(x: nat, y: nat): (lit: bool)
      requires Valid() && x + Side * y < Cells
      reads this, lights
      ensures lit == lights[..][x + Side * y]
    {
      lights[x + Side * y]
    }

    /** `IndexMut`: writing one light leaves every other one as it was. */
    method Set(x: nat, y: nat, lit: bool)
      requires Valid() && x + Side * y < Cells
      modifies lights
      ensures lights[..] == old(lights[..])[x + Side * y := lit]
    {
      lights[x + Side * y] := lit;
    }

    /** `get_new_light_status`: count the lit cells of the clipped 3 by 3
        window, the cell itself left out, then apply the rule. */
    method NewLightStatus(x: nat, y: nat) returns (lit: bool)
      requires Valid() && x < Side && y < Side
      ensures lit == NextStatus(lights[..], x, y)
    {
      ghost var g := lights[..];
      var neighbours := 0;
      var loY := SaturatingSub(y, 1);
      var loX := SaturatingSub(x, 1);
      for iy := loY to Min(Side, y + 2)
        invariant neighbours == Rows(g, x, y, loY, iy)
      {
        for ix := loX to Min(Side, x + 2)
          invariant neighbours == Rows(g, x, y, loY, iy) + RowPart(g, x, y, iy, loX, ix)
        {
          if !(x == ix && y == iy) {
            neighbours := neighbours + if Get(ix, iy) then 1 else 0;
          }
        }
      }
      WindowIsNeighbours(g, x, y);
      var oldStatus := Get(x, y);
      if oldStatus {
        lit := neighbours == 2 || neighbours == 3;
      } else {
        lit := neighbours == 3;
      }
    }

    /** `get_next_frame`: a new grid whose every cell is computed from this
        one, which is left as it is. */
    method NextFrame() returns (frame: Lights)
      requires Valid()
      ensures fresh(frame) && fresh(frame.lights) && frame.Valid()
      ensures frame.lights[..] == Step(lights[..])
    {
      ghost var g := lights[..];
      frame := new Lights.Copy(lights);
      for y := 0 to Side
        invariant frame.Valid() && fresh(frame.lights) && lights[..] == g
        invariant Done(frame.lights[..], g, Side * y)
      {
        for x := 0 to Side
          invariant frame.Valid() && fresh(frame.lights) && lights[..] == g
          invariant Done(frame.lights[..], g, Side * y + x)
        {
          var status := NewLightStatus(x, y);
          DoneStep(frame.lights[..], g, x, y, status);
          frame.Set(x, y, status);
        }
      }
      DoneAll(frame.lights[..], g);
    }

    /** `activate_corners`: the four corners on, nothing else changed. */
    method ActivateCorners()
      requires Valid()
      modifies lights
      ensures lights[..] == WithCorners(old(lights[..]))
    {
      Set(0, 0, true);
      Set(Side - 1, 0, true);
      Set(0, Side - 1, true);
      Set(Side - 1, Side - 1, true);
    }

    /** `count_active_lights`. */
    function CountActive(): (n: nat)
      requires Valid()
      reads this, lights
      ensures n == |OnSet(lights[..])|
    {
      CountOnIsSize(lights[..]);
      CountOn(lights[..])
    }
  }

  /** The grid after `n` frames, the corners switched on before the first
      frame and after each one when `corners` is set. */
  function Animated(g: seq<bool>, n: nat, corners: bool): (r: seq<bool>)
    requires |g| == Cells
    ensures |r| == Cells
  {
    var h := if n == 0 then g else Step(Animated(g, n - 1, corners));
    if corners then WithCorners(h) else h
  }

  /** With the corners held on, they are on in every frame. */
  lemma AnimatedCorners(g: seq<bool>, n: nat)
    requires |g| == Cells
    ensures forall i :: 0 <= i < Cells && IsCorner(i) ==> Animated(g, n, true)[i]
  {
    var h := if n == 0 then g else Step(Animated(g, n - 1, true));
    CornersOnly(h);
  }

  /** `mutate_lights` without its image output: `n` frames from `initial`,
      which is left as it is. */
  method Animate(initial: Lights, n: nat, corners: bool) returns (lights: Lights)
    requires initial.Valid()
    ensures lights.Valid() && lights.lights[..] == Animated(initial.lights[..], n, corners)
    ensures initial.lights[..] == old(initial.lights[..])
  {
    ghost var g := initial.lights[..];
    lights := initial;
    if corners {
      lights := new Lights.Copy(initial.lights);
      lights.ActivateCorners();
    }
    for i := 0 to n
      invariant lights.Valid() && lights.lights[..] == Animated(g, i, corners)
      invariant initial.lights[..] == g
      invariant lights != initial ==> fresh(lights.lights)
    {
      lights := lights.NextFrame();
      if corners {
        lights.ActivateCorners();
      }
    }
  }

  /** The grid after writing the first `n` characters of `line` into row
      `y`, '#' as on; `None` once an index leaves the array (a panic). */
  function PaintRow(g: seq<bool>, line: string, y: nat, n: nat): (r: Option<seq<bool>>)
    requires |g| == Cells && n <= |line|
    ensures r.Some? ==> |r.value| == Cells
  {
    if n == 0 then Some(g)
    else
      match PaintRow(g, line, y, n - 1)
      case None => None
      case Some(h) =>
        var index := n - 1 + Side * y;
        if index < Cells then Some(h[index := line[n - 1] == '#']) else None
  }

  /** The grid after the first `k` lines. */
  function PaintRows(lines: seq<string>, k: nat): (r: Option<seq<bool>>)
    requires k <= |lines|
    ensures r.Some? ==> |r.value| == Cells
  {
    if k == 0 then Some(seq(Cells, i => false))
    else
      match PaintRows(lines, k - 1)
      case None => None
      case Some(h) => PaintRow(h, lines[k - 1], k - 1, |lines[k - 1]|)
  }

  /** The inner loop of `Lights::parse`: one line written into row `y`;
      `false` for the panic of an index past the array. */
  method ParseLine(lights: Lights, line: string, y: nat) returns (ok: bool)
    requires lights.Valid()
    modifies lights.lights
    ensures ok <==> PaintRow(old(lights.lights[..]), line, y, |line|).Some?
    ensures ok ==> Some(lights.lights[..]) == PaintRow(old(lights.lights[..]), line, y, |line|)
  {
    ghost var g := lights.lights[..];
    for x := 0 to |line|
      invariant PaintRow(g, line, y, x) == Some(lights.lights[..])
    {
      if x + Side * y >= Cells {
        PaintRowStaysNone(g, line, y, x + 1, |line|);
        return false;
      }
      lights.Set(x, y, line[x] == '#');
    }
    return true;
  }

  /** `Lights::parse`: every character of every line written at its place;
      `None` for the panic of an index past the array. */
  method Parse(input: string) returns (r: Option<Lights>)
    ensures r.None? <==> PaintRows(Lines(input), |Lines(input)|).None?
    ensures r.Some? ==> (fresh(r.value) && fresh(r.value.lights) && r.value.Valid() &&
      Some(r.value.lights[..]) == PaintRows(Lines(input), |Lines(input)|))
  {
    r := ParseRows(Lines(input));
  }

  /** The loop of `Lights::parse` over the lines already split. */
  method ParseRows(lines: seq<string>) returns (r: Option<Lights>)
    ensures r.None? <==> PaintRows(lines, |lines|).None?
    ensures r.Some? ==> (fresh(r.value) && fresh(r.value.lights) && r.value.Valid() &&
      Some(r.value.lights[..]) == PaintRows(lines, |lines|))
  {
    var result := new Lights();
    assert result.lights[..] == seq(Cells, i => false);
    for y := 0 to |lines|
      invariant result.Valid() && fresh(result.lights)
      invariant PaintRows(lines, y) == Some(result.lights[..])
    {
      var ok := ParseLine(result, lines[y], y);
      if !ok {
        PaintRowsStayNone(lines, y + 1, |lines|);
        return None;
      }
    }
    return Some(result);
  }

  lemma {:induction false} PaintRowStaysNone(g: seq<bool>, line: string, y: nat, n: nat, m: nat)
    requires |g| == Cells && n <= m <= |line|
    requires PaintRow(g, line, y, n).None?
    ensures PaintRow(g, line, y, m).None?
    decreases m - n
  {
    if n < m {
      PaintRowStaysNone(g, line, y, n + 1, m);
    }
  }

  lemma {:induction false} PaintRowsStayNone(lines: seq<string>, k: nat, m: nat)
    requires k <= m <= |lines|
    requires PaintRows(lines, k).None?
    ensures PaintRows(lines, m).None?
    decreases m - k
  {
    if k < m {
      PaintRowsStayNone(lines, k + 1, m);
    }
  }

  /** Writing a row of at most 100 characters into row `y < 100` sets
      exactly its cells. */
  lemma {:induction false} PaintRowEffect(g: seq<bool>, line: string, y: nat, n: nat)
    requires |g| == Cells && n <= |line| <= Side && y < Side
    ensures PaintRow(g, line, y, n).Some?
    ensures forall i :: 0 <= i < Cells ==> (PaintRow(g, line, y, n).value[i] ==
      if i / Side == y && i % Side < n then line[i % Side] == '#' else g[i])
  {
    if n > 0 {
      PaintRowEffect(g, line, y, n - 1);
      CellIndex(n - 1, y);
      var h := PaintRow(g, line, y, n - 1).value;
      forall i | 0 <= i < Cells
        ensures PaintRow(g, line, y, n).value[i] == if i / Side == y && i % Side < n then line[i % Side] == '#' else g[i]
      {
        if i == n - 1 + Side * y {
        } else if i / Side == y && i % Side == n - 1 {
          ModUnique(i, Side, y, n - 1);
        }
      }
    }
  }

  /** For at most 100 lines of at most 100 characters, the parsed grid has
      cell (x, y) on exactly when line y has a '#' at column x. */
  lemma {:induction false} PaintRowsMeaning(lines: seq<string>, k: nat)
    requires k <= |lines| <= Side
    requires forall y :: 0 <= y < |lines| ==> |lines[y]| <= Side
    ensures PaintRows(lines, k).Some?
    ensures forall i :: 0 <= i < Cells ==> (PaintRows(lines, k).value[i] ==
      (i / Side < k && i % Side < |lines[i / Side]| && lines[i / Side][i % Side] == '#'))
  {
    if k > 0 {
      PaintRowsMeaning(lines, k - 1);
      PaintRowEffect(PaintRows(lines, k - 1).value, lines[k - 1], k - 1, |lines[k - 1]|);
    }
  }

  /** The indexing test: one light switched on, its neighbour below still
      off. */
  method IndexingExample() returns (here: bool, below: bool)
    ensures here && !below
  {
    var lights := new Lights();
    lights.Set(50, 50, true);
    here := lights.Get(50, 50);
    below := lights.Get(50, 51);
  }
}
