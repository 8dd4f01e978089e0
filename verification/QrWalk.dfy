/** The zigzag order in which a QR symbol is filled, and writing and reading bits along it. */
module QrWalk {

  datatype Cell = Cell(x: int, y: int)

  type Grid = seq<seq<bool>>

  predicate IsGrid(grid: Grid, size: nat) {
    |grid| == size && forall y :: 0 <= y < size ==> |grid[y]| == size
  }

  predicate Inside(c: Cell, size: nat) { 0 <= c.x < size && 0 <= c.y < size }

  function At(grid: Grid, size: nat, c: Cell): bool
    requires IsGrid(grid, size) && Inside(c, size)
  {
    grid[c.y][c.x]
  }

  function Set(grid: Grid, size: nat, c: Cell, dark: bool): (r: Grid)
    requires IsGrid(grid, size) && Inside(c, size)
    ensures IsGrid(r, size)
    ensures forall d: Cell :: Inside(d, size) ==> At(r, size, d) == if d == c then dark else At(grid, size, d)
  {
    grid[c.y := grid[c.y][c.x := dark]]
  }

  // ---------- the walk ----------

  /** The right column of pair p; the vertical timing column 6 is stepped over. */
  function RightColumn(size: nat, p: nat): int {
    var right := size - 1 - 2 * p;
    if right <= 6 then right - 1 else right
  }

  /** The v-th row of pair p: pairs run upwards and downwards in turn. */
  function RowOf(size: nat, p: nat, v: nat): int {
    if p % 2 == 0 then size - 1 - v else v
  }

  /** The cells of the first p pairs and of the first v rows of pair p, in walking order. */
  function Walk(size: nat, p: nat, v: nat): seq<Cell>
    decreases p, v
  {
    if v > 0 then
      var x, y := RightColumn(size, p), RowOf(size, p, v - 1);
      Walk(size, p, v - 1) + [Cell(x, y), Cell(x - 1, y)]
    else if p > 0 then Walk(size, p - 1, size)
    else []
  }

  function Pairs(size: nat): nat { size / 2 }

  function WholeWalk(size: nat): seq<Cell> { Walk(size, Pairs(size), 0) }

  /** The pair that contains column x. */
  function PairOf(size: nat, x: int): int {
    if x > 6 then (size - 1 - x) / 2 else (size - 2 - x) / 2
  }

  /** The cell belongs to the first p pairs or to the first v rows of pair p. */
  predicate Before(size: nat, c: Cell, p: nat, v: nat) {
    && Inside(c, size) && c.x != 6
    && (PairOf(size, c.x) < p || (PairOf(size, c.x) == p && (if p % 2 == 0 then size - 1 - c.y else c.y) < v))
  }

  lemma {:induction false} StepCells(size: nat, p: nat, v: nat)
    requires size % 2 == 1 && size >= 7 && p < Pairs(size) && v < size
    ensures var x, y := RightColumn(size, p), RowOf(size, p, v);
            && Inside(Cell(x, y), size) && Inside(Cell(x - 1, y), size) && x != 6 && x - 1 != 6
            && !Before(size, Cell(x, y), p, v) && !Before(size, Cell(x - 1, y), p, v)
            && forall c: Cell :: Before(size, c, p, v + 1) <==>
                 Before(size, c, p, v) || c == Cell(x, y) || c == Cell(x - 1, y)
  {
  }

  lemma {:induction false} NextPair(size: nat, p: nat)
    requires size % 2 == 1 && p < Pairs(size)
    ensures forall c: Cell :: Before(size, c, p + 1, 0) <==> Before(size, c, p, size)
  {
  }

  predicate Distinct(cells: seq<Cell>) {
    forall i, j :: 0 <= i < j < |cells| ==> cells[i] != cells[j]
  }

  lemma {:induction false} NothingBefore(size: nat)
    requires size % 2 == 1 && size >= 7
    ensures Walk(size, 0, 0) == [] && Distinct([])
    ensures forall c: Cell :: !Before(size, c, 0, 0)
  {}

  lemma {:induction false} TwoMore(cells: seq<Cell>, a: Cell, b: Cell)
    ensures forall c :: c in cells + [a, b] <==> c in cells || c == a || c == b
    ensures Distinct(cells) && a !in cells && b !in cells && a != b ==> Distinct(cells + [a, b])
  {}

  lemma {:induction false} WalkVisits(size: nat, p: nat, v: nat)
    requires size % 2 == 1 && size >= 7
    requires (p < Pairs(size) && v <= size) || (p == Pairs(size) && v == 0)
    ensures forall c: Cell :: c in Walk(size, p, v) <==> Before(size, c, p, v)
    ensures Distinct(Walk(size, p, v))
    ensures |Walk(size, p, v)| == 2 * (p * size + v)
    decreases p, v
  {
    hide Before, Distinct, RowOf, RightColumn, Inside;
    if v > 0 {
      WalkVisits(size, p, v - 1);
      StepCells(size, p, v - 1);
      var x, y := RightColumn(size, p), RowOf(size, p, v - 1);
      TwoMore(Walk(size, p, v - 1), Cell(x, y), Cell(x - 1, y));
    } else if p > 0 {
      WalkVisits(size, p - 1, size);
      NextPair(size, p - 1);
      assert (p - 1) * size + size == p * size;
    } else {
      NothingBefore(size);
    }
  }

  /** The two cells of the next row are new to the walk. */
  lemma {:induction false} WalkStep(size: nat, p: nat, v: nat)
    requires size % 2 == 1 && size >= 7 && p < Pairs(size) && v < size
    ensures var x, y := RightColumn(size, p), RowOf(size, p, v);
            var walk := Walk(size, p, v);
            && Inside(Cell(x, y), size) && Inside(Cell(x - 1, y), size)
            && (forall c :: c in walk ==> Inside(c, size))
            && Cell(x, y) !in walk && Cell(x - 1, y) !in walk + [Cell(x, y)]
            && Walk(size, p, v + 1) == walk + [Cell(x, y)] + [Cell(x - 1, y)]
  {
    WalkVisits(size, p, v);
    StepCells(size, p, v);
    var x, y, walk := RightColumn(size, p), RowOf(size, p, v), Walk(size, p, v);
    assert Walk(size, p, v + 1) == walk + [Cell(x, y), Cell(x - 1, y)];
    hide Walk, Before;
  }

  lemma {:induction false} AllBefore(size: nat)
    requires size % 2 == 1 && size >= 7
    ensures forall c: Cell :: Before(size, c, Pairs(size), 0) <==> Inside(c, size) && c.x != 6
  {}

  lemma {:induction false} PairsFill(size: nat)
    requires size % 2 == 1
    ensures 2 * (Pairs(size) * size) == size * (size - 1)
  {
    assert 2 * Pairs(size) == size - 1;
    assert 2 * (Pairs(size) * size) == (2 * Pairs(size)) * size;
  }

  /** Every cell outside column 6 is visited exactly once, and nothing else is. */
  lemma {:induction false} WalkVisitsOnce(size: nat)
    requires size % 2 == 1 && size >= 7
    ensures Distinct(WholeWalk(size))
    ensures forall c: Cell :: c in WholeWalk(size) <==> Inside(c, size) && c.x != 6
    ensures |WholeWalk(size)| == size * (size - 1)
  {
    hide Walk, Distinct, Before;
    WalkVisits(size, Pairs(size), 0);
    AllBefore(size);
    PairsFill(size);
  }

  // ---------- writing and reading along the walk ----------

  /** The cells that are not reserved for function patterns, in order. */
  function Free(cells: seq<Cell>, reserved: Grid, size: nat): (free: seq<Cell>)
    requires IsGrid(reserved, size) && forall c :: c in cells ==> Inside(c, size)
    ensures forall c :: c in free <==> c in cells && !At(reserved, size, c)
    ensures |free| <= |cells|
  {
    if |cells| == 0 then []
    else
      var last := cells[|cells| - 1];
      var rest := Free(cells[..|cells| - 1], reserved, size);
      if At(reserved, size, last) then rest else rest + [last]
  }

  lemma {:induction false} FreeDistinct(cells: seq<Cell>, reserved: Grid, size: nat)
    requires IsGrid(reserved, size) && forall c :: c in cells ==> Inside(c, size)
    requires Distinct(cells)
    ensures Distinct(Free(cells, reserved, size))
  {
    if |cells| > 0 {
      FreeDistinct(cells[..|cells| - 1], reserved, size);
    }
  }

  /** Bit k of the stream, and zero once the stream is exhausted. */
  predicate BitAt(bits: seq<bool>, k: nat) { k < |bits| && bits[k] }

  /** modules shows the bits on the listed cells and otherwise equals before. */
  ghost predicate Shows(modules: Grid, before: Grid, size: nat, free: seq<Cell>, bits: seq<bool>)
    requires IsGrid(modules, size) && IsGrid(before, size)
    requires forall c :: c in free ==> Inside(c, size)
  {
    && (forall k :: 0 <= k < |free| ==> At(modules, size, free[k]) == BitAt(bits, k))
    && (forall c: Cell :: Inside(c, size) && c !in free ==> At(modules, size, c) == At(before, size, c))
  }

  lemma {:induction false} ShowsStep(modules: Grid, before: Grid, size: nat, free: seq<Cell>, bits: seq<bool>, c: Cell)
    requires IsGrid(modules, size) && IsGrid(before, size)
    requires forall d :: d in free ==> Inside(d, size)
    requires Inside(c, size) && c !in free
    requires Shows(modules, before, size, free, bits)
    ensures Shows(Set(modules, size, c, BitAt(bits, |free|)), before, size, free + [c], bits)
  {
    var next := Set(modules, size, c, BitAt(bits, |free|));
    hide Set, IsGrid, At, Inside;
    forall k | 0 <= k < |free| + 1 ensures At(next, size, (free + [c])[k]) == BitAt(bits, k) {
      if k < |free| {
        assert free[k] in free;
      }
    }
    forall d: Cell | Inside(d, size) && d !in free + [c] ensures At(next, size, d) == At(before, size, d) {
      assert c in free + [c];
      assert d !in free && d != c;
    }
  }

  /** modules carries the bits along the free cells and otherwise equals before. */
  ghost predicate Carries(modules: Grid, before: Grid, reserved: Grid, size: nat, cells: seq<Cell>, bits: seq<bool>)
    requires IsGrid(modules, size) && IsGrid(before, size) && IsGrid(reserved, size)
    requires forall c :: c in cells ==> Inside(c, size)
  {
    Shows(modules, before, size, Free(cells, reserved, size), bits)
  }

  lemma {:induction false} FreeStep(cells: seq<Cell>, reserved: Grid, size: nat, c: Cell)
    requires IsGrid(reserved, size) && Inside(c, size) && forall d :: d in cells ==> Inside(d, size)
    ensures forall d :: d in cells + [c] ==> Inside(d, size)
    ensures Free(cells + [c], reserved, size)
            == if At(reserved, size, c) then Free(cells, reserved, size) else Free(cells, reserved, size) + [c]
  {
    assert (cells + [c])[..|cells|] == cells;
  }

  /** Visiting one more cell: a free one takes the next bit, a reserved one is left alone. */
  lemma {:induction false} CarriesStep(modules: Grid, before: Grid, reserved: Grid, size: nat, cells: seq<Cell>,
      bits: seq<bool>, c: Cell)
    requires IsGrid(modules, size) && IsGrid(before, size) && IsGrid(reserved, size)
    requires Inside(c, size) && c !in cells && forall d :: d in cells ==> Inside(d, size)
    requires Carries(modules, before, reserved, size, cells, bits)
    ensures forall d :: d in cells + [c] ==> Inside(d, size)
    ensures At(reserved, size, c) ==> Carries(modules, before, reserved, size, cells + [c], bits)
    ensures !At(reserved, size, c) ==>
              Carries(Set(modules, size, c, BitAt(bits, |Free(cells, reserved, size)|)), before, reserved, size,
                  cells + [c], bits)
  {
    FreeStep(cells, reserved, size, c);
    if !At(reserved, size, c) {
      ShowsStep(modules, before, size, Free(cells, reserved, size), bits, c);
    }
  }

  /** The value a scanner removes before reading: the checkerboard mask. */
  predicate Masked(c: Cell) { (c.x + c.y) % 2 == 0 }

  /** The bits on the free cells in walking order, with the mask removed. */
  function ReadBits(modules: Grid, reserved: Grid, size: nat, cells: seq<Cell>): (bits: seq<bool>)
    requires IsGrid(modules, size) && IsGrid(reserved, size)
    requires forall c :: c in cells ==> Inside(c, size)
    ensures |bits| == |Free(cells, reserved, size)|
  {
    var free := Free(cells, reserved, size);
    seq(|free|, k requires 0 <= k < |free| => At(modules, size, free[k]) != Masked(free[k]))
  }

  /** Reading a masked grid that carries the bits returns the bits, followed only by zeros. */
  lemma {:induction false} ReadBack(plain: Grid, masked: Grid, before: Grid, reserved: Grid, size: nat,
      cells: seq<Cell>, bits: seq<bool>)
    requires IsGrid(plain, size) && IsGrid(masked, size) && IsGrid(before, size) && IsGrid(reserved, size)
    requires forall c :: c in cells ==> Inside(c, size)
    requires Carries(plain, before, reserved, size, cells, bits)
    requires forall c: Cell :: Inside(c, size) && !At(reserved, size, c) ==>
               At(masked, size, c) == (At(plain, size, c) != Masked(c))
    requires |bits| <= |Free(cells, reserved, size)|
    ensures var read := ReadBits(masked, reserved, size, cells);
            && read[..|bits|] == bits
            && forall k :: |bits| <= k < |read| ==> !read[k]
  {
    var free := Free(cells, reserved, size);
    var read := ReadBits(masked, reserved, size, cells);
    forall k | 0 <= k < |free| ensures read[k] == BitAt(bits, k) {
      assert free[k] in free;
    }
  }
}
