/**
  The 32x32 height map `blockGrid`, indexed `grid[col][row]`, with every
  height an integer in [0, 4], and the single-cell edit a mouse click
  applies to it.
*/
module VoxelGrid {
  import opened Basics

  const Size: int := 32
  const MaxHeight: int := 4

  type Grid = seq<seq<int>>

  predicate InBounds(i: int) { 0 <= i < Size }

  /** 32 columns of 32 rows, each height in [0, MaxHeight]. */
  predicate ValidGrid(g: Grid) {
    && |g| == Size
    && (forall c :: 0 <= c < Size ==> |g[c]| == Size)
    && (forall c, r :: 0 <= c < Size && 0 <= r < Size ==> 0 <= g[c][r] <= MaxHeight)
  }

  /** `g'` agrees with `g` on every cell of the window except possibly (col, row). */
  predicate OthersUnchanged(g: Grid, g': Grid, col: int, row: int)
    requires ValidGrid(g) && ValidGrid(g')
  {
    forall c, r :: 0 <= c < Size && 0 <= r < Size && (c != col || r != row) ==> g'[c][r] == g[c][r]
  }

  /** One random sample in [0, 1) per cell, drawn column by column. */
  predicate ValidSamples(samples: seq<seq<real>>) {
    && |samples| == Size
    && (forall c :: 0 <= c < Size ==> |samples[c]| == Size)
    && (forall c, r :: 0 <= c < Size && 0 <= r < Size ==> 0.0 <= samples[c][r] < 1.0)
  }

  /** The start-up grid: each cell is `floor(sample * 5)` for its own random sample. */
  function InitGrid(samples: seq<seq<real>>): (g: Grid)
    requires ValidSamples(samples)
    ensures ValidGrid(g)
    ensures forall c, r :: 0 <= c < Size && 0 <= r < Size ==>
      g[c][r] as real <= samples[c][r] * 5.0 < g[c][r] as real + 1.0
  {
    seq(Size, c requires 0 <= c < Size =>
      seq(Size, r requires 0 <= r < Size => (samples[c][r] * 5.0).Floor))
  }

  /** Every valid grid is a possible start-up grid, so a claim about all start-up grids is a claim about all valid grids. */
  lemma InitGridReachesEveryGrid(g: Grid)
    requires ValidGrid(g)
    ensures exists samples :: ValidSamples(samples) && InitGrid(samples) == g
  {
    var samples := seq(Size, c requires 0 <= c < Size =>
      seq(Size, r requires 0 <= r < Size => g[c][r] as real / 5.0));
    assert ValidSamples(samples);
    var g' := InitGrid(samples);
    forall c, r | 0 <= c < Size && 0 <= r < Size
      ensures g'[c][r] == g[c][r]
    {
      assert samples[c][r] * 5.0 == g[c][r] as real;
    }
    forall c | 0 <= c < Size
      ensures g'[c] == g[c]
    {
    }
  }

  /** A cell edit that may also write outside the 32x32 window the renderer reads. */
  datatype Edit = Edit(grid: Grid, stray: Option<(int, int)>)

  /**
    Shift-click: decrements the cell when its column exists and its height
    is positive. A row outside the grid reads as `undefined`, which is not
    positive, so the edit is a no-op.
  */
  function Decrement(g: Grid, col: int, row: int): (g': Grid)
    requires ValidGrid(g)
    ensures ValidGrid(g') && OthersUnchanged(g, g', col, row)
    ensures InBounds(col) && InBounds(row) ==> g'[col][row] == Max(0, g[col][row] - 1)
    ensures !(InBounds(col) && InBounds(row)) ==> g' == g
  {
    if InBounds(col) && InBounds(row) && g[col][row] > 0 then
      g[col := g[col][row := g[col][row] - 1]]
    else
      g
  }

  /**
    Plain click: sets the cell to `min(4, h + 1)` when its column exists.
    Only the column is bounds-checked: with an existing column and a row
    outside [0, 32), the write lands on a slot the renderer never reads
    (and stores not-a-number there), which is returned as `stray`.
  */
  function Increment(g: Grid, col: int, row: int): (e: Edit)
    requires ValidGrid(g)
    ensures ValidGrid(e.grid) && OthersUnchanged(g, e.grid, col, row)
    ensures InBounds(col) && InBounds(row) ==> e.grid[col][row] == Min(MaxHeight, g[col][row] + 1) && e.stray == None
    ensures !(InBounds(col) && InBounds(row)) ==> e.grid == g
    ensures e.stray.Some? <==> InBounds(col) && !InBounds(row)
    ensures e.stray.Some? ==> e.stray.value == (col, row)
  {
    if !InBounds(col) then
      Edit(g, None)
    else if !InBounds(row) then
      Edit(g, Some((col, row)))
    else
      Edit(g[col := g[col][row := Min(MaxHeight, g[col][row] + 1)]], None)
  }

  /** The edit a click applies to cell (col, row): decrement with shift held, increment otherwise. */
  function ClickEdit(g: Grid, col: int, row: int, shift: bool): (e: Edit)
    requires ValidGrid(g)
    ensures ValidGrid(e.grid) && OthersUnchanged(g, e.grid, col, row)
    ensures shift ==> e == Edit(Decrement(g, col, row), None)
    ensures !shift ==> e == Increment(g, col, row)
  {
    if shift then Edit(Decrement(g, col, row), None) else Increment(g, col, row)
  }

  /** Below the ceiling, a decrement undoes an increment. */
  lemma DecrementUndoesIncrement(g: Grid, col: int, row: int)
    requires ValidGrid(g) && InBounds(col) && InBounds(row)
    requires g[col][row] < MaxHeight
    ensures Decrement(Increment(g, col, row).grid, col, row) == g
  {
    var g' := Decrement(Increment(g, col, row).grid, col, row);
    assert g'[col] == g[col];
  }

  /** Above the floor, an increment undoes a decrement. */
  lemma IncrementUndoesDecrement(g: Grid, col: int, row: int)
    requires ValidGrid(g) && InBounds(col) && InBounds(row)
    requires g[col][row] > 0
    ensures Increment(Decrement(g, col, row), col, row).grid == g
  {
    var g' := Increment(Decrement(g, col, row), col, row).grid;
    assert g'[col] == g[col];
  }

  function IncrementTimes(g: Grid, col: int, row: int, n: nat): (g': Grid)
    requires ValidGrid(g)
    ensures ValidGrid(g')
    decreases n
  {
    if n == 0 then g else IncrementTimes(Increment(g, col, row).grid, col, row, n - 1)
  }

  function DecrementTimes(g: Grid, col: int, row: int, n: nat): (g': Grid)
    requires ValidGrid(g)
    ensures ValidGrid(g')
    decreases n
  {
    if n == 0 then g else DecrementTimes(Decrement(g, col, row), col, row, n - 1)
  }

  /** `n` increments saturate at the ceiling and touch no other cell. */
  lemma {:induction false} IncrementTimesSaturates(g: Grid, col: int, row: int, n: nat)
    requires ValidGrid(g) && InBounds(col) && InBounds(row)
    ensures IncrementTimes(g, col, row, n)[col][row] == Min(MaxHeight, g[col][row] + n)
    ensures OthersUnchanged(g, IncrementTimes(g, col, row, n), col, row)
    decreases n
  {
    if n > 0 {
      var g1 := Increment(g, col, row).grid;
      IncrementTimesSaturates(g1, col, row, n - 1);
    }
  }

  /** `n` decrements stop at zero, never below, and touch no other cell. */
  lemma {:induction false} DecrementTimesFloors(g: Grid, col: int, row: int, n: nat)
    requires ValidGrid(g) && InBounds(col) && InBounds(row)
    ensures DecrementTimes(g, col, row, n)[col][row] == Max(0, g[col][row] - n)
    ensures OthersUnchanged(g, DecrementTimes(g, col, row, n), col, row)
    decreases n
  {
    if n > 0 {
      var g1 := Decrement(g, col, row);
      DecrementTimesFloors(g1, col, row, n - 1);
    }
  }

  /** From an empty cell, MaxHeight + 5 increments leave exactly MaxHeight. */
  lemma IncrementPastCeiling(g: Grid, col: int, row: int)
    requires ValidGrid(g) && InBounds(col) && InBounds(row) && g[col][row] == 0
    ensures IncrementTimes(g, col, row, MaxHeight + 5)[col][row] == MaxHeight
  {
    IncrementTimesSaturates(g, col, row, MaxHeight + 5);
  }

  /** Enough decrements empty any cell, whatever its height. */
  lemma DecrementToFloor(g: Grid, col: int, row: int, n: nat)
    requires ValidGrid(g) && InBounds(col) && InBounds(row) && n >= g[col][row]
    ensures DecrementTimes(g, col, row, n)[col][row] == 0
  {
    DecrementTimesFloors(g, col, row, n);
  }
}
