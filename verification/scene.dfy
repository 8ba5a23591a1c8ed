/**
  What one frame draws: the ordered list of cube placements `renderScene`
  hands to the rendering backend. A placement is a unit cube's model
  transform (a translation followed by a scale), its texture selector and
  its flat colour.
*/
module Scene {
  import opened Vectors
  import opened VoxelGrid

  /** RGBA with components in [0, 1]. */
  datatype Rgba = Rgba(r: real, g: real, b: real, a: real)

  datatype Placement = Placement(textureNum: int, color: Rgba, translate: Vec3, scale: Vec3)

  /** Texture selector values the fragment shader distinguishes. */
  const FlatColor: int := -2
  const SkyTexture: int := 0
  const BlockTexture: int := 1

  /** What the fragment shader paints for a texture selector. */
  datatype Shading = Flat | Sampler0 | Sampler1 | Magenta

  function Shade(textureNum: int): (s: Shading)
    ensures s == Flat <==> textureNum == FlatColor
    ensures s == Sampler0 <==> textureNum == SkyTexture
    ensures s == Sampler1 <==> textureNum == BlockTexture
    ensures s == Magenta <==> textureNum !in {FlatColor, SkyTexture, BlockTexture}
  {
    if textureNum == FlatColor then Flat
    else if textureNum == SkyTexture then Sampler0
    else if textureNum == BlockTexture then Sampler1
    else Magenta
  }

  /** A new cube's colour before anything sets it. */
  const White: Rgba := Rgba(1.0, 1.0, 1.0, 1.0)
  const Unit: Vec3 := Vec3(1.0, 1.0, 1.0)

  const Ground: Placement :=
    Placement(FlatColor, Rgba(0.2, 0.6, 0.2, 1.0), Vec3(0.0, -1.0, 0.0), Vec3(32.0, 0.1, 32.0))

  const Sky: Placement :=
    Placement(SkyTexture, White, Vec3(0.0, 0.0, 0.0), Vec3(1000.0, 1000.0, 1000.0))

  /** The frog: a body, two eyes and two pupils around (0, 0.5, 0), all flat-coloured. */
  const FrogCubes: seq<Placement> := [
    Placement(FlatColor, Rgba(0.0, 0.8, 0.0, 1.0), Vec3(0.0, 0.5, 0.0), Vec3(2.0, 1.0, 2.0)),
    Placement(FlatColor, White, Vec3(-0.6, 1.5, 0.8), Vec3(0.4, 0.4, 0.4)),
    Placement(FlatColor, White, Vec3(0.6, 1.5, 0.8), Vec3(0.4, 0.4, 0.4)),
    Placement(FlatColor, Rgba(0.0, 0.0, 0.0, 1.0), Vec3(-0.5, 1.6, 1.0), Vec3(0.2, 0.2, 0.2)),
    Placement(FlatColor, Rgba(0.0, 0.0, 0.0, 1.0), Vec3(0.5, 1.6, 1.0), Vec3(0.2, 0.2, 0.2))
  ]

  /** One unit of a stack: the cube at `level` of cell (col, row). */
  datatype Block = Block(col: int, row: int, level: int)

  /** Where a block is drawn: a textured unit cube with its corner at (col - 16, level, row - 16). */
  function Place(b: Block): Placement {
    Placement(BlockTexture, White, Vec3((b.col - 16) as real, b.level as real, (b.row - 16) as real), Unit)
  }

  /** Levels 0 .. h-1 of one cell, bottom first. */
  function Stack(col: int, row: int, h: int): seq<Block> {
    if h <= 0 then [] else seq(h, level => Block(col, row, level))
  }

  /** The cells of one column, `heights[0]` being row `row`, in row order. */
  function RowBlocks(heights: seq<int>, col: int, row: int): seq<Block>
    decreases |heights|
  {
    if |heights| == 0 then []
    else Stack(col, row, heights[0]) + RowBlocks(heights[1..], col, row + 1)
  }

  /** The columns of `cols`, `cols[0]` being column `col`, in column order. */
  function ColumnBlocks(cols: Grid, col: int): seq<Block>
    decreases |cols|
  {
    if |cols| == 0 then []
    else RowBlocks(cols[0], col, 0) + ColumnBlocks(cols[1..], col + 1)
  }

  /** The blocks of one frame, iterated column, then row, then level. */
  function BlockKeys(g: Grid): seq<Block>
    requires ValidGrid(g)
  {
    ColumnBlocks(g, 0)
  }

  /** The block cubes of one frame, in the order they are drawn. */
  function BlockCubes(g: Grid): seq<Placement>
    requires ValidGrid(g)
  {
    var keys := BlockKeys(g);
    seq(|keys|, i requires 0 <= i < |keys| => Place(keys[i]))
  }

  /**
    One frame: ground, sky, the blocks, then the frog; one placement per
    unit of height besides the seven fixed ones.
  */
  function RenderScene(g: Grid): (frame: seq<Placement>)
    requires ValidGrid(g)
    ensures |frame| == 2 + |BlockCubes(g)| + 5 && |BlockCubes(g)| == TotalHeight(g)
    ensures frame[0] == Ground && frame[1] == Sky
    ensures frame[2..|frame| - 5] == BlockCubes(g)
    ensures frame[|frame| - 5..] == FrogCubes
  {
    ColumnBlocksCount(g, 0);
    [Ground, Sky] + BlockCubes(g) + FrogCubes
  }

  // ---------------------------------------------------------------------
  // Count: one block per unit of height

  function Sum(s: seq<int>): int {
    if |s| == 0 then 0 else s[0] + Sum(s[1..])
  }

  /** All heights, column after column. */
  function Flatten(g: Grid): seq<int> {
    if |g| == 0 then [] else g[0] + Flatten(g[1..])
  }

  /** Σ heights over the whole grid. */
  function TotalHeight(g: Grid): int {
    Sum(Flatten(g))
  }

  lemma {:induction false} SumAppend(a: seq<int>, b: seq<int>)
    ensures Sum(a + b) == Sum(a) + Sum(b)
    decreases |a|
  {
    if |a| > 0 {
      assert (a + b)[0] == a[0];
      assert (a + b)[1..] == a[1..] + b;
      SumAppend(a[1..], b);
    } else {
      assert a + b == b;
    }
  }

  lemma {:induction false} RowBlocksCount(heights: seq<int>, col: int, row: int)
    requires forall i :: 0 <= i < |heights| ==> heights[i] >= 0
    ensures |RowBlocks(heights, col, row)| == Sum(heights)
    decreases |heights|
  {
    if |heights| > 0 {
      RowBlocksCount(heights[1..], col, row + 1);
    }
  }

  lemma {:induction false} ColumnBlocksCount(cols: Grid, col: int)
    requires forall c, r :: 0 <= c < |cols| && 0 <= r < |cols[c]| ==> cols[c][r] >= 0
    ensures |ColumnBlocks(cols, col)| == TotalHeight(cols)
    decreases |cols|
  {
    if |cols| > 0 {
      RowBlocksCount(cols[0], col, 0);
      ColumnBlocksCount(cols[1..], col + 1);
      SumAppend(cols[0], Flatten(cols[1..]));
    }
  }

  // ---------------------------------------------------------------------
  // Contents and order of the blocks

  /** Column first, then row, then level. */
  predicate Precedes(a: Block, b: Block) {
    || a.col < b.col
    || (a.col == b.col && a.row < b.row)
    || (a.col == b.col && a.row == b.row && a.level < b.level)
  }

  predicate Increasing(s: seq<Block>) {
    forall i, j :: 0 <= i < j < |s| ==> Precedes(s[i], s[j])
  }

  /** `b` lies at a level below the height of a cell of `g`. */
  predicate Occupied(g: Grid, b: Block)
    requires ValidGrid(g)
  {
    InBounds(b.col) && InBounds(b.row) && 0 <= b.level < g[b.col][b.row]
  }

  lemma IncreasingAppend(a: seq<Block>, b: seq<Block>)
    requires Increasing(a) && Increasing(b)
    requires forall i, j :: 0 <= i < |a| && 0 <= j < |b| ==> Precedes(a[i], b[j])
    ensures Increasing(a + b)
  {
  }

  lemma StackFacts(col: int, row: int, h: int)
    ensures Increasing(Stack(col, row, h))
    ensures forall b :: b in Stack(col, row, h) <==> b.col == col && b.row == row && 0 <= b.level < h
  {
    var s := Stack(col, row, h);
    forall b: Block | b.col == col && b.row == row && 0 <= b.level < h
      ensures b in s
    {
      assert s[b.level] == b;
    }
  }

  /** The blocks of a column's rows: in order, and exactly the levels below each height. */
  lemma {:induction false} RowBlocksFacts(heights: seq<int>, col: int, row: int)
    ensures Increasing(RowBlocks(heights, col, row))
    ensures forall b :: b in RowBlocks(heights, col, row) <==>
      b.col == col && row <= b.row < row + |heights| && 0 <= b.level < heights[b.row - row]
    decreases |heights|
  {
    if |heights| > 0 {
      var s := Stack(col, row, heights[0]);
      var rest := RowBlocks(heights[1..], col, row + 1);
      StackFacts(col, row, heights[0]);
      RowBlocksFacts(heights[1..], col, row + 1);
      forall i, j | 0 <= i < |s| && 0 <= j < |rest|
        ensures Precedes(s[i], rest[j])
      {
        assert s[i] in s;
        assert rest[j] in rest;
      }
      IncreasingAppend(s, rest);
    }
  }

  /** The blocks of a run of columns come in order, all in column `col` or later. */
  lemma {:induction false} ColumnBlocksOrdered(cols: Grid, col: int)
    ensures Increasing(ColumnBlocks(cols, col))
    ensures forall b :: b in ColumnBlocks(cols, col) ==> col <= b.col
    decreases |cols|
  {
    if |cols| > 0 {
      var s := RowBlocks(cols[0], col, 0);
      var rest := ColumnBlocks(cols[1..], col + 1);
      RowBlocksFacts(cols[0], col, 0);
      ColumnBlocksOrdered(cols[1..], col + 1);
      forall i, j | 0 <= i < |s| && 0 <= j < |rest|
        ensures Precedes(s[i], rest[j])
      {
        assert s[i] in s;
        assert rest[j] in rest;
      }
      IncreasingAppend(s, rest);
    }
  }

  /** `b` lies below the height of a cell of the run of columns `cols`, whose first column is `col`. */
  predicate InRun(cols: Grid, col: int, b: Block) {
    && col <= b.col < col + |cols|
    && 0 <= b.row < |cols[b.col - col]|
    && 0 <= b.level < cols[b.col - col][b.row]
  }

  /** The blocks of a run of columns are exactly the levels below each height. */
  lemma {:induction false} ColumnBlocksMembers(cols: Grid, col: int)
    ensures forall b :: b in ColumnBlocks(cols, col) <==> InRun(cols, col, b)
    decreases |cols|
  {
    if |cols| > 0 {
      var s := RowBlocks(cols[0], col, 0);
      var tail := cols[1..];
      RowBlocksFacts(cols[0], col, 0);
      ColumnBlocksMembers(tail, col + 1);
      forall b
        ensures b in ColumnBlocks(cols, col) <==> InRun(cols, col, b)
      {
        if b.col == col {
          assert !InRun(tail, col + 1, b);
        } else {
          assert b !in s;
          assert InRun(cols, col, b) <==> InRun(tail, col + 1, b);
        }
      }
    }
  }

  /**
    The blocks of a frame are exactly the levels below the height of each
    cell, each once, in column, then row, then level order.
  */
  lemma BlockKeysExact(g: Grid)
    requires ValidGrid(g)
    ensures Increasing(BlockKeys(g))
    ensures forall b :: b in BlockKeys(g) <==> Occupied(g, b)
  {
    ColumnBlocksOrdered(g, 0);
    ColumnBlocksMembers(g, 0);
    forall b
      ensures InRun(g, 0, b) <==> Occupied(g, b)
    {
    }
  }

  /** The block cubes are each block placed as a textured unit cube at (col - 16, level, row - 16), in the same order. */
  lemma BlockCubesPlaced(g: Grid)
    requires ValidGrid(g)
    ensures |BlockCubes(g)| == |BlockKeys(g)|
    ensures forall i :: 0 <= i < |BlockCubes(g)| ==>
      var p, b := BlockCubes(g)[i], BlockKeys(g)[i];
      && p.textureNum == BlockTexture && p.scale == Vec3(1.0, 1.0, 1.0)
      && p.translate == Vec3((b.col - 16) as real, b.level as real, (b.row - 16) as real)
  {
  }

  /** Is `p` the block at some level below the height of some cell of `g`? */
  ghost predicate IsBlockOf(g: Grid, p: Placement)
    requires ValidGrid(g)
  {
    exists b :: Occupied(g, b) && p == Place(b)
  }

  /**
    The drawn block cubes are exactly one textured unit cube at
    (col - 16, level, row - 16) for each cell and each level below its
    height, with no repeats.
  */
  lemma BlockCubesExact(g: Grid)
    requires ValidGrid(g)
    ensures forall p :: p in BlockCubes(g) <==> IsBlockOf(g, p)
    ensures forall i, j :: 0 <= i < j < |BlockCubes(g)| ==> BlockCubes(g)[i] != BlockCubes(g)[j]
  {
    var keys := BlockKeys(g);
    var cubes := BlockCubes(g);
    BlockKeysExact(g);
    forall p | p in cubes
      ensures IsBlockOf(g, p)
    {
      var i :| 0 <= i < |cubes| && cubes[i] == p;
      assert keys[i] in keys;
    }
    forall p | IsBlockOf(g, p)
      ensures p in cubes
    {
      var b :| Occupied(g, b) && p == Place(b);
      var i :| 0 <= i < |keys| && keys[i] == b;
      assert cubes[i] == p;
    }
    forall i, j | 0 <= i < j < |cubes|
      ensures cubes[i] != cubes[j]
    {
      assert Precedes(keys[i], keys[j]);
    }
  }

  /** Every block is drawn with the block texture. */
  lemma BlocksUseBlockTexture(g: Grid)
    requires ValidGrid(g)
    ensures forall p :: p in BlockCubes(g) ==> p.textureNum == BlockTexture
  {
  }

  /** Texture selectors the fragment shader handles without falling back to magenta. */
  predicate Shaded(p: Placement) {
    Shade(p.textureNum) != Magenta
  }

  /** No placement of a frame reaches the shader's magenta fallback. */
  lemma SceneNeverMagenta(g: Grid)
    requires ValidGrid(g)
    ensures forall p :: p in RenderScene(g) ==> Shaded(p)
  {
    BlocksUseBlockTexture(g);
    FrogIsFlat();
    ShadedParts(Ground, Sky, BlockCubes(g), FrogCubes);
  }

  lemma ShadedParts(ground: Placement, sky: Placement, blocks: seq<Placement>, frog: seq<Placement>)
    requires Shaded(ground) && Shaded(sky)
    requires forall p :: p in blocks ==> p.textureNum == BlockTexture
    requires forall p :: p in frog ==> p.textureNum == FlatColor
    ensures forall p :: p in [ground, sky] + blocks + frog ==> Shaded(p)
  {
  }

  lemma FrogIsFlat()
    ensures |FrogCubes| == 5
    ensures forall p :: p in FrogCubes ==> p.textureNum == FlatColor
  {
  }
}
