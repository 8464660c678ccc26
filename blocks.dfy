/** The block grid: as many rows and columns of blocks as fit between the
    walls, above the paddle's area, laid out on a regular lattice. */
module Blocks {
  import opened Common
  import opened Resources
  import opened Walls

  const BLOCK_SIZE: Vec2 := Vec2(100.0, 30.0)
  const GAP_BETWEEN_PADDLE_AND_BLOCKS: real := 270.0
  const GAP_BETWEEN_BLOCKS: real := 5.0
  const GAP_BETWEEN_BLOCKS_AND_CEILING: real := 20.0
  const GAP_BETWEEN_BLOCKS_AND_SIDES: real := 20.0

  const I32_MIN: int := -0x8000_0000
  const I32_MAX: int := 0x7fff_ffff

  /** The `Block` marker component. */
  datatype Block = Block

  /** The components `spawn_blocks` gives each block entity (colour left out). */
  datatype BlockBundle = BlockBundle(transform: Transform, spriteSize: Vec2, block: Block, collider: Collider)

  /** Centre of the block in column 0, row 0. */
  function OffsetX(walls: Walls): real
  {
    walls.left + GAP_BETWEEN_BLOCKS_AND_SIDES + BLOCK_SIZE.x * 0.5
  }

  function OffsetY(walls: Walls): real
  {
    walls.bottom + GAP_BETWEEN_PADDLE_AND_BLOCKS + BLOCK_SIZE.y * 0.5
  }

  /** The width available to blocks between the side gaps. */
  function TotalWidth(walls: Walls): real
  {
    (walls.right - walls.left) - 2.0 * GAP_BETWEEN_BLOCKS_AND_SIDES
  }

  /** The height available to blocks between the paddle's area and the ceiling gap. */
  function TotalHeight(walls: Walls): real
  {
    (walls.top - walls.bottom) - GAP_BETWEEN_BLOCKS_AND_CEILING - GAP_BETWEEN_PADDLE_AND_BLOCKS
  }

  /** `as i32` applied to an already floored float: out-of-range values saturate. */
  function SaturateI32(n: int): int
  {
    if n < I32_MIN then I32_MIN else if n > I32_MAX then I32_MAX else n
  }

  /** The number of whole `pitch`-sized cells that fit in `space`, cast to i32. */
  function Fit(space: real, pitch: real): (n: int)
    requires pitch > 0.0
    ensures I32_MIN <= n <= I32_MAX
    ensures n > I32_MIN ==> n as real * pitch <= space
    ensures n < I32_MAX ==> space < (n + 1) as real * pitch
  {
    var q := (space / pitch).Floor;
    FloorScaled(space, pitch);
    SaturateI32(q)
  }

  /** Scaling the floor of a quotient back up brackets the dividend. */
  lemma FloorScaled(space: real, pitch: real)
    requires pitch > 0.0
    ensures (space / pitch).Floor as real * pitch <= space < ((space / pitch).Floor + 1) as real * pitch
  {
    var x := space / pitch;
    var f := x.Floor as real;
    var g := (x.Floor + 1) as real;
    assert x * pitch == space;
    assert f <= x < g;
    ScaleMonotone(f, x, pitch);
    ScaleStrict(x, g, pitch);
    assert space < g * pitch;
    assert g == ((space / pitch).Floor + 1) as real;
  }

  lemma ScaleMonotone(a: real, b: real, p: real)
    requires a <= b && p > 0.0
    ensures a * p <= b * p
  {
  }

  lemma ScaleStrict(a: real, b: real, p: real)
    requires a < b && p > 0.0
    ensures a * p < b * p
  {
  }

  /** `rows`: whole block heights (with their gap) in the available height. */
  function Rows(walls: Walls): int
  {
    Fit(TotalHeight(walls), BLOCK_SIZE.y + GAP_BETWEEN_BLOCKS)
  }

  /** `columns`: whole block widths (with their gap) in the available width. */
  function Columns(walls: Walls): int
  {
    Fit(TotalWidth(walls), BLOCK_SIZE.x + GAP_BETWEEN_BLOCKS)
  }

  /** How many blocks the two nested loops spawn. */
  function BlockCount(walls: Walls): nat
  {
    if Rows(walls) > 0 && Columns(walls) > 0 then Rows(walls) * Columns(walls) else 0
  }

  /** The centre of the block at (`row`, `column`). */
  function BlockCentre(walls: Walls, row: int, column: int): Vec3
  {
    Vec3(OffsetX(walls) + column as real * (BLOCK_SIZE.x + GAP_BETWEEN_BLOCKS),
         OffsetY(walls) + row as real * (BLOCK_SIZE.y + GAP_BETWEEN_BLOCKS),
         0.0)
  }

  /** The entity spawned for the cell (`row`, `column`). */
  function SpawnedAt(walls: Walls, row: int, column: int): BlockBundle
  {
    BlockBundle(AtTranslation(BlockCentre(walls, row, column)), BLOCK_SIZE, Block, Collider(BLOCK_SIZE))
  }

  /** Row-major numbering: cell (`row`, `column`) is entry `row * columns + column`. */
  lemma RowMajor(row: nat, column: nat, columns: nat)
    requires column < columns
    ensures (row * columns + column) / columns == row
    ensures (row * columns + column) % columns == column
  {
    var k := row * columns + column;
    var q := k / columns;
    if q < row {
      MulStep(q, row, columns);
      assert false;
    } else if q > row {
      MulStep(row, q, columns);
      assert false;
    }
  }

  /** A larger factor adds at least one more `c`. */
  lemma MulStep(a: nat, b: nat, c: nat)
    requires a < b
    ensures a * c + c <= b * c
  {
    var d: nat := b - a - 1;
    assert b * c == a * c + c + d * c;
  }

  /** `spawn_blocks`: one block per (row, column) cell, rows outermost. */
  method SpawnBlocks(walls: Walls) returns (blocks: seq<BlockBundle>)
    ensures |blocks| == BlockCount(walls)
    ensures forall k :: 0 <= k < |blocks| ==> blocks[k] == SpawnedAt(walls, k / Columns(walls), k % Columns(walls))
    ensures forall k :: 0 <= k < |blocks| ==>
              blocks[k].collider.size == Vec2(100.0, 30.0) && blocks[k].transform.translation.z == 0.0
  {
    var rows := Rows(walls);
    var columns := Columns(walls);
    var perRow: nat := if columns > 0 then columns else 0;
    blocks := [];
    var row := 0;
    while row < rows
      invariant 0 <= row && (row == 0 || row <= rows)
      invariant |blocks| == row * perRow
      invariant forall k :: 0 <= k < |blocks| ==> blocks[k] == SpawnedAt(walls, k / perRow, k % perRow)
    {
      var column := 0;
      while column < columns
        invariant 0 <= column && (column == 0 || column <= columns)
        invariant |blocks| == row * perRow + column
        invariant forall k :: 0 <= k < |blocks| ==> blocks[k] == SpawnedAt(walls, k / perRow, k % perRow)
      {
        RowMajor(row, column, perRow);
        blocks := blocks + [SpawnedAt(walls, row, column)];
        column := column + 1;
      }
      row := row + 1;
    }
  }

  /** Every cell of the grid is the block of exactly one entry of the spawned sequence. */
  lemma SpawnedCell(walls: Walls, row: nat, column: nat)
    requires row < Rows(walls) && column < Columns(walls)
    ensures row * Columns(walls) + column < BlockCount(walls)
    ensures (row * Columns(walls) + column) / Columns(walls) == row
    ensures (row * Columns(walls) + column) % Columns(walls) == column
  {
    var columns: nat := Columns(walls);
    RowMajor(row, column, columns);
    if row + 1 < Rows(walls) {
      MulStep(row + 1, Rows(walls), columns);
    }
    assert (row + 1) * columns == row * columns + columns;
  }

  /** The first block keeps the side gap from the left wall and the paddle gap from the bottom wall. */
  lemma FirstBlockGaps(walls: Walls)
    ensures BlockCentre(walls, 0, 0).x - BLOCK_SIZE.x * 0.5 == walls.left + 20.0
    ensures BlockCentre(walls, 0, 0).y - BLOCK_SIZE.y * 0.5 == walls.bottom + 270.0
  {
  }

  /** Neighbouring blocks are exactly one gap apart, horizontally and vertically. */
  lemma NeighbourGap(walls: Walls, row: int, column: int)
    ensures BlockCentre(walls, row, column + 1).x - BlockCentre(walls, row, column).x - BLOCK_SIZE.x == 5.0
    ensures BlockCentre(walls, row + 1, column).y - BlockCentre(walls, row, column).y - BLOCK_SIZE.y == 5.0
  {
  }

  /** Two different cells are at least one gap apart along some axis, so no two blocks overlap. */
  lemma BlocksDisjoint(walls: Walls, row1: int, column1: int, row2: int, column2: int)
    requires (row1, column1) != (row2, column2)
    ensures Abs(BlockCentre(walls, row1, column1).x - BlockCentre(walls, row2, column2).x) >= BLOCK_SIZE.x + 5.0
         || Abs(BlockCentre(walls, row1, column1).y - BlockCentre(walls, row2, column2).y) >= BLOCK_SIZE.y + 5.0
  {
    var a, b := BlockCentre(walls, row1, column1), BlockCentre(walls, row2, column2);
    if column1 != column2 {
      assert a.x - b.x == (column1 - column2) as real * 105.0;
    } else {
      assert a.y - b.y == (row1 - row2) as real * 35.0;
    }
  }

  /** Every spawned block lies between the side gaps and below the ceiling gap,
      and above the paddle's area. */
  lemma BlockWithinWalls(walls: Walls, row: nat, column: nat)
    requires row < Rows(walls) && column < Columns(walls)
    ensures BlockCentre(walls, row, column).x - BLOCK_SIZE.x * 0.5 >= walls.left + 20.0
    ensures BlockCentre(walls, row, column).x + BLOCK_SIZE.x * 0.5 <= walls.right - 20.0
    ensures BlockCentre(walls, row, column).y + BLOCK_SIZE.y * 0.5 <= walls.top - 20.0
    ensures BlockCentre(walls, row, column).y - BLOCK_SIZE.y * 0.5 >= walls.bottom + 270.0
  {
  }
}
