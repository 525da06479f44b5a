/**
 * The dungeon's tile grid and the tile-occupancy test used for movement
 * (static/js/game.js: the tile constants, the 28 x 40 tilemap and
 * checkTileCollision).
 */
module Tiles {
  import opened Wrappers

  const TileSize: int := 16
  const MapCols: int := 40
  const MapRows: int := 28
  /** Size of the whole map in world units (640 x 448). */
  const MapWidth: int := MapCols * TileSize
  const MapHeight: int := MapRows * TileSize

  /** Tile codes with a special role. */
  const Floor: int := 1
  const CheckeredFloor: int := 2
  const Spikes: int := 23
  const Torch: int := 24

  /** A rectangular grid of tile codes with the map's dimensions. */
  type Grid = g: seq<seq<int>> | |g| == MapRows && forall r | 0 <= r < |g| :: |g[r]| == MapCols
    witness seq(MapRows, _ => seq(MapCols, _ => 0))

  /** The game's map, row by row. */
  const Row0: seq<int> := [10, 11, 11, 11, 11, 11, 11, 11, 11, 11, 11, 11, 11, 11, 11, 11, 11, 11, 11, 11, 11, 11, 11, 11, 11, 11, 11, 11, 11, 11, 11, 11, 11, 11, 11, 11, 11, 11, 11, 12]
  const Row1: seq<int> := [13, 24, 24, 24, 24, 2, 2, 23, 23, 23, 23, 23, 2, 2, 2, 23, 23, 23, 2, 21, 21, 2, 23, 23, 23, 2, 2, 2, 23, 23, 23, 23, 23, 2, 2, 24, 24, 24, 24, 14]
  const Row2: seq<int> := [13, 24, 1, 1, 1, 1, 1, 1, 1, 1, 1, 1, 1, 1, 1, 1, 1, 1, 1, 1, 1, 1, 1, 1, 1, 1, 1, 1, 1, 1, 1, 1, 1, 1, 1, 1, 1, 1, 24, 14]
  const Row3: seq<int> := [13, 24, 1, 1, 1, 1, 1, 1, 1, 1, 1, 1, 1, 1, 1, 1, 1, 1, 1, 1, 1, 1, 1, 1, 1, 1, 1, 1, 1, 1, 1, 1, 1, 1, 1, 1, 1, 1, 24, 14]
  const Row4: seq<int> := [13, 24, 1, 1, 2, 2, 2, 2, 2, 2, 2, 2, 2, 2, 2, 2, 2, 2, 2, 2, 2, 2, 2, 2, 2, 2, 2, 2, 2, 2, 2, 2, 2, 2, 2, 2, 1, 1, 24, 14]
  const Row5: seq<int> := [13, 2, 1, 1, 2, 1, 1, 1, 1, 1, 1, 1, 1, 1, 1, 1, 1, 1, 1, 1, 1, 1, 1, 1, 1, 1, 1, 1, 1, 1, 1, 1, 1, 1, 1, 2, 1, 1, 2, 14]
  const Row6: seq<int> := [13, 2, 1, 1, 2, 1, 10, 11, 11, 11, 11, 11, 11, 11, 11, 11, 11, 1, 1, 1, 1, 1, 1, 11, 11, 11, 11, 11, 11, 11, 11, 11, 11, 12, 1, 2, 1, 1, 2, 14]
  const Row7: seq<int> := [13, 23, 1, 1, 2, 1, 13, 24, 24, 2, 2, 2, 2, 2, 2, 2, 2, 2, 2, 2, 2, 2, 2, 2, 2, 2, 2, 2, 2, 2, 2, 24, 24, 14, 1, 2, 1, 1, 23, 14]
  const Row8: seq<int> := [13, 23, 1, 1, 2, 1, 13, 24, 1, 1, 1, 1, 1, 1, 1, 1, 1, 1, 1, 1, 1, 1, 1, 1, 1, 1, 1, 1, 1, 1, 1, 1, 24, 14, 1, 2, 1, 1, 23, 14]
  const Row9: seq<int> := [13, 23, 1, 1, 2, 1, 13, 2, 1, 1, 1, 1, 1, 1, 1, 1, 1, 1, 1, 1, 1, 1, 1, 1, 1, 1, 1, 1, 1, 1, 1, 1, 2, 14, 1, 2, 1, 1, 23, 14]
  const Row10: seq<int> := [13, 2, 1, 1, 2, 1, 13, 2, 1, 1, 2, 2, 2, 2, 2, 2, 2, 2, 2, 2, 2, 2, 2, 2, 2, 2, 2, 2, 2, 2, 1, 1, 2, 14, 1, 2, 1, 1, 2, 14]
  const Row11: seq<int> := [13, 2, 1, 1, 2, 1, 13, 2, 1, 1, 2, 10, 11, 11, 11, 11, 11, 23, 23, 23, 23, 23, 23, 11, 11, 11, 11, 11, 12, 2, 1, 1, 2, 14, 1, 2, 1, 1, 2, 14]
  const Row12: seq<int> := [13, 23, 1, 1, 2, 1, 1, 2, 1, 1, 2, 13, 21, 21, 1, 1, 1, 1, 1, 1, 1, 1, 1, 1, 1, 1, 21, 21, 14, 2, 1, 1, 2, 1, 1, 2, 1, 1, 23, 14]
  const Row13: seq<int> := [13, 23, 1, 1, 2, 1, 1, 2, 1, 1, 2, 23, 2, 2, 2, 2, 2, 2, 2, 2, 2, 2, 2, 2, 2, 2, 2, 1, 23, 2, 1, 1, 2, 1, 1, 2, 1, 1, 23, 14]
  const Row14: seq<int> := [13, 23, 1, 1, 2, 1, 1, 2, 1, 1, 2, 23, 1, 2, 2, 2, 2, 2, 2, 2, 2, 2, 2, 2, 2, 2, 2, 1, 23, 2, 1, 1, 2, 1, 1, 2, 1, 1, 23, 14]
  const Row15: seq<int> := [13, 23, 1, 1, 2, 1, 1, 2, 1, 1, 2, 13, 21, 21, 1, 1, 1, 1, 1, 1, 1, 1, 1, 1, 1, 1, 21, 21, 14, 2, 1, 1, 2, 1, 1, 2, 1, 1, 23, 14]
  const Row16: seq<int> := [13, 2, 1, 1, 2, 1, 13, 2, 1, 1, 2, 15, 16, 16, 16, 16, 16, 23, 23, 23, 23, 23, 23, 16, 16, 16, 16, 16, 17, 2, 1, 1, 2, 14, 1, 2, 1, 1, 2, 14]
  const Row17: seq<int> := [13, 2, 1, 1, 2, 1, 13, 2, 1, 1, 2, 2, 2, 2, 2, 2, 2, 2, 2, 2, 2, 2, 2, 2, 2, 2, 2, 2, 2, 2, 1, 1, 2, 14, 1, 2, 1, 1, 2, 14]
  const Row18: seq<int> := [13, 23, 1, 1, 2, 1, 13, 2, 1, 1, 1, 1, 1, 1, 1, 1, 1, 1, 1, 1, 1, 1, 1, 1, 1, 1, 1, 1, 1, 1, 1, 1, 2, 14, 1, 2, 1, 1, 23, 14]
  const Row19: seq<int> := [13, 23, 1, 1, 2, 1, 13, 24, 1, 1, 1, 1, 1, 1, 1, 1, 1, 1, 1, 1, 1, 1, 1, 1, 1, 1, 1, 1, 1, 1, 1, 1, 24, 14, 1, 2, 1, 1, 23, 14]
  const Row20: seq<int> := [13, 23, 1, 1, 2, 1, 13, 24, 24, 2, 2, 2, 2, 2, 2, 2, 2, 2, 2, 2, 2, 2, 2, 2, 2, 2, 2, 2, 2, 2, 2, 24, 24, 14, 1, 2, 1, 1, 23, 14]
  const Row21: seq<int> := [13, 2, 1, 1, 2, 1, 15, 16, 16, 16, 16, 16, 16, 16, 16, 16, 16, 1, 1, 1, 1, 1, 1, 16, 16, 16, 16, 16, 16, 16, 16, 16, 16, 17, 1, 2, 1, 1, 2, 14]
  const Row22: seq<int> := [13, 2, 1, 1, 2, 1, 1, 1, 1, 1, 1, 1, 1, 1, 1, 1, 1, 1, 1, 1, 1, 1, 1, 1, 1, 1, 1, 1, 1, 1, 1, 1, 1, 1, 1, 2, 1, 1, 2, 14]
  const Row23: seq<int> := [13, 24, 1, 1, 2, 2, 2, 2, 2, 2, 2, 2, 2, 2, 2, 2, 2, 2, 2, 2, 2, 2, 2, 2, 2, 2, 2, 2, 2, 2, 2, 2, 2, 2, 2, 2, 1, 1, 24, 14]
  const Row24: seq<int> := [13, 24, 1, 1, 1, 1, 1, 1, 1, 1, 1, 1, 1, 1, 1, 1, 1, 1, 1, 1, 1, 1, 1, 1, 1, 1, 1, 1, 1, 1, 1, 1, 1, 1, 1, 1, 1, 1, 24, 14]
  const Row25: seq<int> := [13, 24, 1, 1, 1, 1, 1, 1, 1, 1, 1, 1, 1, 1, 1, 1, 1, 1, 1, 1, 1, 1, 1, 1, 1, 1, 1, 1, 1, 1, 1, 1, 1, 1, 1, 1, 1, 1, 24, 14]
  const Row26: seq<int> := [13, 24, 24, 24, 24, 2, 2, 23, 23, 23, 23, 23, 2, 2, 2, 23, 23, 23, 2, 21, 21, 2, 23, 23, 23, 2, 2, 2, 23, 23, 23, 23, 23, 2, 2, 24, 24, 24, 24, 14]
  const Row27: seq<int> := [15, 16, 16, 16, 16, 16, 16, 16, 16, 16, 16, 16, 16, 16, 16, 16, 16, 16, 16, 16, 16, 16, 16, 16, 16, 16, 16, 16, 16, 16, 16, 16, 16, 16, 16, 16, 16, 16, 16, 17]
  const Tilemap: Grid := [
    Row0, Row1, Row2, Row3, Row4, Row5, Row6, Row7, Row8, Row9, Row10, Row11, Row12, Row13, Row14, Row15, Row16, Row17, Row18, Row19, Row20, Row21, Row22, Row23, Row24, Row25, Row26, Row27]

  /** The collision class of a tile code: walls, chests and torches block; floors and spikes do not. */
  predicate IsSolidCode(code: int) {
    (code >= 10 && code != Spikes) || code == Torch
  }

  predicate InGrid(row: int, col: int) {
    0 <= row < MapRows && 0 <= col < MapCols
  }

  /** The code at a cell, or None (JavaScript's undefined) outside the grid. */
  function TileCode(grid: Grid, row: int, col: int): Option<int> {
    if InGrid(row, col) then Some(grid[row][col]) else None
  }

  /** A cell that blocks movement: inside the grid and holding a solid code. */
  predicate SolidCell(grid: Grid, row: int, col: int) {
    InGrid(row, col) && IsSolidCode(grid[row][col])
  }

  /** The index of the tile row or column that contains world coordinate v. */
  function CellOf(v: real): int {
    (v / TileSize as real).Floor
  }

  /**
   * The box at (x, y) of the given size covers tile rows CellOf(y) .. CellOf(y + height - 1)
   * and columns CellOf(x) .. CellOf(x + width - 1); it is blocked when one of those cells is solid.
   */
  predicate TileBoxBlocked(grid: Grid, x: real, y: real, width: real, height: real) {
    exists row, col |
      CellOf(y) <= row <= CellOf(y + height - 1.0) && CellOf(x) <= col <= CellOf(x + width - 1.0) ::
      SolidCell(grid, row, col)
  }

  /** checkTileCollision: scans the covered rows and columns and stops at the first solid in-grid cell. */
  method CheckTileCollision(grid: Grid, x: real, y: real, width: real, height: real) returns (hit: bool)
    ensures hit == TileBoxBlocked(grid, x, y, width, height)
  {
    var startCol, endCol := CellOf(x), CellOf(x + width - 1.0);
    var startRow, endRow := CellOf(y), CellOf(y + height - 1.0);
    var row := startRow;
    while row <= endRow
      invariant startRow <= row
      invariant forall r, c | startRow <= r < row && startCol <= c <= endCol :: !SolidCell(grid, r, c)
    {
      var col := startCol;
      while col <= endCol
        invariant startCol <= col
        invariant forall c | startCol <= c < col :: !SolidCell(grid, row, c)
      {
        if row >= 0 && row < MapRows && col >= 0 && col < MapCols {
          var tileId := grid[row][col];
          if (tileId >= 10 && tileId != 23) || tileId == 24 {
            assert SolidCell(grid, row, col);
            return true;
          }
        }
        col := col + 1;
      }
      row := row + 1;
    }
    return false;
  }

  /** Of the codes the tileset defines, exactly walls (10-17), chests (21) and torches (24) block. */
  lemma TilesetCollisionClasses()
    ensures !IsSolidCode(0) && !IsSolidCode(Floor) && !IsSolidCode(CheckeredFloor) && !IsSolidCode(Spikes)
    ensures forall code | 10 <= code <= 17 :: IsSolidCode(code)
    ensures IsSolidCode(21) && IsSolidCode(Torch)
  {
  }

  /** Cells outside the grid never block: a box wholly off the map is free. */
  lemma OffMapBoxIsFree(grid: Grid, x: real, y: real, width: real, height: real)
    requires x + width <= 0.0 || x >= MapWidth as real || y + height <= 0.0 || y >= MapHeight as real
    ensures !TileBoxBlocked(grid, x, y, width, height)
  {
  }

  /** A box exactly covering one tile is blocked iff that tile is solid. */
  lemma {:induction false} SingleTileBox(grid: Grid, row: int, col: int)
    ensures TileBoxBlocked(grid, (col * TileSize) as real, (row * TileSize) as real, TileSize as real, TileSize as real)
            <==> SolidCell(grid, row, col)
  {
    CellOfTile(col);
    CellOfTile(row);
  }

  /** The first and the last coordinate of tile k both lie in tile k. */
  lemma CellOfTile(k: int)
    ensures CellOf((k * TileSize) as real) == k
    ensures CellOf((k * TileSize) as real + TileSize as real - 1.0) == k
  {
    assert (k * TileSize) as real / TileSize as real == k as real;
    assert ((k * TileSize) as real + TileSize as real - 1.0) / TileSize as real == k as real + 15.0 / 16.0;
  }
}
