/**
 * Spawn placement of spawnEnemy: up to 100 random tile candidates inside the outer
 * wall ring, the first one on a floor tile whose 16 x 16 box is free of solid tiles,
 * or the fixed fallback tile (5, 5).
 */
module Spawning {
  import opened Wrappers
  import opened Tiles

  const MaxSpawnAttempts: int := 100
  /** The fallback spawn position: tile (5, 5). */
  const FallbackX: real := 80.0
  const FallbackY: real := 80.0

  /** The two Math.random() values one attempt draws, for the column and for the row. */
  datatype Draw = Draw(colRandom: real, rowRandom: real)

  /** A value Math.random() can return. */
  predicate IsRandom(r: real) {
    0.0 <= r < 1.0
  }

  /** A supply of random draws covering all attempts. */
  predicate ValidDraws(draws: seq<Draw>) {
    |draws| >= MaxSpawnAttempts &&
    forall i | 0 <= i < |draws| :: IsRandom(draws[i].colRandom) && IsRandom(draws[i].rowRandom)
  }

  /** Math.floor(Math.random() * (map_cols - 2) + 1) and its row counterpart. */
  function CandidateCol(d: Draw): int {
    (d.colRandom * (MapCols - 2) as real + 1.0).Floor
  }

  function CandidateRow(d: Draw): int {
    (d.rowRandom * (MapRows - 2) as real + 1.0).Floor
  }

  /** testX and testY: the candidate tile's top-left corner in world units. */
  function CandidateX(d: Draw): real {
    (CandidateCol(d) * TileSize) as real
  }

  function CandidateY(d: Draw): real {
    (CandidateRow(d) * TileSize) as real
  }

  /**
   * The acceptance test as spawnEnemy writes it: the tile under the candidate's corner holds
   * floor or checkered floor, and checkTileCollision finds no solid tile under a 16 x 16 box.
   */
  predicate FloorAndFree(grid: Grid, d: Draw) {
    var code := TileCode(grid, CellOf(CandidateY(d)), CellOf(CandidateX(d)));
    (code == Some(Floor) || code == Some(CheckeredFloor)) &&
    !TileBoxBlocked(grid, CandidateX(d), CandidateY(d), TileSize as real, TileSize as real)
  }

  /** The same test reduced to what it decides: the candidate tile is on the map and is floor. */
  predicate Acceptable(grid: Grid, d: Draw) {
    var row, col := CandidateRow(d), CandidateCol(d);
    InGrid(row, col) && (grid[row][col] == Floor || grid[row][col] == CheckeredFloor)
  }

  /**
   * The tile-collision half of the test is implied by the floor half: the box is exactly the
   * candidate tile, and floor tiles are not solid.
   */
  lemma {:induction false} AcceptableIffFloorAndFree(grid: Grid, d: Draw)
    ensures Acceptable(grid, d) <==> FloorAndFree(grid, d)
  {
    CellOfTile(CandidateCol(d));
    CellOfTile(CandidateRow(d));
    SingleTileBox(grid, CandidateRow(d), CandidateCol(d));
  }

  /** The position chosen from attempt k on: the first acceptable candidate, else the fallback. */
  function SpawnFrom(grid: Grid, draws: seq<Draw>, k: nat): (real, real)
    requires |draws| >= MaxSpawnAttempts
    decreases MaxSpawnAttempts - k
  {
    if k >= MaxSpawnAttempts then (FallbackX, FallbackY)
    else if Acceptable(grid, draws[k]) then (CandidateX(draws[k]), CandidateY(draws[k]))
    else SpawnFrom(grid, draws, k + 1)
  }

  /** The spawn position of spawnEnemy for a given supply of random draws. */
  function SpawnPoint(grid: Grid, draws: seq<Draw>): (real, real)
    requires |draws| >= MaxSpawnAttempts
  {
    SpawnFrom(grid, draws, 0)
  }

  /** Every supply of draws covers all spawn attempts. */
  predicate CoversAttempts(draws: seq<seq<Draw>>) {
    forall k | 0 <= k < |draws| :: |draws[k]| >= MaxSpawnAttempts
  }

  /** The spawn positions of successive spawnEnemy calls, one per supply of draws. */
  function SpawnPoints(grid: Grid, draws: seq<seq<Draw>>): (ps: seq<(real, real)>)
    requires CoversAttempts(draws)
    ensures |ps| == |draws|
  {
    if draws == [] then []
    else
      var init := draws[..|draws| - 1];
      assert forall k | 0 <= k < |init| :: init[k] == draws[k];
      SpawnPoints(grid, init) + [SpawnPoint(grid, draws[|draws| - 1])]
  }

  /** One more supply of draws adds its spawn position at the end. */
  lemma SpawnPointsSnoc(grid: Grid, draws: seq<seq<Draw>>, i: int)
    requires CoversAttempts(draws) && 0 <= i < |draws|
    ensures CoversAttempts(draws[..i]) && CoversAttempts(draws[..i + 1])
    ensures SpawnPoints(grid, draws[..i + 1]) == SpawnPoints(grid, draws[..i]) + [SpawnPoint(grid, draws[i])]
  {
    assert forall k | 0 <= k < i :: draws[..i][k] == draws[k];
    assert forall k | 0 <= k <= i :: draws[..i + 1][k] == draws[k];
    assert draws[..i + 1][..i] == draws[..i];
  }

  /** The k-th spawn position is the one spawnEnemy picks with the k-th supply. */
  lemma {:induction false} SpawnPointsAt(grid: Grid, draws: seq<seq<Draw>>, k: int)
    requires CoversAttempts(draws) && 0 <= k < |draws|
    ensures SpawnPoints(grid, draws)[k] == SpawnPoint(grid, draws[k])
  {
    var init := draws[..|draws| - 1];
    assert forall j | 0 <= j < |init| :: init[j] == draws[j];
    if k < |init| {
      SpawnPointsAt(grid, init, k);
    }
  }

  /**
   * The placement loop of spawnEnemy: it answers SpawnPoint, which is the first acceptable
   * candidate, or the fallback after 100 rejections (SpawnFromIsFirstAcceptable).
   */
  method FindSpawnPosition(grid: Grid, draws: seq<Draw>) returns (x: real, y: real)
    requires ValidDraws(draws)
    ensures (x, y) == SpawnPoint(grid, draws)
  {
    x, y := FallbackX, FallbackY;
    var attempts := 0;
    while attempts < MaxSpawnAttempts
      invariant 0 <= attempts <= MaxSpawnAttempts
      invariant x == FallbackX && y == FallbackY
      invariant SpawnFrom(grid, draws, attempts) == SpawnPoint(grid, draws)
    {
      var testX := CandidateX(draws[attempts]);
      var testY := CandidateY(draws[attempts]);
      var tileX, tileY := CellOf(testX), CellOf(testY);
      AcceptableIffFloorAndFree(grid, draws[attempts]);
      var code := TileCode(grid, tileY, tileX);
      if code == Some(Floor) || code == Some(CheckeredFloor) {
        var blocked := CheckTileCollision(grid, testX, testY, 16.0, 16.0);
        if !blocked {
          x, y := testX, testY;
          return;
        }
      }
      assert SpawnFrom(grid, draws, attempts) == SpawnFrom(grid, draws, attempts + 1);
      attempts := attempts + 1;
    }
  }

  /** SpawnPoint is the first acceptable candidate among the first 100, or the fallback. */
  lemma {:induction false} SpawnFromIsFirstAcceptable(grid: Grid, draws: seq<Draw>, k: nat)
    requires |draws| >= MaxSpawnAttempts && k <= MaxSpawnAttempts
    requires forall j | 0 <= j < k :: !Acceptable(grid, draws[j])
    ensures var (x, y) := SpawnFrom(grid, draws, k);
      || (exists i | k <= i < MaxSpawnAttempts ::
           && Acceptable(grid, draws[i]) && (forall j | 0 <= j < i :: !Acceptable(grid, draws[j]))
           && x == CandidateX(draws[i]) && y == CandidateY(draws[i]))
      || ((forall j | 0 <= j < MaxSpawnAttempts :: !Acceptable(grid, draws[j])) && x == FallbackX && y == FallbackY)
    decreases MaxSpawnAttempts - k
  {
    if k < MaxSpawnAttempts && !Acceptable(grid, draws[k]) {
      SpawnFromIsFirstAcceptable(grid, draws, k + 1);
    }
  }

  /** Candidates never fall on the outer ring of wall tiles. */
  lemma CandidateInsideOuterRing(d: Draw)
    requires IsRandom(d.colRandom) && IsRandom(d.rowRandom)
    ensures 1 <= CandidateCol(d) <= MapCols - 2 && 1 <= CandidateRow(d) <= MapRows - 2
  {
  }

  /** With draws from Math.random(), a candidate is acceptable exactly when its tile is floor. */
  lemma AcceptableIffFloorTile(grid: Grid, d: Draw)
    requires IsRandom(d.colRandom) && IsRandom(d.rowRandom)
    ensures Acceptable(grid, d) <==>
      grid[CandidateRow(d)][CandidateCol(d)] == Floor || grid[CandidateRow(d)][CandidateCol(d)] == CheckeredFloor
  {
    CandidateInsideOuterRing(d);
  }

  /** When the fallback tile is floor, every position chosen from attempt k on is on a floor tile. */
  lemma {:induction false} SpawnFromOnFloorTile(grid: Grid, draws: seq<Draw>, k: nat)
    requires |draws| >= MaxSpawnAttempts
    requires TileCode(grid, CellOf(FallbackY), CellOf(FallbackX)) == Some(Floor)
    ensures var (x, y) := SpawnFrom(grid, draws, k);
      TileCode(grid, CellOf(y), CellOf(x)) in {Some(Floor), Some(CheckeredFloor)}
    decreases MaxSpawnAttempts - k
  {
    if k < MaxSpawnAttempts {
      if Acceptable(grid, draws[k]) {
        CellOfTile(CandidateCol(draws[k]));
        CellOfTile(CandidateRow(draws[k]));
      } else {
        SpawnFromOnFloorTile(grid, draws, k + 1);
      }
    }
  }

  /** On the game's map every spawn position, the fallback included, is on a floor tile. */
  lemma SpawnPointOnFloor(draws: seq<Draw>)
    requires ValidDraws(draws)
    ensures var (x, y) := SpawnPoint(Tilemap, draws);
      TileCode(Tilemap, CellOf(y), CellOf(x)) in {Some(Floor), Some(CheckeredFloor)}
  {
    FallbackOnFloor();
    SpawnFromOnFloorTile(Tilemap, draws, 0);
  }

  /** The fallback tile (5, 5) of the game's map is floor. */
  lemma FallbackOnFloor()
    ensures TileCode(Tilemap, CellOf(FallbackY), CellOf(FallbackX)) == Some(Floor)
  {
    CellOfTile(5);
    assert Tilemap[5] == Row5;
  }
}
