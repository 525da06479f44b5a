/**
 * The eight facing directions, the keyboard intents the simulation reads, the
 * direction selection of updatePlayer and the axis-separated move commit shared by
 * updatePlayer and updateEnemies.
 */
module Movement {
  import opened Tiles

  datatype Direction = Up | Down | Left | Right | UpLeft | UpRight | DownLeft | DownRight

  /** Horizontal step sign: whether the direction's name includes 'left' or 'right'. */
  function Dx(d: Direction): int {
    match d
    case Left | UpLeft | DownLeft => -1
    case Right | UpRight | DownRight => 1
    case Up | Down => 0
  }

  /** Vertical step sign: whether the direction's name includes 'up' or 'down'. */
  function Dy(d: Direction): int {
    match d
    case Up | UpLeft | UpRight => -1
    case Down | DownLeft | DownRight => 1
    case Left | Right => 0
  }

  /** The input flags of one frame: four movement intents and the fire key. */
  datatype Input = Input(up: bool, down: bool, left: bool, right: bool, fire: bool)

  predicate Moving(input: Input) {
    input.up || input.down || input.left || input.right
  }

  /**
   * updatePlayer's direction selection: each pressed key in the order left, right, up,
   * down sets its direction, then the four diagonals override it in the order
   * up-right, up-left, down-right, down-left.
   */
  function Facing(current: Direction, input: Input): Direction {
    var d1 := if input.left then Left else current;
    var d2 := if input.right then Right else d1;
    var d3 := if input.up then Up else d2;
    var d4 := if input.down then Down else d3;
    var d5 := if input.up && input.right then UpRight else d4;
    var d6 := if input.up && input.left then UpLeft else d5;
    var d7 := if input.down && input.right then DownRight else d6;
    if input.down && input.left then DownLeft else d7
  }

  /** The candidate coordinate for one axis: minus speed for the first key, plus speed for the second. */
  function Target(v: real, minus: bool, plus: bool, speed: real): real {
    var v1 := if minus then v - speed else v;
    if plus then v1 + speed else v1
  }

  /**
   * The facing follows the keys: without a key it is kept; on each axis where exactly one
   * of the two keys is held, the facing points that way; and it never points along an axis
   * against the keys held on it.
   */
  lemma FacingFollowsKeys(current: Direction, input: Input)
    ensures !Moving(input) ==> Facing(current, input) == current
    ensures input.left && !input.right ==> Dx(Facing(current, input)) == -1
    ensures input.right && !input.left ==> Dx(Facing(current, input)) == 1
    ensures input.up && !input.down ==> Dy(Facing(current, input)) == -1
    ensures input.down && !input.up ==> Dy(Facing(current, input)) == 1
    ensures Moving(input) && Dx(Facing(current, input)) == -1 ==> input.left
    ensures Moving(input) && Dx(Facing(current, input)) == 1 ==> input.right
    ensures Moving(input) && Dy(Facing(current, input)) == -1 ==> input.up
    ensures Moving(input) && Dy(Facing(current, input)) == 1 ==> input.down
  {
  }

  /**
   * Axis-separated resolution: the x move is committed when the box at (newX, y) is free,
   * then the y move when the box at (committed x, newY) is free.
   */
  function Slide(grid: Grid, x: real, y: real, newX: real, newY: real, width: real, height: real): (real, real) {
    var x' := if !TileBoxBlocked(grid, newX, y, width, height) then newX else x;
    var y' := if !TileBoxBlocked(grid, x', newY, width, height) then newY else y;
    (x', y')
  }

  /**
   * Each coordinate ends at its old or its candidate value, and a coordinate only changes
   * when the box it moves into is free; so a box that starts clear of solid tiles stays clear.
   */
  lemma SlideKeepsClear(grid: Grid, x: real, y: real, newX: real, newY: real, width: real, height: real)
    ensures var (x', y') := Slide(grid, x, y, newX, newY, width, height);
      && (x' == x || x' == newX) && (y' == y || y' == newY)
      && (x' != x ==> !TileBoxBlocked(grid, newX, y, width, height))
      && (y' != y ==> !TileBoxBlocked(grid, x', newY, width, height))
      && (!TileBoxBlocked(grid, x, y, width, height) ==> !TileBoxBlocked(grid, x', y', width, height))
  {
  }
}
