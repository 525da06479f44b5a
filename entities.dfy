/**
 * The simulation's entity records (player, enemy, player projectile, enemy fireball),
 * the boxes checkCollision sees for them, and the per-entity rules used by the passes:
 * creation (spawnEnemy's stats, handleProjectiles' push, createEnemyFireball) and the
 * per-step motion of projectiles and fireballs.
 */
module Entities {
  import opened Wrappers
  import opened Config
  import opened Geometry
  import opened Movement
  import opened Tiles

  /** The mutable fields of the player record (the fixed ones are in Config). */
  datatype Player = Player(
    x: real, y: real, health: int, invulnerable: bool,
    direction: Direction, moving: bool, frame: int)

  /** The player as checkCollision sees it: 48 x 64 scaled by 0.5. */
  function PlayerBox(p: Player): Box {
    Box(p.x, p.y, PlayerWidth, PlayerHeight, Some(PlayerScale))
  }

  /** The player's 24 x 32 box covers no solid tile. */
  predicate PlayerClear(grid: Grid, p: Player) {
    !TileBoxBlocked(grid, p.x, p.y, PlayerBoxWidth, PlayerBoxHeight)
  }

  /** An enemy; `round` is the round it was spawned in, which fixed its stats. */
  datatype Enemy = Enemy(
    x: real, y: real, width: real, height: real,
    health: int, maxHealth: int, lastShot: int, frame: real,
    speed: real, damage: int, round: int)

  function EnemyBox(e: Enemy): Box {
    Box(e.x, e.y, e.width, e.height, None)
  }

  /** The stats an enemy carries are those of the round it was spawned in. */
  predicate StatsOfItsRound(e: Enemy) {
    && e.round >= 1
    && e.width == EnemySize(e.round) && e.height == e.width
    && e.maxHealth == EnemyHealth(e.round) && e.health <= e.maxHealth
    && e.damage == EnemyDamage(e.round) && e.speed == EnemySpeed(e.round)
  }

  /** The enemy record spawnEnemy pushes at (x, y) in the given round (the sprite is not modelled). */
  function NewEnemy(round: int, x: real, y: real): (e: Enemy)
    requires round >= 1
    ensures StatsOfItsRound(e) && e.round == round && e.health == e.maxHealth
  {
    var size := EnemySize(round);
    var health := EnemyHealth(round);
    Enemy(x, y, size, size, health, health, 0, 0.0, EnemySpeed(round), EnemyDamage(round), round)
  }

  /** One enemy's movement for one step: the homing displacement, the shoot-range test and the aim. */
  datatype EnemyStep = EnemyStep(dx: real, dy: real, inRange: bool, aimX: real, aimY: real)

  /** The fraction truncation drops from q: q minus q rounded toward zero. */
  function Fraction(q: real): (f: real)
    ensures q >= 0.0 ==> 0.0 <= f < 1.0
    ensures q < 0.0 ==> -1.0 < f <= 0.0
    ensures (q - f).Floor as real == q - f
  {
    var t := if q >= 0.0 then q.Floor else -((-q).Floor);
    q - t as real
  }

  /**
   * JavaScript's `%` on numbers: the remainder of truncating division, m times the fraction
   * truncation drops from v / m. v minus the result is a whole multiple of m, and the result
   * has the sign of v and is smaller than m in size.
   */
  function JsRem(v: real, m: real): (r: real)
    requires m > 0.0
    ensures ((v - r) / m).Floor as real == (v - r) / m
    ensures v >= 0.0 ==> 0.0 <= r < m
    ensures v < 0.0 ==> -m < r <= 0.0
  {
    var q := v / m;
    var f := Fraction(q);
    SignOfQuotient(v, m, q);
    WholeRest(v, m, q, f);
    if q >= 0.0 then FractionBounds(m, f); m * f
    else NegativeFractionBounds(m, f); m * f
  }

  /** v / m has the sign of v when m is positive. */
  lemma SignOfQuotient(v: real, m: real, q: real)
    requires m > 0.0 && q == v / m
    ensures v >= 0.0 <==> q >= 0.0
  {
    assert m * q == v;
    if q < 0.0 {
      assert m * (-q) > 0.0;
    }
  }

  /** Taking m times a fraction f of q = v / m off v leaves m * (q - f). */
  lemma WholeRest(v: real, m: real, q: real, f: real)
    requires m > 0.0 && q == v / m
    ensures (v - m * f) / m == q - f
  {
    var w := q - f;
    assert m * q == v;
    assert v - m * f == m * w;
    assert (m * w) / m == w;
  }

  /** A fraction in [0, 1) of a positive m lies in [0, m). */
  lemma FractionBounds(m: real, d: real)
    requires m > 0.0 && 0.0 <= d < 1.0
    ensures 0.0 <= m * d < m
  {
    assert m * (1.0 - d) > 0.0;
  }

  /** A fraction in (-1, 0] of a positive m lies in (-m, 0]. */
  lemma NegativeFractionBounds(m: real, d: real)
    requires m > 0.0 && -1.0 < d <= 0.0
    ensures -m < m * d <= 0.0
  {
    FractionBounds(m, -d);
    assert m * (-d) == -(m * d);
  }

  /** A projectile fired by the player. */
  datatype Projectile = Projectile(
    x: real, y: real, width: real, height: real, speed: int,
    direction: Direction, frame: int, numFrames: Pos, weapon: int)

  function ProjectileBox(q: Projectile): Box {
    Box(q.x, q.y, q.width, q.height, None)
  }

  /** The projectile handleProjectiles pushes: centred on the player, flying the way the player faces. */
  function NewProjectile(p: Player, w: Weapon, round: int): Projectile {
    Projectile(
      p.x + PlayerBoxWidth / 2.0 - w.width as real / 2.0,
      p.y + PlayerBoxHeight / 2.0 - w.height as real / 2.0,
      w.width as real, w.height as real, w.speed, p.direction, 0, w.frames, round)
  }

  /** One step of flight along the projectile's direction. */
  function Fly(q: Projectile): Projectile {
    q.(x := q.x + (Dx(q.direction) * q.speed) as real, y := q.y + (Dy(q.direction) * q.speed) as real)
  }

  /** Outside the map by more than the entity's own size (the culling test of both projectile pools). */
  predicate OffMap(x: real, y: real, width: real, height: real) {
    x < -width || x > MapWidth as real || y < -height || y > MapHeight as real
  }

  /** A fireball shot by an enemy. */
  datatype Fireball = Fireball(
    x: real, y: real, width: real, height: real, dirX: real, dirY: real,
    speed: real, frame: int, numFrames: Pos, damage: int)

  function FireballBox(f: Fireball): Box {
    Box(f.x, f.y, f.width, f.height, None)
  }

  /** createEnemyFireball: centred on the enemy, half its contact damage, aimed along (aimX, aimY). */
  function FireballFrom(e: Enemy, aimX: real, aimY: real): Fireball {
    Fireball(
      e.x + e.width / 2.0 - FireballSize / 2.0, e.y + e.height / 2.0 - FireballSize / 2.0,
      FireballSize, FireballSize, aimX, aimY, FireballSpeed, 0, FireballFrames, e.damage / 2)
  }

  /** One step of a fireball along its fixed direction. */
  function Drift(f: Fireball): Fireball {
    f.(x := f.x + f.dirX * f.speed, y := f.y + f.dirY * f.speed)
  }
}
