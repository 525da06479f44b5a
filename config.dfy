/**
 * The game's tuning constants: the player record's fixed fields, enemyConfig with
 * its per-round multipliers, and WEAPON_CONFIG with the weapon lookup getCurrentWeapon.
 */
module Config {
  /** A positive count, such as a number of animation frames. */
  type Pos = n: int | n > 0 witness 1

  // The player's fixed fields.
  const PlayerWidth: real := 48.0
  const PlayerHeight: real := 64.0
  const PlayerScale: real := 0.5
  const PlayerSpeed: real := 3.0
  const PlayerFrames: Pos := 8
  const PlayerMaxHealth: int := 300
  /** Where init and resetGame put the player: tile (3, 7). */
  const PlayerStartX: real := 48.0
  const PlayerStartY: real := 112.0
  /** The player's box on screen and for tile collisions: 24 x 32. */
  const PlayerBoxWidth: real := PlayerWidth * PlayerScale
  const PlayerBoxHeight: real := PlayerHeight * PlayerScale

  // Damage the player takes and how long it is then protected (timer lengths in milliseconds).
  const SpikeDamage: int := 15
  const SpikeProtection: int := 1000
  const HitProtection: int := 500

  // enemyConfig.
  const SpawnInterval: int := 10000
  const BaseEnemySpeed: real := 1.5
  const BaseEnemyDamage: int := 20
  const BaseEnemyHealth: int := 100
  const ShootRange: real := 200.0
  const ShootCooldown: int := 2000
  const ScoreValue: int := 100
  const DragonsPerRound: int := 3
  const MaxRound: int := 3

  // The enemy fireball created by createEnemyFireball.
  const FireballSize: real := 32.0
  const FireballSpeed: real := 4.0
  const FireballFrames: Pos := 6

  /** Math.min(round, 3): the key into the per-round tables. */
  function Level(round: int): int {
    if round < MaxRound then round else MaxRound
  }

  /** dragonSizeMultiplier. */
  function SizeMultiplier(level: int): real
    requires 1 <= level <= MaxRound
  {
    if level == 1 then 1.0 else if level == 2 then 1.25 else 1.5
  }

  /** dragonDamageMultiplier (1.0, 1.5, 2.0), as a percentage. */
  function DamagePercent(level: int): int
    requires 1 <= level <= MaxRound
  {
    if level == 1 then 100 else if level == 2 then 150 else 200
  }

  /** dragonHealthMultiplier (1.0, 1.5, 2.0), as a percentage. */
  function HealthPercent(level: int): int
    requires 1 <= level <= MaxRound
  {
    if level == 1 then 100 else if level == 2 then 150 else 200
  }

  /** dragonScale in spawnEnemy: a per-round base (chosen on the raw round) times the size multiplier. */
  function DragonScale(round: int): real
    requires round >= 1
  {
    (if round == 1 then 1.0 else if round == 2 then 1.2 else 1.5) * SizeMultiplier(Level(round))
  }

  /** Side of a dragon spawned in the given round: 16, 24 and 36 world units. */
  function EnemySize(round: int): (size: real)
    requires round >= 1
    ensures round == 1 ==> size == 16.0
    ensures round == 2 ==> size == 24.0
    ensures round >= 3 ==> size == 36.0
  {
    16.0 * DragonScale(round)
  }

  /** Health of a dragon spawned in the given round: 100, 150 and 200. */
  function EnemyHealth(round: int): (health: int)
    requires round >= 1
    ensures health == 50 * (Level(round) + 1)
  {
    BaseEnemyHealth * HealthPercent(Level(round)) / 100
  }

  /** Contact damage of a dragon spawned in the given round: 20, 30 and 40, always even. */
  function EnemyDamage(round: int): (damage: int)
    requires round >= 1
    ensures damage == 10 * (Level(round) + 1)
    ensures damage % 2 == 0
  {
    BaseEnemyDamage * DamagePercent(Level(round)) / 100
  }

  /** Speed of a dragon spawned in the given round: ten percent more per round, not capped. */
  function EnemySpeed(round: int): real
    requires round >= 1
  {
    BaseEnemySpeed * (1.0 + (round - 1) as real * 0.1)
  }

  /** One entry of WEAPON_CONFIG (the sprite cache is not modelled). */
  datatype Weapon = Weapon(
    name: string, damage: int, speed: int, size: int,
    width: int, height: int, frameWidth: int, frameHeight: int, frames: Pos)

  function WeaponTable(level: int): Weapon
    requires 1 <= level <= MaxRound
  {
    if level == 1 then Weapon("Bullet", 25, 15, 32, 32, 32, 32, 32, 7)
    else if level == 2 then Weapon("Golden Arrow", 40, 18, 32, 32, 32, 32, 32, 8)
    else Weapon("Acidball", 60, 12, 32, 32, 32, 32, 32, 7)
  }

  /** getCurrentWeapon: the bullet in round 1, the golden arrow in round 2, the acidball from round 3 on. */
  function CurrentWeapon(round: int): (w: Weapon)
    requires round >= 1
    ensures w.damage == (if round == 1 then 25 else if round == 2 then 40 else 60)
    ensures w.width == 32 && w.height == 32
  {
    WeaponTable(Level(round))
  }

  /** Later rounds never weaken the weapon, and from round 3 on it no longer changes. */
  lemma WeaponProgression(r1: int, r2: int)
    requires 1 <= r1 <= r2
    ensures CurrentWeapon(r1).damage <= CurrentWeapon(r2).damage
    ensures r1 < r2 <= MaxRound ==> CurrentWeapon(r1).damage < CurrentWeapon(r2).damage
    ensures MaxRound <= r1 ==> CurrentWeapon(r1) == CurrentWeapon(r2)
  {
  }

  /** Dragons spawned in later rounds are larger, tougher and hit harder, up to round 3. */
  lemma EnemyProgression(r1: int, r2: int)
    requires 1 <= r1 < r2 <= MaxRound
    ensures EnemySize(r1) < EnemySize(r2)
    ensures EnemyHealth(r1) < EnemyHealth(r2)
    ensures EnemyDamage(r1) < EnemyDamage(r2)
  {
  }
}
