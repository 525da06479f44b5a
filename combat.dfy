/**
 * Reference definitions for the passes of the frame update that walk an array from its
 * last index down and splice as they go: the projectile-enemy collision pass, the culling
 * of the player's projectiles, the enemy fireball pass and the per-enemy part of
 * updateEnemies. Each is a function of the pass's starting values; the imperative passes
 * in module Game are proved to compute them.
 */
module Combat {
  import opened Wrappers
  import opened Config
  import opened Geometry
  import opened Tiles
  import opened Movement
  import opened Entities

  // ---------------------------------------------------------------------------------
  // handleProjectileCollisions

  /** Whether the projectile's box overlaps the enemy's. */
  predicate Strikes(q: Projectile, e: Enemy) {
    Overlaps(ProjectileBox(q), EnemyBox(e))
  }

  /** The inner scan: the highest-indexed enemy the projectile overlaps, or -1. */
  function LastHit(q: Projectile, es: seq<Enemy>): (r: int)
    ensures -1 <= r < |es|
    ensures r >= 0 ==> Strikes(q, es[r])
    ensures forall j | r < j < |es| :: !Strikes(q, es[j])
  {
    if es == [] then -1
    else if Strikes(q, es[|es| - 1]) then |es| - 1
    else LastHit(q, es[..|es| - 1])
  }

  /** The same enemies, except possibly for their health. */
  predicate SameButHealth(a: seq<Enemy>, b: seq<Enemy>) {
    |a| == |b| && forall j | 0 <= j < |a| :: b[j] == a[j].(health := b[j].health)
  }

  /** enemies[j].health -= dmg. */
  function Damage(es: seq<Enemy>, j: int, dmg: int): (r: seq<Enemy>)
    requires 0 <= j < |es|
    ensures SameButHealth(es, r)
    ensures r[j].health == es[j].health - dmg
    ensures forall k | 0 <= k < |es| && k != j :: r[k] == es[k]
  {
    es[j := es[j].(health := es[j].health - dmg)]
  }

  /**
   * The whole pass on the starting projectiles and enemies: projectiles are taken from the
   * last to the first (so the recursion handles the tail first); a projectile that strikes
   * an enemy damages the last one it strikes and is dropped, the others are kept.
   */
  function ResolveHits(ps: seq<Projectile>, es: seq<Enemy>, dmg: int): (r: (seq<Projectile>, seq<Enemy>))
    ensures |r.0| <= |ps| && |r.1| == |es|
    decreases |ps|
  {
    if ps == [] then ([], es)
    else
      var (kept, es1) := ResolveHits(ps[1..], es, dmg);
      var h := LastHit(ps[0], es1);
      if h >= 0 then (kept, Damage(es1, h, dmg)) else ([ps[0]] + kept, es1)
  }

  /** The projectiles that strike no enemy, in their original order. */
  function Misses(ps: seq<Projectile>, es: seq<Enemy>): seq<Projectile> {
    if ps == [] then []
    else (if LastHit(ps[0], es) == -1 then [ps[0]] else []) + Misses(ps[1..], es)
  }

  /** How many of the projectiles have enemy j as the last enemy they strike. */
  function HitsOn(ps: seq<Projectile>, es: seq<Enemy>, j: int): nat {
    if ps == [] then 0
    else (if LastHit(ps[0], es) == j then 1 else 0) + HitsOn(ps[1..], es, j)
  }

  /** Health does not enter the overlap test, so damage never redirects a later projectile. */
  lemma {:induction false} LastHitIgnoresHealth(q: Projectile, a: seq<Enemy>, b: seq<Enemy>)
    requires SameButHealth(a, b)
    ensures LastHit(q, a) == LastHit(q, b)
    decreases |a|
  {
    if a != [] {
      assert EnemyBox(a[|a| - 1]) == EnemyBox(b[|b| - 1]);
      LastHitIgnoresHealth(q, a[..|a| - 1], b[..|b| - 1]);
    }
  }

  /** The pass only ever changes enemies' health. */
  lemma {:induction false} ResolveHitsOnlyDamages(ps: seq<Projectile>, es: seq<Enemy>, dmg: int)
    ensures SameButHealth(es, ResolveHits(ps, es, dmg).1)
    decreases |ps|
  {
    if ps != [] {
      ResolveHitsOnlyDamages(ps[1..], es, dmg);
      var (kept, es1) := ResolveHits(ps[1..], es, dmg);
      var h := LastHit(ps[0], es1);
      if h >= 0 {
        var es2 := Damage(es1, h, dmg);
        forall j | 0 <= j < |es| ensures es2[j] == es[j].(health := es2[j].health) {
          assert es1[j] == es[j].(health := es1[j].health);
        }
      }
    }
  }

  /** The projectiles the pass keeps are exactly those that strike no enemy, in their original order. */
  lemma {:induction false} ResolveHitsKeepsMisses(ps: seq<Projectile>, es: seq<Enemy>, dmg: int)
    ensures ResolveHits(ps, es, dmg).0 == Misses(ps, es)
    decreases |ps|
  {
    if ps != [] {
      ResolveHitsKeepsMisses(ps[1..], es, dmg);
      ResolveHitsOnlyDamages(ps[1..], es, dmg);
      LastHitIgnoresHealth(ps[0], es, ResolveHits(ps[1..], es, dmg).1);
    }
  }

  /** Each enemy loses dmg once for every projectile whose last struck enemy it is. */
  lemma {:induction false} ResolveHitsDamage(ps: seq<Projectile>, es: seq<Enemy>, dmg: int)
    ensures forall j | 0 <= j < |es| ::
      ResolveHits(ps, es, dmg).1[j].health == es[j].health - dmg * HitsOn(ps, es, j)
    decreases |ps|
  {
    if ps != [] {
      ResolveHitsDamage(ps[1..], es, dmg);
      ResolveHitsOnlyDamages(ps[1..], es, dmg);
      var es1 := ResolveHits(ps[1..], es, dmg).1;
      LastHitIgnoresHealth(ps[0], es, es1);
      var h := LastHit(ps[0], es1);
      var es2 := ResolveHits(ps, es, dmg).1;
      assert es2 == if h >= 0 then Damage(es1, h, dmg) else es1;
      forall j | 0 <= j < |es|
        ensures es2[j].health == es[j].health - dmg * HitsOn(ps, es, j)
      {
        var n := HitsOn(ps[1..], es, j);
        assert es1[j].health == es[j].health - dmg * n;
        if h == j {
          assert HitsOn(ps, es, j) == n + 1;
          assert dmg * (n + 1) == dmg * n + dmg;
        } else {
          assert HitsOn(ps, es, j) == n;
        }
      }
    }
  }

  /** With non-negative damage the pass never raises an enemy's health. */
  lemma {:induction false} ResolveHitsNeverHeals(ps: seq<Projectile>, es: seq<Enemy>, dmg: int)
    requires dmg >= 0
    ensures forall j | 0 <= j < |es| :: ResolveHits(ps, es, dmg).1[j].health <= es[j].health
    decreases |ps|
  {
    if ps != [] {
      ResolveHitsNeverHeals(ps[1..], es, dmg);
    }
  }

  /** Every projectile strikes at most one enemy: the hits land once per projectile that hits. */
  lemma {:induction false} EachProjectileHitsAtMostOnce(ps: seq<Projectile>, es: seq<Enemy>, j: int, k: int)
    requires 0 <= j < k < |es|
    ensures HitsOn(ps, es, j) + HitsOn(ps, es, k) + |Misses(ps, es)| <= |ps|
    decreases |ps|
  {
    if ps != [] {
      EachProjectileHitsAtMostOnce(ps[1..], es, j, k);
    }
  }

  // ---------------------------------------------------------------------------------
  // handleProjectiles: flight and culling of the player's projectiles

  /**
   * One projectile's step: fly; dropped when its box then touches a solid tile; otherwise
   * its frame advances, and it is dropped when it has left the map.
   */
  function AdvanceProjectile(grid: Grid, q: Projectile): (r: Option<Projectile>)
    ensures r.Some? ==>
      && !TileBoxBlocked(grid, r.value.x, r.value.y, r.value.width, r.value.height)
      && !OffMap(r.value.x, r.value.y, r.value.width, r.value.height)
      && r.value == Fly(q).(frame := (q.frame + 1) % q.numFrames)
    ensures r.None? <==>
      TileBoxBlocked(grid, Fly(q).x, Fly(q).y, q.width, q.height) || OffMap(Fly(q).x, Fly(q).y, q.width, q.height)
  {
    var g := Fly(q);
    if TileBoxBlocked(grid, g.x, g.y, g.width, g.height) then None
    else
      var g' := g.(frame := (g.frame + 1) % g.numFrames);
      if OffMap(g'.x, g'.y, g'.width, g'.height) then None else Some(g')
  }

  /** The projectiles after one step of the pool, in their original order. */
  function CullProjectiles(grid: Grid, ps: seq<Projectile>): seq<Projectile> {
    if ps == [] then []
    else
      var rest := CullProjectiles(grid, ps[1..]);
      match AdvanceProjectile(grid, ps[0])
      case Some(q) => [q] + rest
      case None => rest
  }

  /** Every projectile left in the pool is clear of solid tiles and on the map; none is added. */
  lemma {:induction false} CulledProjectilesInBounds(grid: Grid, ps: seq<Projectile>)
    ensures |CullProjectiles(grid, ps)| <= |ps|
    ensures forall q | q in CullProjectiles(grid, ps) ::
      !TileBoxBlocked(grid, q.x, q.y, q.width, q.height) && !OffMap(q.x, q.y, q.width, q.height)
  {
    if ps != [] {
      CulledProjectilesInBounds(grid, ps[1..]);
    }
  }

  /** Culling works projectile by projectile, so it distributes over concatenation. */
  lemma {:induction false} CullProjectilesAppend(grid: Grid, a: seq<Projectile>, b: seq<Projectile>)
    ensures CullProjectiles(grid, a + b) == CullProjectiles(grid, a) + CullProjectiles(grid, b)
    decreases |a|
  {
    if a == [] {
      assert a + b == b;
    } else {
      assert (a + b)[0] == a[0] && (a + b)[1..] == a[1..] + b;
      CullProjectilesAppend(grid, a[1..], b);
    }
  }

  // ---------------------------------------------------------------------------------
  // updateEnemyProjectiles

  /** One fireball's step when it does not hit the player: drift, then drop on a wall or off the map. */
  function AdvanceFireball(grid: Grid, f: Fireball): (r: Option<Fireball>)
    ensures r.Some? ==>
      && !TileBoxBlocked(grid, r.value.x, r.value.y, r.value.width, r.value.height)
      && !OffMap(r.value.x, r.value.y, r.value.width, r.value.height)
      && r.value == Drift(f).(frame := (f.frame + 1) % f.numFrames)
    ensures r.None? <==>
      TileBoxBlocked(grid, Drift(f).x, Drift(f).y, f.width, f.height) || OffMap(Drift(f).x, Drift(f).y, f.width, f.height)
  {
    var g := Drift(f);
    if TileBoxBlocked(grid, g.x, g.y, g.width, g.height) then None
    else
      var g' := g.(frame := (g.frame + 1) % g.numFrames);
      if OffMap(g'.x, g'.y, g'.width, g'.height) then None else Some(g')
  }

  /** The fireballs that survive their step, in their original order. */
  function CullFireballs(grid: Grid, fs: seq<Fireball>): seq<Fireball> {
    if fs == [] then []
    else
      var rest := CullFireballs(grid, fs[1..]);
      match AdvanceFireball(grid, fs[0])
      case Some(f) => [f] + rest
      case None => rest
  }

  predicate Scorches(f: Fireball, target: Box) {
    Overlaps(FireballBox(Drift(f)), target)
  }

  /**
   * The whole fireball pass against the player's box, taken from the last fireball to the
   * first: while `armed` (the player is not invulnerable) the first fireball met that
   * overlaps the player after drifting is the hit and is removed; after that the player is
   * invulnerable, so the remaining fireballs only drift and are culled.
   */
  function ShotsPass(grid: Grid, fs: seq<Fireball>, target: Box, armed: bool): (r: (seq<Fireball>, Option<Fireball>))
    decreases |fs|
  {
    if fs == [] then ([], None)
    else
      var (kept, hit) := ShotsPass(grid, fs[1..], target, armed);
      if armed && hit.None? && Scorches(fs[0], target) then (kept, Some(Drift(fs[0])))
      else match AdvanceFireball(grid, fs[0])
        case Some(g) => ([g] + kept, hit)
        case None => (kept, hit)
  }

  /** ShotsPass of the suffix from index i, unfolded once. */
  lemma ShotsPassAt(grid: Grid, fs: seq<Fireball>, i: int, target: Box, armed: bool)
    requires 0 <= i < |fs|
    ensures var (kept, hit) := ShotsPass(grid, fs[i + 1..], target, armed);
      ShotsPass(grid, fs[i..], target, armed) ==
        if armed && hit.None? && Scorches(fs[i], target) then (kept, Some(Drift(fs[i])))
        else match AdvanceFireball(grid, fs[i])
          case Some(g) => ([g] + kept, hit)
          case None => (kept, hit)
  {
    assert fs[i..][0] == fs[i] && fs[i..][1..] == fs[i + 1..];
  }

  /** The highest-indexed fireball that reaches the target after drifting, or -1. */
  function LastScorch(fs: seq<Fireball>, target: Box): (r: int)
    ensures -1 <= r < |fs|
    ensures r >= 0 ==> Scorches(fs[r], target)
    ensures forall j | r < j < |fs| :: !Scorches(fs[j], target)
  {
    if fs == [] then -1
    else
      var rest := LastScorch(fs[1..], target);
      if rest >= 0 then rest + 1
      else if Scorches(fs[0], target) then 0
      else -1
  }

  /**
   * The pass in closed form: there is a hit exactly when armed and some fireball reaches the
   * player; the hit is then the highest-indexed such fireball, and the pool is the culling of
   * all the others; without a hit the pool is the plain culling.
   */
  lemma {:induction false} ShotsPassSpec(grid: Grid, fs: seq<Fireball>, target: Box, armed: bool)
    ensures var (kept, hit) := ShotsPass(grid, fs, target, armed);
      var i := LastScorch(fs, target);
      && (hit.Some? <==> armed && i >= 0)
      && (hit.Some? ==> hit.value == Drift(fs[i]) && kept == CullFireballs(grid, fs[..i]) + CullFireballs(grid, fs[i + 1..]))
      && (hit.None? ==> kept == CullFireballs(grid, fs))
    decreases |fs|
  {
    if fs != [] {
      ShotsPassSpec(grid, fs[1..], target, armed);
      var i := LastScorch(fs[1..], target);
      if armed && i >= 0 {
        assert fs[..i + 1][1..] == fs[1..][..i];
        assert fs[i + 2..] == fs[1..][i + 1..];
        assert fs[..i + 1][0] == fs[0];
      } else if armed && Scorches(fs[0], target) {
        assert fs[..0] == [] && fs[0 + 1..] == fs[1..];
      }
    }
  }

  /** Mid-cooldown (not armed) nothing hits the player: the pass is the plain culling. */
  lemma {:induction false} UnarmedShotsOnlyDrift(grid: Grid, fs: seq<Fireball>, target: Box)
    ensures ShotsPass(grid, fs, target, false) == (CullFireballs(grid, fs), None)
    decreases |fs|
  {
    if fs != [] {
      UnarmedShotsOnlyDrift(grid, fs[1..], target);
    }
  }

  // ---------------------------------------------------------------------------------
  // updateEnemies

  /** The enemy after its homing move, committed axis by axis against the tiles. */
  function MoveEnemy(grid: Grid, e: Enemy, s: EnemyStep): (m: Enemy)
    ensures m == e.(x := m.x, y := m.y)
  {
    var (x', y') := Slide(grid, e.x, e.y, e.x + s.dx, e.y + s.dy, e.width, e.height);
    e.(x := x', y := y')
  }

  /** In range and the shot cooldown (2000 ms) has passed since its last shot. */
  predicate Shoots(e: Enemy, s: EnemyStep, now: int) {
    s.inRange && now - e.lastShot > ShootCooldown
  }

  /** The moved enemy touches the player's box. */
  predicate Touches(grid: Grid, e: Enemy, s: EnemyStep, target: Box) {
    Overlaps(EnemyBox(MoveEnemy(grid, e, s)), target)
  }

  /** The enemy as it stays in the array: moved, shot clock restarted if it fired, frame advanced by 0.3 modulo 4. */
  function AfterStep(grid: Grid, e: Enemy, s: EnemyStep, now: int): Enemy {
    MoveEnemy(grid, e, s).(
      lastShot := if Shoots(e, s, now) then now else e.lastShot,
      frame := JsRem(e.frame + 0.3, 4.0))
  }

  /** The enemies left after the pass: the living ones (health above 0), stepped, in order. */
  function Survivors(grid: Grid, es: seq<Enemy>, ss: seq<EnemyStep>, now: int): seq<Enemy>
    requires |ss| == |es|
  {
    if es == [] then []
    else (if es[0].health > 0 then [AfterStep(grid, es[0], ss[0], now)] else []) + Survivors(grid, es[1..], ss[1..], now)
  }

  /** The number of enemies with health 0 or below. */
  function DeadCount(es: seq<Enemy>): nat {
    if es == [] then 0 else (if es[0].health <= 0 then 1 else 0) + DeadCount(es[1..])
  }

  /** The fireballs the pass creates, in the order they are pushed (from the last enemy to the first). */
  function Volley(grid: Grid, es: seq<Enemy>, ss: seq<EnemyStep>, now: int): seq<Fireball>
    requires |ss| == |es|
  {
    if es == [] then []
    else
      Volley(grid, es[1..], ss[1..], now) +
      (if Shoots(es[0], ss[0], now) then [FireballFrom(MoveEnemy(grid, es[0], ss[0]), ss[0].aimX, ss[0].aimY)] else [])
  }

  /** The highest-indexed enemy that touches the player after moving, or -1 (see LastContactSpec). */
  function LastContact(grid: Grid, es: seq<Enemy>, ss: seq<EnemyStep>, target: Box): (r: int)
    requires |ss| == |es|
    ensures -1 <= r < |es|
  {
    if es == [] then -1
    else
      var rest := LastContact(grid, es[1..], ss[1..], target);
      if rest >= 0 then rest + 1
      else if Touches(grid, es[0], ss[0], target) then 0
      else -1
  }

  /** LastContact is the highest index whose enemy touches the target after moving; -1 when none does. */
  lemma {:induction false} LastContactSpec(grid: Grid, es: seq<Enemy>, ss: seq<EnemyStep>, target: Box)
    requires |ss| == |es|
    ensures var r := LastContact(grid, es, ss, target);
      && (r >= 0 ==> Touches(grid, es[r], ss[r], target))
      && (forall j | r < j < |es| :: !Touches(grid, es[j], ss[j], target))
    decreases |es|
  {
    if es != [] {
      LastContactSpec(grid, es[1..], ss[1..], target);
      var rest := LastContact(grid, es[1..], ss[1..], target);
      forall j | rest + 1 < j < |es| ensures !Touches(grid, es[j], ss[j], target) {
        assert es[j] == es[1..][j - 1] && ss[j] == ss[1..][j - 1];
      }
      if rest >= 0 {
        assert es[rest + 1] == es[1..][rest] && ss[rest + 1] == ss[1..][rest];
      }
    }
  }

  /**
   * Every enemy is either removed (and counted as defeated) or kept; the kept enemies are
   * alive, and each is one of the starting enemies after its step.
   */
  lemma {:induction false} SurvivorsSpec(grid: Grid, es: seq<Enemy>, ss: seq<EnemyStep>, now: int)
    requires |ss| == |es|
    ensures |Survivors(grid, es, ss, now)| + DeadCount(es) == |es|
    ensures forall e | e in Survivors(grid, es, ss, now) ::
      e.health > 0 && exists j | 0 <= j < |es| :: e == AfterStep(grid, es[j], ss[j], now)
    decreases |es|
  {
    if es != [] {
      SurvivorsSpec(grid, es[1..], ss[1..], now);
      forall e | e in Survivors(grid, es[1..], ss[1..], now)
        ensures exists j | 0 <= j < |es| :: e == AfterStep(grid, es[j], ss[j], now)
      {
        var j :| 0 <= j < |es[1..]| && e == AfterStep(grid, es[1..][j], ss[1..][j], now);
        assert es[j + 1] == es[1..][j] && ss[j + 1] == ss[1..][j];
      }
    }
  }

  /** A step changes an enemy's position, shot clock and frame only; so it keeps the stats of its round. */
  lemma AfterStepKeepsStats(grid: Grid, e: Enemy, s: EnemyStep, now: int)
    ensures var e' := AfterStep(grid, e, s, now);
      e' == e.(x := e'.x, y := e'.y, lastShot := e'.lastShot, frame := e'.frame)
      && (StatsOfItsRound(e) ==> StatsOfItsRound(e'))
  {
  }

  /** The pass creates at most one fireball per enemy, the volley of shooters. */
  lemma {:induction false} VolleyBound(grid: Grid, es: seq<Enemy>, ss: seq<EnemyStep>, now: int)
    requires |ss| == |es|
    ensures |Volley(grid, es, ss, now)| <= |es|
    ensures (forall j | 0 <= j < |es| :: !Shoots(es[j], ss[j], now)) ==> Volley(grid, es, ss, now) == []
    decreases |es|
  {
    if es != [] {
      VolleyBound(grid, es[1..], ss[1..], now);
      if forall j | 0 <= j < |es| :: !Shoots(es[j], ss[j], now) {
        forall j | 0 <= j < |es[1..]| ensures !Shoots(es[1..][j], ss[1..][j], now) {
          assert es[1..][j] == es[j + 1] && ss[1..][j] == ss[j + 1];
        }
      }
    }
  }
}
