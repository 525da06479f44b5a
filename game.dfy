/**
 * The game's global mutable state and the operations of one frame: the World class holds
 * what game.js keeps in its globals (player, enemies, both projectile pools, gameState, the
 * animation counters, the camera and the prevSpacePressed latch) and its methods are the
 * update functions, which change that state in place. The current time, the random draws
 * of spawnEnemy and the key flags are parameters; the score and time submissions are kept
 * as a log of payloads instead of being sent.
 */
module Game {
  import opened Wrappers
  import opened Config
  import opened Geometry
  import opened Tiles
  import opened Movement
  import opened Entities
  import opened Spawning
  import opened Combat
  import opened Animation
  import opened Camera
  import opened TimeFormat

  /** The gameState object. */
  datatype GameState = GameState(
    lastSpawn: int, gameOver: bool, score: int, startTime: int, round: int,
    dragonsDefeated: int, roundStartTime: int, totalDragonsDefeated: int, scoreSubmitted: bool)

  /**
   * What one game-over sends: the score (submitScore) and the elapsed time, which submitTime
   * sends as the string TimePayload.
   */
  datatype Submission = Submission(score: int, elapsed: nat)

  /** The body of the submitTime request: the elapsed time as MM:SS:mmm. */
  function TimePayload(s: Submission): string {
    FormatTime(s.elapsed)
  }

  /** All of the world's non-ghost state, for stating what an operation leaves unchanged. */
  datatype Globals = Globals(
    player: Player, enemies: seq<Enemy>, projectiles: seq<Projectile>, enemyProjectiles: seq<Fireball>,
    gs: GameState, animationFrame: int, animationCounter: int, prevSpacePressed: bool,
    cameraX: int, cameraY: int, submissions: seq<Submission>)

  /** The round reached after the given number of defeated dragons: one more every 3, at most 3. */
  function RoundFor(total: nat): (round: int)
    ensures 1 <= round <= MaxRound
    ensures round < MaxRound ==> 3 * (round - 1) <= total < 3 * round
    ensures round == MaxRound ==> total >= 3 * (MaxRound - 1)
  {
    if total / DragonsPerRound + 1 < MaxRound then total / DragonsPerRound + 1 else MaxRound
  }

  /**
   * The counters of gameState agree with the number of dragons defeated: the round follows
   * from it, dragonsDefeated counts the kills since the round began, and each kill is worth 100.
   */
  predicate CountersAgree(gs: GameState) {
    && gs.totalDragonsDefeated >= 0
    && gs.round == RoundFor(gs.totalDragonsDefeated)
    && gs.dragonsDefeated == gs.totalDragonsDefeated - DragonsPerRound * (gs.round - 1)
    && gs.score == ScoreValue * gs.totalDragonsDefeated
  }

  /** The kill bookkeeping of updateEnemies: score, both kill counters, then the round check. */
  function Kill(gs: GameState, now: int): (r: GameState)
    ensures r.score == gs.score + ScoreValue && r.totalDragonsDefeated == gs.totalDragonsDefeated + 1
    ensures r.round > gs.round <==> gs.dragonsDefeated + 1 >= DragonsPerRound && gs.round < MaxRound
    ensures r.round > gs.round ==> r.round == gs.round + 1 && r.dragonsDefeated == 0 && r.roundStartTime == now
    ensures r.round <= gs.round ==>
      r.round == gs.round && r.dragonsDefeated == gs.dragonsDefeated + 1 && r.roundStartTime == gs.roundStartTime
    ensures r == gs.(score := r.score, dragonsDefeated := r.dragonsDefeated,
      totalDragonsDefeated := r.totalDragonsDefeated, round := r.round, roundStartTime := r.roundStartTime)
  {
    var gs1 := gs.(score := gs.score + ScoreValue, dragonsDefeated := gs.dragonsDefeated + 1,
                   totalDragonsDefeated := gs.totalDragonsDefeated + 1);
    if gs1.dragonsDefeated >= DragonsPerRound && gs1.round < MaxRound then
      gs1.(round := gs1.round + 1, dragonsDefeated := 0, roundStartTime := now)
    else gs1
  }

  /**
   * A kill keeps the counters in agreement; the round advances exactly when the kill
   * completes a round below the last one, and otherwise stays.
   */
  lemma {:induction false} KillKeepsCountersAgreeing(gs: GameState, now: int)
    requires CountersAgree(gs)
    ensures CountersAgree(Kill(gs, now))
    ensures Kill(gs, now).round == gs.round + 1 || Kill(gs, now).round == gs.round
    ensures Kill(gs, now).round == gs.round + 1 <==>
      gs.totalDragonsDefeated + 1 == DragonsPerRound * gs.round && gs.round < MaxRound
  {
    var t := gs.totalDragonsDefeated;
    if gs.round < MaxRound {
      assert t / 3 + 1 == gs.round;
      if t + 1 == 3 * gs.round {
        assert (t + 1) / 3 == gs.round;
      } else {
        assert (t + 1) / 3 == t / 3;
      }
    } else {
      assert (t + 1) / 3 + 1 >= MaxRound;
    }
  }

  class World {
    /** The tile map (the tilemap constant of game.js). */
    const grid: Grid
    var player: Player
    var enemies: seq<Enemy>
    var projectiles: seq<Projectile>
    var enemyProjectiles: seq<Fireball>
    var gs: GameState
    var animationFrame: int
    var animationCounter: int
    var prevSpacePressed: bool
    var cameraX: int
    var cameraY: int
    /** The canvas size, which init copies into the camera. */
    const cameraWidth: int
    const cameraHeight: int
    /** Every score and time payload sent so far, oldest first. */
    var submissions: seq<Submission>
    /** The number of animation updates so far. */
    ghost var animationTicks: nat
    /** The number of submissions made before the current game began. */
    ghost var submittedBefore: nat

    function Snapshot(): Globals
      reads this
    {
      Globals(player, enemies, projectiles, enemyProjectiles, gs, animationFrame, animationCounter,
              prevSpacePressed, cameraX, cameraY, submissions)
    }

    /** The world invariant. */
    ghost predicate Valid()
      reads this
    {
      Consistent() && (player.health <= 0 ==> gs.gameOver)
    }

    /**
     * The world invariant except for the link between health and game over, which a damage
     * step breaks until its own game-over check has run.
     */
    ghost predicate Consistent()
      reads this
    {
      && CountersAgree(gs)
      && animationCounter == CounterAt(animationTicks) && animationFrame == PhaseAt(animationTicks)
      && 0 <= player.frame < PlayerFrames
      && PlayerClear(grid, player)
      && !TileBoxBlocked(grid, PlayerStartX, PlayerStartY, PlayerBoxWidth, PlayerBoxHeight)
      && gs.gameOver == gs.scoreSubmitted
      && |submissions| == submittedBefore + (if gs.scoreSubmitted then 1 else 0)
      && (forall e | e in enemies :: StatsOfItsRound(e) && e.round <= gs.round)
      && 0 <= cameraX && (cameraWidth <= MapWidth ==> cameraX <= MapWidth - cameraWidth)
      && 0 <= cameraY && (cameraHeight <= MapHeight ==> cameraY <= MapHeight - cameraHeight)
    }

    /** At most one score and one time are sent per game. */
    lemma AtMostOneSubmissionPerGame()
      requires Valid()
      ensures |submissions| <= submittedBefore + 1
      ensures gs.gameOver <==> |submissions| == submittedBefore + 1
    {
    }

    /**
     * The page-load state after init: the player at tile (3, 7) with full health, facing
     * down; round 1 with no kills; no enemies yet (they come with OnAssetsLoaded).
     */
    constructor Init(now: int, canvasWidth: int, canvasHeight: int)
      ensures Valid() && grid == Tilemap
      ensures player == Player(PlayerStartX, PlayerStartY, PlayerMaxHealth, false, Down, false, 0)
      ensures enemies == [] && projectiles == [] && enemyProjectiles == [] && submissions == []
      ensures gs == GameState(0, false, 0, now, 1, 0, now, 0, false)
      ensures cameraWidth == canvasWidth && cameraHeight == canvasHeight && cameraX == 0 && cameraY == 0
      ensures animationFrame == 0 && animationCounter == 0 && !prevSpacePressed
    {
      player := Player(PlayerStartX, PlayerStartY, PlayerMaxHealth, false, Down, false, 0);
      enemies, projectiles, enemyProjectiles := [], [], [];
      gs := GameState(0, false, 0, now, 1, 0, now, 0, false);
      animationFrame, animationCounter, animationTicks := 0, 0, 0;
      prevSpacePressed := false;
      cameraX, cameraY := 0, 0;
      cameraWidth, cameraHeight := canvasWidth, canvasHeight;
      grid := Tilemap;
      submissions, submittedBefore := [], 0;
      PlayerStartClear();
    }

    /**
     * handleGameOver: a no-op once the game is over; otherwise the game ends and, if not
     * yet done, the score and the elapsed time (MM:SS:mmm) are submitted, once.
     */
    method HandleGameOver(now: int)
      requires Consistent() && gs.startTime <= now
      modifies this
      ensures old(gs.gameOver) ==> Snapshot() == old(Snapshot())
      ensures !old(gs.gameOver) && !old(gs.scoreSubmitted) ==>
        Snapshot() == old(Snapshot()).(
          gs := old(gs).(gameOver := true, scoreSubmitted := true),
          submissions := old(submissions) + [Submission(old(gs.score), now - old(gs.startTime))])
      ensures !old(gs.gameOver) && old(gs.scoreSubmitted) ==>
        Snapshot() == old(Snapshot()).(gs := old(gs).(gameOver := true))
      ensures animationTicks == old(animationTicks) && submittedBefore == old(submittedBefore)
      ensures Valid()
    {
      if gs.gameOver {
        return;
      }
      gs := gs.(gameOver := true);
      var time := now - gs.startTime;
      if !gs.scoreSubmitted {
        submissions := submissions + [Submission(gs.score, time)];
        gs := gs.(scoreSubmitted := true);
      }
    }

    /**
     * checkRoundAdvancement: with 3 or more kills in a round below 3 the round goes up by one,
     * the round's kill counter restarts and both projectile pools are emptied; otherwise
     * nothing changes.
     */
    method CheckRoundAdvancement(now: int)
      modifies this
      ensures old(gs.dragonsDefeated) >= DragonsPerRound && old(gs.round) < MaxRound ==>
        Snapshot() == old(Snapshot()).(
          gs := old(gs).(round := old(gs.round) + 1, dragonsDefeated := 0, roundStartTime := now),
          projectiles := [], enemyProjectiles := [])
      ensures !(old(gs.dragonsDefeated) >= DragonsPerRound && old(gs.round) < MaxRound) ==>
        Snapshot() == old(Snapshot())
      ensures animationTicks == old(animationTicks) && submittedBefore == old(submittedBefore)
    {
      if gs.dragonsDefeated >= DragonsPerRound && gs.round < MaxRound {
        gs := gs.(round := gs.round + 1, dragonsDefeated := 0, roundStartTime := now);
        projectiles := [];
        enemyProjectiles := [];
      }
    }

    /** updateAnimations: one more tick of the shared animation clock. */
    method UpdateAnimations()
      requires Valid()
      modifies this
      ensures Valid()
      ensures animationTicks == old(animationTicks) + 1 && submittedBefore == old(submittedBefore)
      ensures Snapshot() == old(Snapshot()).(animationFrame := animationFrame, animationCounter := animationCounter)
    {
      TickAdvances(animationTicks);
      animationCounter := animationCounter + 1;
      if animationCounter >= AnimationSpeed {
        animationCounter := 0;
        animationFrame := (animationFrame + 1) % AnimationPhases;
      }
      animationTicks := animationTicks + 1;
    }

    /**
     * updateCamera: outside game over, centre the viewport on the player's box, then clamp it
     * to the map.
     */
    method UpdateCamera()
      requires Valid()
      modifies this
      ensures Valid()
      ensures animationTicks == old(animationTicks) && submittedBefore == old(submittedBefore)
      ensures old(gs.gameOver) ==> Snapshot() == old(Snapshot())
      ensures !old(gs.gameOver) ==> Snapshot() == old(Snapshot()).(
        cameraX := Clamp(CentredOn(player.x + PlayerBoxWidth / 2.0, cameraWidth), MapWidth, cameraWidth),
        cameraY := Clamp(CentredOn(player.y + PlayerBoxHeight / 2.0, cameraHeight), MapHeight, cameraHeight))
    {
      if gs.gameOver {
        return;
      }
      cameraX := CentredOn(player.x + PlayerBoxWidth / 2.0, cameraWidth);
      cameraY := CentredOn(player.y + PlayerBoxHeight / 2.0, cameraHeight);
      cameraX := Clamp(cameraX, MapWidth, cameraWidth);
      cameraY := Clamp(cameraY, MapHeight, cameraHeight);
    }

    /** The setTimeout callback that ends the player's protection after a hit. */
    method ClearInvulnerable()
      requires Valid()
      modifies this
      ensures Valid()
      ensures animationTicks == old(animationTicks) && submittedBefore == old(submittedBefore)
      ensures Snapshot() == old(Snapshot()).(player := old(player).(invulnerable := false))
    {
      player := player.(invulnerable := false);
    }

    /**
     * spawnEnemy: find a position from the draws (the first acceptable candidate, or the
     * fallback) and push a dragon with the stats of the current round.
     */
    method SpawnEnemy(draws: seq<Draw>) returns (ghost at: (real, real))
      requires Valid() && ValidDraws(draws)
      modifies this
      ensures Valid()
      ensures animationTicks == old(animationTicks) && submittedBefore == old(submittedBefore)
      ensures at == SpawnPoint(grid, draws)
      ensures Snapshot() == old(Snapshot()).(enemies := old(enemies) + [NewEnemy(gs.round, at.0, at.1)])
    {
      var spawnX, spawnY := FindSpawnPosition(grid, draws);
      enemies := enemies + [NewEnemy(gs.round, spawnX, spawnY)];
      at := (spawnX, spawnY);
    }

    /**
     * The spawn loops of init and resetGame: spawnEnemy once per supply of draws, so the
     * array gains one dragon of the current round per supply, in order, after the old ones.
     */
    method SpawnDragons(draws: seq<seq<Draw>>)
      requires Valid() && Supplies(draws)
      modifies this
      ensures Valid()
      ensures animationTicks == old(animationTicks) && submittedBefore == old(submittedBefore)
      ensures CoversAttempts(draws)
      ensures Snapshot() == old(Snapshot()).(enemies := old(enemies) + Recruits(gs.round, SpawnPoints(grid, draws)))
    {
      ghost var before, round := enemies, gs.round;
      ghost var points: seq<(real, real)> := [];
      ghost var recruits: seq<Enemy> := [];
      var i := 0;
      while i < |draws|
        invariant 0 <= i <= |draws| && Valid()
        invariant animationTicks == old(animationTicks) && submittedBefore == old(submittedBefore)
        invariant CoversAttempts(draws[..i]) && points == SpawnPoints(grid, draws[..i])
        invariant gs.round == round && recruits == Recruits(round, points)
        invariant Snapshot() == old(Snapshot()).(enemies := enemies)
        invariant enemies == before + recruits
      {
        var at := SpawnEnemy(draws[i]);
        RecruitStep(grid, draws, i, round, points, recruits, at);
        points := points + [at];
        recruits := recruits + [NewEnemy(round, at.0, at.1)];
        i := i + 1;
      }
      assert draws[..i] == draws;
    }

    /** The asset-load callback of init: three dragons, and the spawn clock starts. */
    method OnAssetsLoaded(now: int, draws: seq<seq<Draw>>)
      requires Valid() && |draws| == 3 && Supplies(draws)
      modifies this
      ensures Valid()
      ensures animationTicks == old(animationTicks) && submittedBefore == old(submittedBefore)
      ensures CoversAttempts(draws)
      ensures Snapshot() == old(Snapshot()).(enemies := old(enemies) + Recruits(old(gs.round), SpawnPoints(grid, draws)),
        gs := old(gs).(lastSpawn := now))
    {
      SpawnDragons(draws);
      RestartSpawnClock(now);
    }

    /**
     * resetGame: full health at the start tile, no enemies or projectiles, the counters of a
     * new game, then four dragons of round 1. A new game may submit its own score once.
     */
    method Reset(now: int, draws: seq<seq<Draw>>)
      requires Valid() && |draws| == 4 && Supplies(draws)
      modifies this
      ensures Valid()
      ensures animationTicks == old(animationTicks) && submittedBefore == |submissions| == |old(submissions)|
      ensures player == old(player).(x := PlayerStartX, y := PlayerStartY, health := PlayerMaxHealth, invulnerable := false)
      ensures gs == GameState(now, false, 0, now, 1, 0, now, 0, false)
      ensures CoversAttempts(draws) && enemies == Recruits(1, SpawnPoints(grid, draws))
      ensures projectiles == [] && enemyProjectiles == []
      ensures Snapshot() == old(Snapshot()).(player := player, enemies := enemies, projectiles := [],
        enemyProjectiles := [], gs := gs)
    {
      ClearGame(now);
      assert gs.round == 1 && enemies == [];
      SpawnDragons(draws);
      RestartSpawnClock(now);
    }

    /** The spawn clock restarts at now (lastEnemySpawnTime = Date.now()). */
    method RestartSpawnClock(now: int)
      requires Valid()
      modifies this
      ensures Valid()
      ensures animationTicks == old(animationTicks) && submittedBefore == old(submittedBefore)
      ensures Snapshot() == old(Snapshot()).(gs := old(gs).(lastSpawn := now))
    {
      gs := gs.(lastSpawn := now);
    }

    /** The field resets of resetGame, before its spawn loop. */
    method ClearGame(now: int)
      requires Valid()
      modifies this
      ensures Valid()
      ensures animationTicks == old(animationTicks) && submittedBefore == |submissions| == |old(submissions)|
      ensures Snapshot() == old(Snapshot()).(
        player := old(player).(x := PlayerStartX, y := PlayerStartY, health := PlayerMaxHealth, invulnerable := false),
        enemies := [], projectiles := [], enemyProjectiles := [],
        gs := GameState(old(gs.lastSpawn), false, 0, now, 1, 0, now, 0, false))
    {
      player := player.(health := PlayerMaxHealth, x := PlayerStartX, y := PlayerStartY, invulnerable := false);
      enemies, projectiles, enemyProjectiles := [], [], [];
      gs := GameState(gs.lastSpawn, false, 0, now, 1, 0, now, 0, false);
      submittedBefore := |submissions|;
    }

    /**
     * updatePlayer: outside game over, the keys choose the candidate position (3 units per
     * held key), the facing and the moving flag; the move is committed x first, then y, each
     * only into a box free of solid tiles; the walk frame advances modulo 8.
     */
    method UpdatePlayer(input: Input)
      requires Valid()
      modifies this
      ensures Valid()
      ensures animationTicks == old(animationTicks) && submittedBefore == old(submittedBefore)
      ensures old(gs.gameOver) ==> Snapshot() == old(Snapshot())
      ensures !old(gs.gameOver) ==>
        var (x', y') := Slide(grid, old(player.x), old(player.y),
          Target(old(player.x), input.left, input.right, PlayerSpeed),
          Target(old(player.y), input.up, input.down, PlayerSpeed), PlayerBoxWidth, PlayerBoxHeight);
        Snapshot() == old(Snapshot()).(player := old(player).(
          x := x', y := y', direction := Facing(old(player.direction), input), moving := Moving(input),
          frame := (old(player.frame) + 1) % PlayerFrames))
    {
      if gs.gameOver {
        return;
      }
      var p, newX, newY := ReadKeys(player, input);
      var blockedX := CheckTileCollision(grid, newX, p.y, PlayerBoxWidth, PlayerBoxHeight);
      if !blockedX {
        p := p.(x := newX);
      }
      var blockedY := CheckTileCollision(grid, p.x, newY, PlayerBoxWidth, PlayerBoxHeight);
      if !blockedY {
        p := p.(y := newY);
      }
      p := p.(frame := (p.frame + 1) % PlayerFrames);
      SlideKeepsClear(grid, player.x, player.y, newX, newY, PlayerBoxWidth, PlayerBoxHeight);
      player := p;
    }

    /**
     * The key-reading half of updatePlayer: each held key moves the candidate position by
     * the player's speed and sets the facing (left, right, up, down, then the diagonals),
     * and any held key marks the player as moving.
     */
    static method ReadKeys(player: Player, input: Input) returns (p: Player, newX: real, newY: real)
      ensures p == player.(direction := Facing(player.direction, input), moving := Moving(input))
      ensures newX == Target(player.x, input.left, input.right, PlayerSpeed)
      ensures newY == Target(player.y, input.up, input.down, PlayerSpeed)
    {
      p := player.(moving := false);
      newX, newY := p.x, p.y;
      if input.left {
        newX := newX - PlayerSpeed;
        p := p.(direction := Left, moving := true);
      }
      if input.right {
        newX := newX + PlayerSpeed;
        p := p.(direction := Right, moving := true);
      }
      if input.up {
        newY := newY - PlayerSpeed;
        p := p.(direction := Up, moving := true);
      }
      if input.down {
        newY := newY + PlayerSpeed;
        p := p.(direction := Down, moving := true);
      }
      if input.up && input.right { p := p.(direction := UpRight); }
      if input.up && input.left { p := p.(direction := UpLeft); }
      if input.down && input.right { p := p.(direction := DownRight); }
      if input.down && input.left { p := p.(direction := DownLeft); }
    }

    /**
     * handleProjectiles: outside game over, a press of the fire key that was not held in the
     * previous frame fires the current weapon from the player's centre; then every projectile
     * flies one step and the pool is culled (AdvanceProjectile), from the last to the first.
     */
    method HandleProjectiles(fire: bool)
      requires Valid()
      modifies this
      ensures Valid()
      ensures animationTicks == old(animationTicks) && submittedBefore == old(submittedBefore)
      ensures old(gs.gameOver) ==> Snapshot() == old(Snapshot())
      ensures !old(gs.gameOver) ==>
        var fired := if fire && !old(prevSpacePressed) then [NewProjectile(old(player), CurrentWeapon(gs.round), gs.round)] else [];
        Snapshot() == old(Snapshot()).(
          projectiles := CullProjectiles(grid, old(projectiles) + fired), prevSpacePressed := fire)
    {
      if gs.gameOver {
        return;
      }
      var currentWeapon := CurrentWeapon(gs.round);
      if fire && !prevSpacePressed {
        projectiles := projectiles + [NewProjectile(player, currentWeapon, gs.round)];
      }
      prevSpacePressed := fire;
      ghost var fired := if fire && !old(prevSpacePressed) then [NewProjectile(player, CurrentWeapon(gs.round), gs.round)] else [];
      assert projectiles == old(projectiles) + fired;
      projectiles := AdvanceProjectiles(grid, projectiles);
    }

    /** The culling loop of handleProjectiles over the pool, from the last projectile to the first. */
    static method AdvanceProjectiles(grid: Grid, pool: seq<Projectile>) returns (projectiles: seq<Projectile>)
      ensures projectiles == CullProjectiles(grid, pool)
    {
      projectiles := pool;
      var i := |projectiles|;
      while i > 0
        invariant 0 <= i <= |pool|
        invariant projectiles == pool[..i] + CullProjectiles(grid, pool[i..])
      {
        i := i - 1;
        assert pool[i..][1..] == pool[i + 1..];
        assert projectiles[i] == pool[i];
        var p := Fly(projectiles[i]);
        var blocked := CheckTileCollision(grid, p.x, p.y, p.width, p.height);
        if blocked {
          projectiles := projectiles[..i] + projectiles[i + 1..];
          assert pool[..i + 1][..i] == pool[..i];
          continue;
        }
        p := p.(frame := (p.frame + 1) % p.numFrames);
        projectiles := projectiles[i := p];
        if OffMap(p.x, p.y, p.width, p.height) {
          projectiles := projectiles[..i] + projectiles[i + 1..];
          assert pool[..i + 1][..i] == pool[..i];
        } else {
          assert projectiles == pool[..i] + [p] + CullProjectiles(grid, pool[i + 1..]);
        }
      }
      assert pool[0..] == pool;
    }

    /**
     * updateEnemyProjectiles: outside game over, the fireball pool goes through ShotsPass
     * against the player. A hit costs the player the fireball's damage and makes it
     * invulnerable; if that empties its health, the game ends and the score is submitted.
     * The pass's own loop is FireballPass; the hit is applied after it, which is equivalent
     * because nothing in the loop reads the player's health or the game-over flag.
     */
    method UpdateEnemyProjectiles(now: int)
      requires Valid() && gs.startTime <= now
      modifies this
      ensures Valid()
      ensures animationTicks == old(animationTicks) && submittedBefore == old(submittedBefore)
      ensures old(gs.gameOver) ==> Snapshot() == old(Snapshot())
      ensures !old(gs.gameOver) ==>
        var (kept, hit) := ShotsPass(grid, old(enemyProjectiles), PlayerBox(old(player)), !old(player.invulnerable));
        var p := if hit.Some? then old(player).(health := old(player.health) - hit.value.damage, invulnerable := true) else old(player);
        Snapshot() == old(Snapshot()).(player := p, enemyProjectiles := kept,
          gs := old(gs).(gameOver := p.health <= 0, scoreSubmitted := p.health <= 0),
          submissions := old(submissions) + Submitted(p.health <= 0, old(gs.score), now - old(gs.startTime)))
    {
      if gs.gameOver {
        return;
      }
      var kept, hit := FireballPass(grid, enemyProjectiles, PlayerBox(player), !player.invulnerable);
      enemyProjectiles := kept;
      if hit.Some? {
        player := player.(health := player.health - hit.value.damage, invulnerable := true);
        if player.health <= 0 && !gs.gameOver {
          HandleGameOver(now);
        }
      }
    }

    /**
     * The loop of updateEnemyProjectiles over the pool, from the last fireball to the first;
     * `armed` is the player's state at the start (not invulnerable).
     */
    static method FireballPass(grid: Grid, pool: seq<Fireball>, target: Box, armed: bool)
      returns (fireballs: seq<Fireball>, hit: Option<Fireball>)
      ensures (fireballs, hit) == ShotsPass(grid, pool, target, armed)
    {
      fireballs, hit := pool, None;
      var i := |fireballs|;
      while i > 0
        invariant 0 <= i <= |pool|
        invariant fireballs == pool[..i] + ShotsPass(grid, pool[i..], target, armed).0
        invariant hit == ShotsPass(grid, pool[i..], target, armed).1
      {
        i := i - 1;
        ghost var rest := ShotsPass(grid, pool[i + 1..], target, armed);
        ShotsPassAt(grid, pool, i, target, armed);
        assert fireballs[i] == pool[i] && fireballs[..i] == pool[..i] && fireballs[i + 1..] == rest.0;
        var kept;
        kept, hit := MoveFireball(grid, fireballs[i], target, armed, hit);
        if kept.Some? {
          fireballs := fireballs[i := kept.value];
          assert fireballs == pool[..i] + [kept.value] + rest.0;
        } else {
          fireballs := fireballs[..i] + fireballs[i + 1..];
        }
      }
      assert pool[..0] == [] && pool[0..] == pool;
      var r := ShotsPass(grid, pool, target, armed);
      assert fireballs == r.0 && hit == r.1;
    }

    /**
     * One fireball of updateEnemyProjectiles: it drifts; the first one to reach an armed
     * player is the hit and is removed; one that lands on a solid tile is removed; otherwise
     * its frame advances and it is kept unless it left the map.
     */
    static method MoveFireball(grid: Grid, f: Fireball, target: Box, armed: bool, hitSoFar: Option<Fireball>)
      returns (kept: Option<Fireball>, hit: Option<Fireball>)
      ensures armed && hitSoFar.None? && Scorches(f, target) ==> kept.None? && hit == Some(Drift(f))
      ensures !(armed && hitSoFar.None? && Scorches(f, target)) ==> kept == AdvanceFireball(grid, f) && hit == hitSoFar
    {
      var p := Drift(f);
      if Overlaps(FireballBox(p), target) && armed && hitSoFar.None? {
        return None, Some(p);
      }
      hit := hitSoFar;
      var blocked := CheckTileCollision(grid, p.x, p.y, p.width, p.height);
      if blocked {
        return None, hit;
      }
      p := p.(frame := (p.frame + 1) % p.numFrames);
      if OffMap(p.x, p.y, p.width, p.height) {
        kept := None;
      } else {
        kept := Some(p);
      }
    }

    /**
     * handleProjectileCollisions: outside game over, the projectile and enemy arrays become
     * ResolveHits of their old values, with the current weapon's damage.
     */
    method HandleProjectileCollisions()
      requires Valid()
      modifies this
      ensures Valid()
      ensures animationTicks == old(animationTicks) && submittedBefore == old(submittedBefore)
      ensures old(gs.gameOver) ==> Snapshot() == old(Snapshot())
      ensures !old(gs.gameOver) ==>
        var (ps, es) := ResolveHits(old(projectiles), old(enemies), CurrentWeapon(gs.round).damage);
        Snapshot() == old(Snapshot()).(projectiles := ps, enemies := es)
    {
      if gs.gameOver {
        return;
      }
      var damage := CurrentWeapon(gs.round).damage;
      ResolveHitsOnlyDamages(projectiles, enemies, damage);
      ResolveHitsNeverHeals(projectiles, enemies, damage);
      DamageKeepsStats(enemies, ResolveHits(projectiles, enemies, damage).1, gs.round);
      projectiles, enemies := ResolvePass(projectiles, enemies, damage);
    }

    /**
     * The nested loops of handleProjectileCollisions: projectiles from the last to the
     * first; for each, enemies from the last to the first until one is struck.
     */
    static method ResolvePass(ps: seq<Projectile>, es: seq<Enemy>, damage: int)
      returns (projectiles: seq<Projectile>, enemies: seq<Enemy>)
      ensures (projectiles, enemies) == ResolveHits(ps, es, damage)
    {
      projectiles, enemies := ps, es;
      var p := |projectiles|;
      while p > 0
        invariant 0 <= p <= |ps|
        invariant projectiles == ps[..p] + ResolveHits(ps[p..], es, damage).0
        invariant enemies == ResolveHits(ps[p..], es, damage).1
      {
        p := p - 1;
        assert ps[p..][1..] == ps[p + 1..];
        assert projectiles[p] == ps[p];
        assert ps[..p + 1][..p] == ps[..p];
        var e := |enemies| - 1;
        while e >= 0 && !Strikes(projectiles[p], enemies[e])
          invariant -1 <= e < |enemies|
          invariant forall j | e < j < |enemies| :: !Strikes(projectiles[p], enemies[j])
        {
          e := e - 1;
        }
        assert e == LastHit(ps[p], enemies);
        if e >= 0 {
          enemies := enemies[e := enemies[e].(health := enemies[e].health - damage)];
          projectiles := projectiles[..p] + projectiles[p + 1..];
        }
      }
      assert ps[..0] == [] && ps[0..] == ps;
      var r := ResolveHits(ps, es, damage);
      assert projectiles == r.0 && enemies == r.1;
    }

    /**
     * checkSpikeDamage: when the spikes are up (frame 2 or 3) and the tile under the centre of
     * the player's box is a spike tile, a player that is not invulnerable loses 15 health and
     * becomes invulnerable; if that empties its health, the game ends. There is no game-over
     * guard of its own.
     */
    method CheckSpikeDamage(now: int)
      requires Valid() && gs.startTime <= now
      modifies this
      ensures Valid()
      ensures animationTicks == old(animationTicks) && submittedBefore == old(submittedBefore)
      ensures !old(OnArmedSpikes() && !player.invulnerable) ==> Snapshot() == old(Snapshot())
      ensures old(OnArmedSpikes() && !player.invulnerable) ==>
        var p := old(player).(health := old(player.health) - SpikeDamage, invulnerable := true);
        var ends := p.health <= 0 && !old(gs.gameOver);
        Snapshot() == old(Snapshot()).(player := p,
          gs := old(gs).(gameOver := old(gs.gameOver) || ends, scoreSubmitted := old(gs.gameOver) || ends),
          submissions := old(submissions) + Submitted(ends, old(gs.score), now - old(gs.startTime)))
    {
      if animationFrame != 2 && animationFrame != 3 {
        return;
      }
      var playerTileX := CellOf(player.x + PlayerBoxWidth / 2.0);
      var playerTileY := CellOf(player.y + PlayerBoxHeight / 2.0);
      if TileCode(grid, playerTileY, playerTileX) == Some(Spikes) && !player.invulnerable {
        player := player.(health := player.health - SpikeDamage, invulnerable := true);
        if player.health <= 0 && !gs.gameOver {
          HandleGameOver(now);
        }
      }
    }

    /** The spikes are up and the centre of the player's box is on a spike tile. */
    predicate OnArmedSpikes()
      reads this
    {
      (animationFrame == 2 || animationFrame == 3) &&
      TileCode(grid, CellOf(player.y + PlayerBoxHeight / 2.0), CellOf(player.x + PlayerBoxWidth / 2.0)) == Some(Spikes)
    }

    /**
     * One iteration of updateEnemies' loop, for enemy i: move it (axis by axis, against the
     * tiles); if it then touches a player that is not invulnerable, the player takes its
     * damage and becomes invulnerable, and the game ends if that empties its health; if it is
     * in range and its shot cooldown is over it fires; if its health is 0 or below it is removed,
     * counted as a kill and the round check runs (which may empty both projectile pools).
     */
    method StepEnemy(i: int, now: int, s: EnemyStep)
      requires Valid() && gs.startTime <= now && 0 <= i < |enemies|
      modifies this
      ensures Valid()
      ensures animationTicks == old(animationTicks) && submittedBefore == old(submittedBefore)
      ensures Snapshot() == EnemyStepped(grid, old(Snapshot()), i, now, s)
    {
      MoveAndTouch(i, now, s);
      ShootAndSettle(i, now, s, old(enemies[i]));
    }

    /** First half of an enemy's step: it moves, then hurts the player if it touches them. */
    method MoveAndTouch(i: int, now: int, s: EnemyStep)
      requires Valid() && gs.startTime <= now && 0 <= i < |enemies|
      modifies this
      ensures Valid()
      ensures animationTicks == old(animationTicks) && submittedBefore == old(submittedBefore)
      ensures
        var e := old(enemies[i]);
        var contact := Touches(grid, e, s, PlayerBox(old(player))) && !old(player.invulnerable);
        var ends := contact && old(player.health) - e.damage <= 0 && !old(gs.gameOver);
        Snapshot() == old(Snapshot()).(
          enemies := old(enemies)[i := MoveEnemy(grid, e, s)],
          player := if contact then old(player).(health := old(player.health) - e.damage, invulnerable := true) else old(player),
          gs := old(gs).(gameOver := old(gs.gameOver) || ends, scoreSubmitted := old(gs.scoreSubmitted) || ends),
          submissions := old(submissions) + Submitted(ends, old(gs.score), now - old(gs.startTime)))
    {
      var enemy := MoveAgainstTiles(grid, enemies[i], s);
      PlaceEnemy(i, enemy);
      if Overlaps(EnemyBox(enemy), PlayerBox(player)) && !player.invulnerable {
        HurtPlayer(enemy.damage, now);
      }
    }

    /** The enemy's move: each axis separately, kept only if the box there is free of solid tiles. */
    static method MoveAgainstTiles(grid: Grid, e: Enemy, s: EnemyStep) returns (enemy: Enemy)
      ensures enemy == MoveEnemy(grid, e, s)
    {
      enemy := e;
      var newX, newY := enemy.x + s.dx, enemy.y + s.dy;
      var blockedX := CheckTileCollision(grid, newX, enemy.y, enemy.width, enemy.height);
      if !blockedX {
        enemy := enemy.(x := newX);
      }
      var blockedY := CheckTileCollision(grid, enemy.x, newY, enemy.width, enemy.height);
      if !blockedY {
        enemy := enemy.(y := newY);
      }
    }

    /**
     * Second half of an enemy's step, for the moved enemy i (e0 is how it was before moving):
     * it fires if in range and off cooldown, then it either dies (removed and scored) or has its
     * frame advanced.
     */
    method ShootAndSettle(i: int, now: int, s: EnemyStep, ghost e0: Enemy)
      requires Valid() && 0 <= i < |enemies| && enemies[i] == MoveEnemy(grid, e0, s)
      modifies this
      ensures Valid()
      ensures animationTicks == old(animationTicks) && submittedBefore == old(submittedBefore)
      ensures
        var g := if e0.health <= 0 then Kill(old(gs), now) else old(gs);
        var shot := if Shoots(e0, s, now) then [FireballFrom(old(enemies[i]), s.aimX, s.aimY)] else [];
        var advanced := g.round != old(gs.round);
        Snapshot() == old(Snapshot()).(
          enemies := old(enemies[..i]) + (if e0.health > 0 then [AfterStep(grid, e0, s, now)] else []) + old(enemies[i + 1..]),
          projectiles := if advanced then [] else old(projectiles),
          enemyProjectiles := if advanced then [] else old(enemyProjectiles) + shot,
          gs := g)
    {
      ghost var before := enemies;
      MaybeShoot(i, now, s);
      ghost var shot := enemies;
      var enemy := enemies[i];
      if enemy.health <= 0 {
        KillEnemy(i, now);
      } else {
        // The frame advance of the JavaScript object; the record stays in the array only if alive.
        enemy := enemy.(frame := JsRem(enemy.frame + 0.3, 4.0));
        PlaceEnemy(i, enemy);
        assert enemy == AfterStep(grid, e0, s, now);
        ReplaceTwice(before, i, shot[i], enemy);
      }
    }

    /** In range and off cooldown, enemy i pushes a fireball from its box and restarts its shot clock. */
    method MaybeShoot(i: int, now: int, s: EnemyStep)
      requires Valid() && 0 <= i < |enemies|
      modifies this
      ensures Valid()
      ensures animationTicks == old(animationTicks) && submittedBefore == old(submittedBefore)
      ensures
        var e := old(enemies[i]);
        var fires := Shoots(e, s, now);
        Snapshot() == old(Snapshot()).(
          enemies := old(enemies)[i := if fires then e.(lastShot := now) else e],
          enemyProjectiles := old(enemyProjectiles) + if fires then [FireballFrom(e, s.aimX, s.aimY)] else [])
    {
      var enemy := enemies[i];
      if s.inRange && now - enemy.lastShot > ShootCooldown {
        enemyProjectiles := enemyProjectiles + [FireballFrom(enemy, s.aimX, s.aimY)];
        enemy := enemy.(lastShot := now);
        PlaceEnemy(i, enemy);
      } else {
        assert enemies == enemies[i := enemy];
      }
    }

    /**
     * updateEnemies: unless the game is over, every enemy takes its step, from the last one
     * to the first (steps[i] is enemy i's homing step, computed from the player's position,
     * which the pass does not change). Afterwards the array holds exactly the living enemies,
     * stepped, in order; every dead one was counted; the player was hurt at most once, by the
     * highest-indexed enemy touching them, and only if they were not invulnerable; the game
     * ended (sending the score reached at that moment) exactly when that hit emptied their
     * health; and the fireballs of the pass were pushed in order, unless a round advance
     * cleared the pools on the way.
     */
    method UpdateEnemies(now: int, steps: seq<EnemyStep>)
      requires Valid() && gs.startTime <= now && |steps| == |enemies|
      modifies this
      ensures Valid()
      ensures animationTicks == old(animationTicks) && submittedBefore == old(submittedBefore)
      ensures old(gs.gameOver) ==> Snapshot() == old(Snapshot())
      ensures !old(gs.gameOver) ==> EnemiesPassed(grid, old(enemies), steps, now, old(Snapshot()), Snapshot())
    {
      if gs.gameOver {
        return;
      }
      EnemyPass(now, steps, Snapshot());
    }

    /** The loop of updateEnemies, from the last enemy to the first; S0 is the state it starts from. */
    method EnemyPass(now: int, steps: seq<EnemyStep>, ghost S0: Globals)
      requires Valid() && S0 == Snapshot() && !gs.gameOver && gs.startTime <= now && |steps| == |enemies|
      modifies this
      ensures Valid()
      ensures animationTicks == old(animationTicks) && submittedBefore == old(submittedBefore)
      ensures EnemiesPassed(grid, S0.enemies, steps, now, S0, Snapshot())
    {
      ghost var E := S0.enemies;
      var k := |enemies|;
      PassStart(grid, E, steps, now, S0);
      assert k == |E| && Snapshot() == S0;
      while k > 0
        invariant Valid() && animationTicks == old(animationTicks) && submittedBefore == old(submittedBefore)
        invariant PassInv(grid, E, steps, now, S0, k, Snapshot())
      {
        PassStep(k, now, steps, E, S0);
        k := k - 1;
      }
      PassDone(grid, E, steps, now, S0, k, Snapshot());
    }

    /**
     * The loop body of updateEnemies with k enemies still to go: enemy k - 1 takes its step,
     * and the pass invariant moves down one index.
     */
    method PassStep(k: int, now: int, steps: seq<EnemyStep>, ghost E: seq<Enemy>, ghost S0: Globals)
      requires Valid() && 0 < k <= |E| && PassInv(grid, E, steps, now, S0, k, Snapshot())
      modifies this
      ensures Valid() && PassInv(grid, E, steps, now, S0, k - 1, Snapshot())
      ensures animationTicks == old(animationTicks) && submittedBefore == old(submittedBefore)
    {
      ghost var g := Snapshot();
      assert CountersAgree(g.gs);
      PassInvStep(grid, E, steps, now, S0, k - 1, g);
      StepEnemy(k - 1, now, steps[k - 1]);
    }

    /** Writes back enemy i after a step that changed its position, timer or frame only. */
    method PlaceEnemy(i: int, e: Enemy)
      requires Valid() && 0 <= i < |enemies|
      requires e.(x := enemies[i].x, y := enemies[i].y, lastShot := enemies[i].lastShot, frame := enemies[i].frame) == enemies[i]
      modifies this
      ensures Valid()
      ensures animationTicks == old(animationTicks) && submittedBefore == old(submittedBefore)
      ensures Snapshot() == old(Snapshot()).(enemies := old(enemies)[i := e])
    {
      assert enemies[i] in enemies;
      enemies := enemies[i := e];
      forall f | f in enemies ensures StatsOfItsRound(f) && f.round <= gs.round {
        if f != e {
          assert f in old(enemies);
        }
      }
    }

    /**
     * The player takes one hit (an enemy's touch, a fireball or the spikes): health goes down
     * by the damage, the player becomes invulnerable, and when health reaches 0 or below in a
     * game still running handleGameOver ends it and sends the score once.
     */
    method HurtPlayer(damage: int, now: int)
      requires Valid() && gs.startTime <= now
      modifies this
      ensures Valid()
      ensures animationTicks == old(animationTicks) && submittedBefore == old(submittedBefore)
      ensures
        var ends := old(player.health) - damage <= 0 && !old(gs.gameOver);
        Snapshot() == old(Snapshot()).(
          player := old(player).(health := old(player.health) - damage, invulnerable := true),
          gs := old(gs).(gameOver := old(gs.gameOver) || ends, scoreSubmitted := old(gs.scoreSubmitted) || ends),
          submissions := old(submissions) + Submitted(ends, old(gs.score), now - old(gs.startTime)))
    {
      player := player.(health := player.health - damage, invulnerable := true);
      if player.health <= 0 && !gs.gameOver {
        HandleGameOver(now);
      }
    }

    /**
     * Enemy i died: it leaves the array, the kill is scored and counted, and the round check
     * runs (clearing both projectile pools when the round goes up).
     */
    method KillEnemy(i: int, now: int)
      requires Valid() && 0 <= i < |enemies|
      modifies this
      ensures Valid()
      ensures animationTicks == old(animationTicks) && submittedBefore == old(submittedBefore)
      ensures
        var g := Kill(old(gs), now);
        var advanced := g.round != old(gs.round);
        Snapshot() == old(Snapshot()).(
          enemies := old(enemies[..i]) + old(enemies[i + 1..]),
          gs := g,
          projectiles := if advanced then [] else old(projectiles),
          enemyProjectiles := if advanced then [] else old(enemyProjectiles))
    {
      ghost var g0 := gs;
      KillKeepsCountersAgreeing(g0, now);
      gs := gs.(score := gs.score + ScoreValue, dragonsDefeated := gs.dragonsDefeated + 1,
                totalDragonsDefeated := gs.totalDragonsDefeated + 1);
      enemies := enemies[..i] + enemies[i + 1..];
      CheckRoundAdvancement(now);
      assert gs == Kill(g0, now);
      forall f | f in enemies ensures StatsOfItsRound(f) && f.round <= gs.round {
        assert f in old(enemies);
      }
    }

    /**
     * One frame of draw() once its frame timer lets it through: outside game over, the
     * animation clock ticks and update() runs. The frame after game over changes nothing.
     */
    method Frame(now: int, input: Input, steps: seq<EnemyStep>, draws: seq<Draw>)
      requires Valid() && gs.startTime <= now && |steps| == |enemies| && ValidDraws(draws)
      modifies this
      ensures Valid() && submittedBefore == old(submittedBefore)
      ensures old(gs.gameOver) ==> Snapshot() == old(Snapshot()) && animationTicks == old(animationTicks)
      ensures !old(gs.gameOver) ==> animationTicks == old(animationTicks) + 1
      ensures !old(gs.gameOver) ==>
        gs.lastSpawn == if now - old(gs.lastSpawn) > SpawnInterval then now else old(gs.lastSpawn)
      ensures gs.totalDragonsDefeated >= old(gs.totalDragonsDefeated) && gs.round >= old(gs.round)
      ensures gs.score >= old(gs.score) && gs.startTime == old(gs.startTime)
    {
      if gs.gameOver {
        return;
      }
      UpdateAnimations();
      Update(now, input, steps, draws);
    }

    /**
     * update(): the movers (MovePhase), the fights (FightPhase), then a spawn when more than
     * 10 seconds have passed since the last one. The kill counters, the round and the score
     * only grow.
     */
    method Update(now: int, input: Input, steps: seq<EnemyStep>, draws: seq<Draw>)
      requires Valid() && gs.startTime <= now && |steps| == |enemies| && ValidDraws(draws)
      modifies this
      ensures Valid() && animationTicks == old(animationTicks) && submittedBefore == old(submittedBefore)
      ensures gs.lastSpawn == if now - old(gs.lastSpawn) > SpawnInterval then now else old(gs.lastSpawn)
      ensures gs.totalDragonsDefeated >= old(gs.totalDragonsDefeated) && gs.round >= old(gs.round)
      ensures gs.score >= old(gs.score) && gs.startTime == old(gs.startTime)
    {
      MovePhase(now, input);
      FightPhase(now, steps);
      if now - gs.lastSpawn > SpawnInterval {
        var _ := SpawnEnemy(draws);
        RestartSpawnClock(now);
      }
    }

    /**
     * The second half of update() before the spawn check: updateEnemies,
     * handleProjectileCollisions and checkSpikeDamage. Kills only add to the counters.
     */
    method FightPhase(now: int, steps: seq<EnemyStep>)
      requires Valid() && gs.startTime <= now && |steps| == |enemies|
      modifies this
      ensures Valid() && animationTicks == old(animationTicks) && submittedBefore == old(submittedBefore)
      ensures gs.lastSpawn == old(gs.lastSpawn) && gs.startTime == old(gs.startTime)
      ensures gs.totalDragonsDefeated >= old(gs.totalDragonsDefeated)
    {
      UpdateEnemies(now, steps);
      HandleProjectileCollisions();
      CheckSpikeDamage(now);
    }

    /**
     * The first half of update(): updatePlayer, handleProjectiles, updateEnemyProjectiles and
     * updateCamera. None of them touches the enemies or the kill counters.
     */
    method MovePhase(now: int, input: Input)
      requires Valid() && gs.startTime <= now
      modifies this
      ensures Valid() && animationTicks == old(animationTicks) && submittedBefore == old(submittedBefore)
      ensures enemies == old(enemies)
      ensures gs == old(gs).(gameOver := gs.gameOver, scoreSubmitted := gs.scoreSubmitted)
    {
      UpdatePlayer(input);
      HandleProjectiles(input.fire);
      UpdateEnemyProjectiles(now);
      UpdateCamera();
    }
  }

  /** a is what is left of b after dropping a prefix. */
  predicate IsSuffix(a: seq<Fireball>, b: seq<Fireball>) {
    exists j | 0 <= j <= |b| :: a == b[j..]
  }

  /** Appending the same items to a suffix and to the whole keeps it a suffix; [] is a suffix of anything. */
  lemma SuffixAppend(a: seq<Fireball>, b: seq<Fireball>, t: seq<Fireball>)
    ensures IsSuffix([], b)
    ensures IsSuffix(a, b) ==> IsSuffix(a + t, b + t)
  {
    assert b[|b|..] == [];
    if IsSuffix(a, b) {
      var j :| 0 <= j <= |b| && a == b[j..];
      assert a + t == (b + t)[j..];
    }
  }

  /**
   * The globals after enemy i of g takes step s at time now: it moves; if it then touches
   * a player that is not invulnerable, the player loses its damage and becomes invulnerable,
   * and a hit that empties the player's health in a running game ends it and sends the score;
   * a shooter pushes its fireball; a dead enemy is removed and scored (and a completed round
   * clears both pools); a living one is written back stepped.
   */
  function EnemyStepped(grid: Grid, g: Globals, i: int, now: int, s: EnemyStep): Globals
    requires 0 <= i < |g.enemies| && g.gs.startTime <= now
  {
    var e := g.enemies[i];
    var contact := Touches(grid, e, s, PlayerBox(g.player)) && !g.player.invulnerable;
    var p := if contact then g.player.(health := g.player.health - e.damage, invulnerable := true) else g.player;
    var ends := contact && p.health <= 0 && !g.gs.gameOver;
    var g1 := g.gs.(gameOver := g.gs.gameOver || ends, scoreSubmitted := g.gs.scoreSubmitted || ends);
    var g2 := if e.health <= 0 then Kill(g1, now) else g1;
    var shot := if Shoots(e, s, now) then [FireballFrom(MoveEnemy(grid, e, s), s.aimX, s.aimY)] else [];
    var advanced := g2.round != g.gs.round;
    g.(player := p,
       enemies := g.enemies[..i] + (if e.health > 0 then [AfterStep(grid, e, s, now)] else []) + g.enemies[i + 1..],
       projectiles := if advanced then [] else g.projectiles,
       enemyProjectiles := if advanced then [] else g.enemyProjectiles + shot,
       gs := g2,
       submissions := g.submissions + Submitted(ends, g.gs.score, now - g.gs.startTime))
  }

  /**
   * What holds of the globals g once the enemies E[k..] of the pass that started from S0
   * (with steps as their steps) have taken their step.
   */
  ghost predicate PassInv(grid: Grid, E: seq<Enemy>, steps: seq<EnemyStep>, now: int, S0: Globals, k: int, g: Globals) {
    && 0 <= k <= |E| && |steps| == |E|
    && PassRoster(grid, E, steps, now, S0, k, g)
    && PassHits(grid, E, steps, now, S0, k, g)
    && PassPools(grid, E, steps, now, S0, k, g)
    && PassFrame(S0, g)
  }

  /** The enemies not yet reached are untouched; the reached ones left the survivors; the dead ones were scored. */
  ghost predicate PassRoster(grid: Grid, E: seq<Enemy>, steps: seq<EnemyStep>, now: int, S0: Globals, k: int, g: Globals)
    requires 0 <= k <= |E| && |steps| == |E|
  {
    && g.enemies == E[..k] + Survivors(grid, E[k..], steps[k..], now)
    && g.gs.totalDragonsDefeated == S0.gs.totalDragonsDefeated + DeadCount(E[k..])
    && g.gs.score == S0.gs.score + ScoreValue * DeadCount(E[k..])
    && g.gs.round >= S0.gs.round
  }

  /** The player took the hit of the highest-indexed reached enemy touching them, if not invulnerable. */
  ghost predicate PassHits(grid: Grid, E: seq<Enemy>, steps: seq<EnemyStep>, now: int, S0: Globals, k: int, g: Globals)
    requires 0 <= k <= |E| && |steps| == |E|
  {
    && S0.gs.startTime <= now
    && (g.player, g.gs.gameOver, g.submissions) == ContactOutcome(grid, E[k..], steps[k..], now, S0)
  }

  /**
   * The player, the game-over flag and the submission log after the enemies es (with steps
   * ss) have stepped from the globals S0: only the highest-indexed enemy touching the player
   * hurts them, if they were not invulnerable; the game ends when that hit empties their
   * health, and the score sent then includes the kills of the enemies stepped before it.
   */
  ghost function ContactOutcome(grid: Grid, es: seq<Enemy>, ss: seq<EnemyStep>, now: int, S0: Globals): (Player, bool, seq<Submission>)
    requires |ss| == |es| && S0.gs.startTime <= now
  {
    var c := LastContact(grid, es, ss, PlayerBox(S0.player));
    if c < 0 || S0.player.invulnerable then (S0.player, false, S0.submissions)
    else
      var health := S0.player.health - es[c].damage;
      var score := S0.gs.score + ScoreValue * DeadCount(es[c + 1..]);
      (S0.player.(health := health, invulnerable := true), health <= 0,
       S0.submissions + Submitted(health <= 0, score, now - S0.gs.startTime))
  }

  /** The fireballs of the reached enemies were pushed in order, unless a round advance cleared the pools. */
  ghost predicate PassPools(grid: Grid, E: seq<Enemy>, steps: seq<EnemyStep>, now: int, S0: Globals, k: int, g: Globals)
    requires 0 <= k <= |E| && |steps| == |E|
  {
    var volley := S0.enemyProjectiles + Volley(grid, E[k..], steps[k..], now);
    && (g.gs.round == S0.gs.round ==> g.projectiles == S0.projectiles && g.enemyProjectiles == volley)
    && (g.gs.round != S0.gs.round ==> g.projectiles == [] && IsSuffix(g.enemyProjectiles, volley))
  }

  /** Nothing else changed. */
  ghost predicate PassFrame(S0: Globals, g: Globals) {
    && g.gs.startTime == S0.gs.startTime && g.gs.lastSpawn == S0.gs.lastSpawn
    && g == S0.(player := g.player, enemies := g.enemies, projectiles := g.projectiles,
                enemyProjectiles := g.enemyProjectiles, gs := g.gs, submissions := g.submissions)
  }

  /**
   * What updateEnemies does to the globals S0 when the enemies E (with steps as their homing
   * steps) take their step: the array holds exactly the living enemies, stepped, in order;
   * every dead one was scored and counted; the player was hurt at most once, by the
   * highest-indexed enemy touching them and only if they were not invulnerable, and the game
   * ended (sending the score reached at that moment) exactly when that hit emptied their
   * health; the fireballs of the pass were pushed in order, unless a round advance cleared the
   * pools on the way; nothing else changed.
   */
  ghost predicate EnemiesPassed(grid: Grid, E: seq<Enemy>, steps: seq<EnemyStep>, now: int, S0: Globals, g: Globals)
    requires |steps| == |E|
  {
    var volley := S0.enemyProjectiles + Volley(grid, E, steps, now);
    && S0.gs.startTime <= now
    && g.enemies == Survivors(grid, E, steps, now)
    && (g.player, g.gs.gameOver, g.submissions) == ContactOutcome(grid, E, steps, now, S0)
    && g.gs.totalDragonsDefeated == S0.gs.totalDragonsDefeated + DeadCount(E)
    && (g.gs.round == S0.gs.round ==> g.projectiles == S0.projectiles && g.enemyProjectiles == volley)
    && (g.gs.round != S0.gs.round ==> g.projectiles == [] && IsSuffix(g.enemyProjectiles, volley))
    && PassFrame(S0, g)
  }

  /** Once every enemy has been reached, PassInv is EnemiesPassed. */
  lemma PassDone(grid: Grid, E: seq<Enemy>, steps: seq<EnemyStep>, now: int, S0: Globals, k: int, g: Globals)
    requires k <= 0 && PassInv(grid, E, steps, now, S0, k, g)
    ensures EnemiesPassed(grid, E, steps, now, S0, g)
  {
    assert E[..0] == [] && E[0..] == E && steps[0..] == steps;
  }

  /** Before the first step, PassInv holds at the end of the array. */
  lemma PassStart(grid: Grid, E: seq<Enemy>, steps: seq<EnemyStep>, now: int, S0: Globals)
    requires |steps| == |E| && S0.enemies == E && S0.gs.startTime <= now && !S0.gs.gameOver
    ensures PassInv(grid, E, steps, now, S0, |E|, S0)
  {
    assert E[|E|..] == [] && E[..|E|] == E && steps[|E|..] == [];
    assert ContactOutcome(grid, [], [], now, S0) == (S0.player, false, S0.submissions);
  }

  /** One more enemy's step keeps PassInv, one index lower. */
  lemma PassInvStep(grid: Grid, E: seq<Enemy>, steps: seq<EnemyStep>, now: int, S0: Globals, k: int, g: Globals)
    requires 0 <= k < |E| && PassInv(grid, E, steps, now, S0, k + 1, g) && CountersAgree(g.gs)
    ensures k < |g.enemies| && g.enemies[k] == E[k]
    ensures PassInv(grid, E, steps, now, S0, k, EnemyStepped(grid, g, k, now, steps[k]))
  {
    EnemyPassStep(grid, E, k, steps, now, PlayerBox(S0.player));
    assert g.enemies[k] == E[k];
    RosterStep(grid, E, steps, now, S0, k, g);
    HitsStep(grid, E, steps, now, S0, k, g);
    PoolsStep(grid, E, steps, now, S0, k, g);
    FrameStep(grid, S0, g, k, now, steps[k]);
  }

  /** One enemy's step changes none of the globals PassFrame keeps. */
  lemma FrameStep(grid: Grid, S0: Globals, g: Globals, i: int, now: int, s: EnemyStep)
    requires 0 <= i < |g.enemies| && g.gs.startTime <= now && PassFrame(S0, g)
    ensures PassFrame(S0, EnemyStepped(grid, g, i, now, s))
  {
  }

  /** The kill bookkeeping of one step, applied to any game-over flags: round stays or goes up by one. */
  lemma KillRound(gs: GameState, now: int)
    requires CountersAgree(gs)
    ensures forall b1: bool, b2: bool :: Kill(gs.(gameOver := b1, scoreSubmitted := b2), now).round in {gs.round, gs.round + 1}
  {
    forall b1: bool, b2: bool ensures Kill(gs.(gameOver := b1, scoreSubmitted := b2), now).round in {gs.round, gs.round + 1} {
      KillKeepsCountersAgreeing(gs.(gameOver := b1, scoreSubmitted := b2), now);
    }
  }

  lemma RosterStep(grid: Grid, E: seq<Enemy>, steps: seq<EnemyStep>, now: int, S0: Globals, k: int, g: Globals)
    requires 0 <= k < |E| && |steps| == |E| && PassRoster(grid, E, steps, now, S0, k + 1, g) && CountersAgree(g.gs)
    requires g.enemies[k] == E[k] && g.gs.startTime <= now
    requires Survivors(grid, E[k..], steps[k..], now) ==
      (if E[k].health > 0 then [AfterStep(grid, E[k], steps[k], now)] else []) + Survivors(grid, E[k + 1..], steps[k + 1..], now)
    requires DeadCount(E[k..]) == (if E[k].health <= 0 then 1 else 0) + DeadCount(E[k + 1..])
    ensures PassRoster(grid, E, steps, now, S0, k, EnemyStepped(grid, g, k, now, steps[k]))
  {
    StepKillFacts(grid, g, k, now, steps[k]);
    RosterFromFacts(grid, E, steps, now, S0, k, g, EnemyStepped(grid, g, k, now, steps[k]));
  }

  /** The roster step, for any g' whose enemies and counters are those one step leaves. */
  lemma RosterFromFacts(grid: Grid, E: seq<Enemy>, steps: seq<EnemyStep>, now: int, S0: Globals, k: int, g: Globals, g': Globals)
    requires 0 <= k < |E| && |steps| == |E| && PassRoster(grid, E, steps, now, S0, k + 1, g)
    requires k < |g.enemies| && g.enemies[k] == E[k]
    requires Survivors(grid, E[k..], steps[k..], now) ==
      (if E[k].health > 0 then [AfterStep(grid, E[k], steps[k], now)] else []) + Survivors(grid, E[k + 1..], steps[k + 1..], now)
    requires DeadCount(E[k..]) == (if E[k].health <= 0 then 1 else 0) + DeadCount(E[k + 1..])
    requires g'.enemies == g.enemies[..k] + (if E[k].health > 0 then [AfterStep(grid, E[k], steps[k], now)] else []) + g.enemies[k + 1..]
    requires var dead := if E[k].health <= 0 then 1 else 0;
      && g'.gs.totalDragonsDefeated == g.gs.totalDragonsDefeated + dead
      && g'.gs.score == g.gs.score + ScoreValue * dead
      && g'.gs.round >= g.gs.round
    ensures PassRoster(grid, E, steps, now, S0, k, g')
  {
    SpliceOne(E, k, Survivors(grid, E[k + 1..], steps[k + 1..], now), g.enemies,
      if E[k].health > 0 then [AfterStep(grid, E[k], steps[k], now)] else []);
  }

  /** Replacing element k of P[..k + 1] + S by mid leaves P[..k] + mid + S. */
  lemma SpliceOne<T>(P: seq<T>, k: int, S: seq<T>, G: seq<T>, mid: seq<T>)
    requires 0 <= k < |P| && G == P[..k + 1] + S
    ensures G[..k] + mid + G[k + 1..] == P[..k] + (mid + S)
  {
    assert G[..k] == P[..k];
    assert G[k + 1..] == S;
  }

  /** What one enemy's step does to the kill counters: a dead enemy adds one kill and its score. */
  lemma StepKillFacts(grid: Grid, g: Globals, i: int, now: int, s: EnemyStep)
    requires 0 <= i < |g.enemies| && g.gs.startTime <= now && CountersAgree(g.gs)
    ensures
      var g' := EnemyStepped(grid, g, i, now, s);
      var dead := if g.enemies[i].health <= 0 then 1 else 0;
      && g'.gs.totalDragonsDefeated == g.gs.totalDragonsDefeated + dead
      && g'.gs.score == g.gs.score + ScoreValue * dead
      && g'.gs.round >= g.gs.round
      && g'.enemies == g.enemies[..i] + (if g.enemies[i].health > 0 then [AfterStep(grid, g.enemies[i], s, now)] else []) + g.enemies[i + 1..]
  {
    KillRound(g.gs, now);
  }

  /** What one enemy's step does to the player, the game-over flag and the submission log. */
  lemma StepHitFacts(grid: Grid, g: Globals, i: int, now: int, s: EnemyStep)
    requires 0 <= i < |g.enemies| && g.gs.startTime <= now
    ensures
      var g' := EnemyStepped(grid, g, i, now, s);
      var e := g.enemies[i];
      var touch := Touches(grid, e, s, PlayerBox(g.player)) && !g.player.invulnerable;
      var ends := touch && g.player.health - e.damage <= 0 && !g.gs.gameOver;
      && g'.player == (if touch then g.player.(health := g.player.health - e.damage, invulnerable := true) else g.player)
      && g'.gs.gameOver == (g.gs.gameOver || ends)
      && g'.submissions == g.submissions + Submitted(ends, g.gs.score, now - g.gs.startTime)
  {
    var e := g.enemies[i];
    var touch := Touches(grid, e, s, PlayerBox(g.player)) && !g.player.invulnerable;
    var ends := touch && g.player.health - e.damage <= 0 && !g.gs.gameOver;
    var g1 := g.gs.(gameOver := g.gs.gameOver || ends, scoreSubmitted := g.gs.scoreSubmitted || ends);
    assert Kill(g1, now).gameOver == g1.gameOver;
  }

  lemma HitsStep(grid: Grid, E: seq<Enemy>, steps: seq<EnemyStep>, now: int, S0: Globals, k: int, g: Globals)
    requires 0 <= k < |E| && |steps| == |E| && PassHits(grid, E, steps, now, S0, k + 1, g)
    requires k < |g.enemies| && g.enemies[k] == E[k] && g.gs.startTime == S0.gs.startTime
    requires g.gs.score == S0.gs.score + ScoreValue * DeadCount(E[k + 1..])
    ensures PassHits(grid, E, steps, now, S0, k, EnemyStepped(grid, g, k, now, steps[k]))
  {
    StepHitFacts(grid, g, k, now, steps[k]);
    HitsFromFacts(grid, E, steps, now, S0, k, g, EnemyStepped(grid, g, k, now, steps[k]));
  }

  /** The step of PassHits, for any globals g' that agree with what StepHitFacts says of enemy k's step. */
  lemma HitsFromFacts(grid: Grid, E: seq<Enemy>, steps: seq<EnemyStep>, now: int, S0: Globals, k: int, g: Globals, g': Globals)
    requires 0 <= k < |E| && |steps| == |E| && PassHits(grid, E, steps, now, S0, k + 1, g)
    requires g.gs.startTime == S0.gs.startTime
    requires g.gs.score == S0.gs.score + ScoreValue * DeadCount(E[k + 1..])
    requires
      var touch := Touches(grid, E[k], steps[k], PlayerBox(g.player)) && !g.player.invulnerable;
      var ends := touch && g.player.health - E[k].damage <= 0 && !g.gs.gameOver;
      && g'.player == (if touch then g.player.(health := g.player.health - E[k].damage, invulnerable := true) else g.player)
      && g'.gs.gameOver == (g.gs.gameOver || ends)
      && g'.submissions == g.submissions + Submitted(ends, g.gs.score, now - g.gs.startTime)
    ensures PassHits(grid, E, steps, now, S0, k, g')
  {
    ContactOutcomeStep(grid, E, steps, now, S0, k);
    var target := PlayerBox(S0.player);
    ContactCaseStep(ContactOutcome(grid, E[k..], steps[k..], now, S0), ContactOutcome(grid, E[k + 1..], steps[k + 1..], now, S0),
      S0, S0.player.invulnerable || LastContact(grid, E[k + 1..], steps[k + 1..], target) >= 0,
      Touches(grid, E[k], steps[k], target), Touches(grid, E[k], steps[k], PlayerBox(g.player)),
      E[k].damage, DeadCount(E[k + 1..]), now, g, g');
  }

  /**
   * How the contact outcome of a run of enemies relates to the outcome of the run without
   * its first enemy: a shielded player (already invulnerable, or hit by a later enemy) keeps
   * the later outcome; otherwise the first enemy's touch decides.
   */
  ghost predicate ContactCase(cur: (Player, bool, seq<Submission>), prev: (Player, bool, seq<Submission>), S0: Globals,
                              shielded: bool, touch: bool, damage: int, dead: int, now: int)
  {
    var health := S0.player.health - damage;
    && S0.gs.startTime <= now
    && (shielded ==> prev.0.invulnerable && cur == prev)
    && (!shielded ==> !S0.player.invulnerable && prev == (S0.player, false, S0.submissions))
    && (!shielded && touch ==>
          cur == (S0.player.(health := health, invulnerable := true), health <= 0,
                  S0.submissions + Submitted(health <= 0, S0.gs.score + ScoreValue * dead, now - S0.gs.startTime)))
    && (!shielded && !touch ==> cur == prev)
  }

  /** ContactOutcome at enemy k, by cases on the enemies after it. */
  lemma ContactOutcomeStep(grid: Grid, E: seq<Enemy>, steps: seq<EnemyStep>, now: int, S0: Globals, k: int)
    requires 0 <= k < |E| && |steps| == |E| && S0.gs.startTime <= now
    ensures
      var target := PlayerBox(S0.player);
      ContactCase(ContactOutcome(grid, E[k..], steps[k..], now, S0), ContactOutcome(grid, E[k + 1..], steps[k + 1..], now, S0),
        S0, S0.player.invulnerable || LastContact(grid, E[k + 1..], steps[k + 1..], target) >= 0,
        Touches(grid, E[k], steps[k], target), E[k].damage, DeadCount(E[k + 1..]), now)
  {
    assert E[k..][0] == E[k] && steps[k..][0] == steps[k];
    assert E[k..][1..] == E[k + 1..] && steps[k..][1..] == steps[k + 1..];
    ContactOutcomeCons(grid, E[k..], steps[k..], now, S0);
  }

  /** One enemy's step takes the outcome of the later enemies to the outcome including it. */
  lemma ContactCaseStep(cur: (Player, bool, seq<Submission>), prev: (Player, bool, seq<Submission>), S0: Globals,
                        shielded: bool, touch: bool, touchNow: bool, damage: int, dead: int, now: int, g: Globals, g': Globals)
    requires ContactCase(cur, prev, S0, shielded, touch, damage, dead, now)
    requires (g.player, g.gs.gameOver, g.submissions) == prev
    requires g.player == S0.player ==> touchNow == touch
    requires g.gs.startTime == S0.gs.startTime && g.gs.score == S0.gs.score + ScoreValue * dead
    requires
      var hit := touchNow && !g.player.invulnerable;
      var ends := hit && g.player.health - damage <= 0 && !g.gs.gameOver;
      && g'.player == (if hit then g.player.(health := g.player.health - damage, invulnerable := true) else g.player)
      && g'.gs.gameOver == (g.gs.gameOver || ends)
      && g'.submissions == g.submissions + Submitted(ends, g.gs.score, now - g.gs.startTime)
    ensures (g'.player, g'.gs.gameOver, g'.submissions) == cur
  {
    if shielded {
      assert g.player.invulnerable;
      assert g.submissions + [] == g.submissions;
    } else if touch {
      assert g.player == S0.player && !g.gs.gameOver && g.submissions == S0.submissions;
    } else {
      assert g.player == S0.player && g.submissions + [] == g.submissions;
    }
  }

  /** ContactOutcome of a non-empty run of enemies, in terms of the run without its first enemy. */
  lemma ContactOutcomeCons(grid: Grid, es: seq<Enemy>, ss: seq<EnemyStep>, now: int, S0: Globals)
    requires 0 < |es| && |ss| == |es| && S0.gs.startTime <= now
    ensures
      var prev := ContactOutcome(grid, es[1..], ss[1..], now, S0);
      var health := S0.player.health - es[0].damage;
      ContactOutcome(grid, es, ss, now, S0) ==
        if S0.player.invulnerable || LastContact(grid, es[1..], ss[1..], PlayerBox(S0.player)) >= 0 then prev
        else if Touches(grid, es[0], ss[0], PlayerBox(S0.player)) then
          (S0.player.(health := health, invulnerable := true), health <= 0,
           S0.submissions + Submitted(health <= 0, S0.gs.score + ScoreValue * DeadCount(es[1..]), now - S0.gs.startTime))
        else prev
  {
    var r := LastContact(grid, es[1..], ss[1..], PlayerBox(S0.player));
    if r >= 0 {
      assert es[r + 1] == es[1..][r] && es[r + 2..] == es[1..][r + 1..];
    }
  }

  lemma PoolsStep(grid: Grid, E: seq<Enemy>, steps: seq<EnemyStep>, now: int, S0: Globals, k: int, g: Globals)
    requires 0 <= k < |E| && |steps| == |E| && PassPools(grid, E, steps, now, S0, k + 1, g) && CountersAgree(g.gs)
    requires g.gs.round >= S0.gs.round
    requires k < |g.enemies| && g.enemies[k] == E[k] && g.gs.startTime <= now
    requires Volley(grid, E[k..], steps[k..], now) == Volley(grid, E[k + 1..], steps[k + 1..], now) +
      (if Shoots(E[k], steps[k], now) then [FireballFrom(MoveEnemy(grid, E[k], steps[k]), steps[k].aimX, steps[k].aimY)] else [])
    ensures PassPools(grid, E, steps, now, S0, k, EnemyStepped(grid, g, k, now, steps[k]))
  {
    var g' := EnemyStepped(grid, g, k, now, steps[k]);
    var shot := if Shoots(E[k], steps[k], now) then [FireballFrom(MoveEnemy(grid, E[k], steps[k]), steps[k].aimX, steps[k].aimY)] else [];
    var volley := S0.enemyProjectiles + Volley(grid, E[k + 1..], steps[k + 1..], now);
    assert volley + shot == S0.enemyProjectiles + Volley(grid, E[k..], steps[k..], now);
    SuffixAppend(g.enemyProjectiles, volley, shot);
    SuffixAppend([], volley + shot, []);
    KillRound(g.gs, now);
    assert g'.gs.round >= g.gs.round;
    if g'.gs.round != g.gs.round {
      assert g'.projectiles == [] && g'.enemyProjectiles == [];
    } else {
      assert g'.projectiles == g.projectiles && g'.enemyProjectiles == g.enemyProjectiles + shot;
    }
  }

  /** The enemy pass's reference functions, unfolded at the enemy the loop reaches next. */
  lemma EnemyPassStep(grid: Grid, E: seq<Enemy>, k: int, steps: seq<EnemyStep>, now: int, target: Box)
    requires 0 <= k < |E| && |steps| == |E|
    ensures Survivors(grid, E[k..], steps[k..], now) ==
      (if E[k].health > 0 then [AfterStep(grid, E[k], steps[k], now)] else []) + Survivors(grid, E[k + 1..], steps[k + 1..], now)
    ensures DeadCount(E[k..]) == (if E[k].health <= 0 then 1 else 0) + DeadCount(E[k + 1..])
    ensures Volley(grid, E[k..], steps[k..], now) == Volley(grid, E[k + 1..], steps[k + 1..], now) +
      (if Shoots(E[k], steps[k], now) then [FireballFrom(MoveEnemy(grid, E[k], steps[k]), steps[k].aimX, steps[k].aimY)] else [])
    ensures var r := LastContact(grid, E[k + 1..], steps[k + 1..], target);
      LastContact(grid, E[k..], steps[k..], target) ==
        if r >= 0 then r + 1 else if Touches(grid, E[k], steps[k], target) then 0 else -1
  {
    assert E[k..][1..] == E[k + 1..] && steps[k..][1..] == steps[k + 1..];
  }

  /** Enemies that only lost health keep the stats of their round. */
  lemma DamageKeepsStats(es: seq<Enemy>, es': seq<Enemy>, round: int)
    requires SameButHealth(es, es') && forall j | 0 <= j < |es| :: es'[j].health <= es[j].health
    requires forall e | e in es :: StatsOfItsRound(e) && e.round <= round
    ensures forall e | e in es' :: StatsOfItsRound(e) && e.round <= round
  {
    forall e | e in es' ensures StatsOfItsRound(e) && e.round <= round {
      var j :| 0 <= j < |es'| && es'[j] == e;
      assert es[j] in es;
    }
  }

  /** Overwriting index i twice leaves the last value between the untouched halves. */
  lemma ReplaceTwice<T>(s: seq<T>, i: int, x: T, y: T)
    requires 0 <= i < |s|
    ensures s[i := x][i := y] == s[..i] + [y] + s[i + 1..]
  {
  }

  /** The ghost bookkeeping of one pass of the spawn loop: one more position, one more recruit. */
  lemma RecruitStep(grid: Grid, draws: seq<seq<Draw>>, i: int, round: int, points: seq<(real, real)>,
                    recruits: seq<Enemy>, at: (real, real))
    requires CoversAttempts(draws) && 0 <= i < |draws| && round >= 1
    requires CoversAttempts(draws[..i]) && points == SpawnPoints(grid, draws[..i]) && recruits == Recruits(round, points)
    requires at == SpawnPoint(grid, draws[i])
    ensures CoversAttempts(draws[..i + 1]) && points + [at] == SpawnPoints(grid, draws[..i + 1])
    ensures recruits + [NewEnemy(round, at.0, at.1)] == Recruits(round, points + [at])
  {
    RecruitsSnoc(round, points, at);
    SpawnPointsSnoc(grid, draws, i);
  }

  /** One more spawn position adds its dragon at the end. */
  lemma RecruitsSnoc(round: int, points: seq<(real, real)>, at: (real, real))
    requires round >= 1
    ensures Recruits(round, points + [at]) == Recruits(round, points) + [NewEnemy(round, at.0, at.1)]
  {
    assert (points + [at])[..|points|] == points;
  }

  /** One valid supply of random draws per spawnEnemy call. */
  predicate Supplies(draws: seq<seq<Draw>>) {
    forall k | 0 <= k < |draws| :: ValidDraws(draws[k])
  }

  /**
   * The dragons spawnEnemy pushes in the given round at the given spawn positions, in order:
   * one per position, each with the stats of the round and full health.
   */
  function Recruits(round: int, points: seq<(real, real)>): (es: seq<Enemy>)
    requires round >= 1
    ensures |es| == |points|
    ensures forall e | e in es :: StatsOfItsRound(e) && e.round == round && e.health == e.maxHealth
  {
    if points == [] then []
    else
      var last := points[|points| - 1];
      Recruits(round, points[..|points| - 1]) + [NewEnemy(round, last.0, last.1)]
  }

  /** The submission a game-over step appends: one entry when the game ends in it, none otherwise. */
  function Submitted(ends: bool, score: int, elapsed: nat): seq<Submission> {
    if ends then [Submission(score, elapsed)] else []
  }

  /** The start tile is clear: the player's 24 x 32 box at (48, 112) covers floor tiles only. */
  lemma PlayerStartClear()
    ensures !TileBoxBlocked(Tilemap, PlayerStartX, PlayerStartY, PlayerBoxWidth, PlayerBoxHeight)
  {
    assert CellOf(PlayerStartX) == 3 && CellOf(PlayerStartX + PlayerBoxWidth - 1.0) == 4;
    assert CellOf(PlayerStartY) == 7 && CellOf(PlayerStartY + PlayerBoxHeight - 1.0) == 8;
    StartCellsFloor();
  }

  /** Tiles (3, 7), (4, 7), (3, 8) and (4, 8) of the game's map are floor or checkered floor. */
  lemma StartCellsFloor()
    ensures forall row, col | 7 <= row <= 8 && 3 <= col <= 4 :: !SolidCell(Tilemap, row, col)
  {
    assert Tilemap[7] == Row7 && Tilemap[8] == Row8;
    assert Row7[3] == 1 && Row7[4] == 2 && Row8[3] == 1 && Row8[4] == 2;
  }
}
