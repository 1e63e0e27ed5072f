/**
 * The game session: score, lives, level and the running flag, the ship,
 * the five entity arrays and the input state, and the operations that
 * update them in place once per display frame.
 *
 * What the model takes as given: the five spread-shot velocities (sines
 * and cosines of fixed angles) and the normalised rocket step, both fixed
 * when a game is built; the clock and the random draws, passed to the
 * operations that read them; and the pointer offset inside the canvas.
 */
module Shooter {
  import opened Entities
  import opened Sweeps
  import opened Targeting
  import opened Collisions
  import opened Losses

  const START_LIVES: int := 3
  const START_LEVEL: int := 20
  const SHOOT_COOLDOWN: int := 50
  const ROCKET_COOLDOWN: int := 300
  const FIRE_KEY: string := " "
  const UP_KEY: string := "ArrowUp"
  const DOWN_KEY: string := "ArrowDown"

  /** The pointer position clamped so that the whole ship stays on the field. */
  function ClampPointer(x: real): (c: real)
    ensures PLAYER_WIDTH / 2.0 <= c <= FIELD_WIDTH - PLAYER_WIDTH / 2.0
    ensures PLAYER_WIDTH / 2.0 <= x <= FIELD_WIDTH - PLAYER_WIDTH / 2.0 ==> c == x
    ensures x < PLAYER_WIDTH / 2.0 ==> c == PLAYER_WIDTH / 2.0
    ensures x > FIELD_WIDTH - PLAYER_WIDTH / 2.0 ==> c == FIELD_WIDTH - PLAYER_WIDTH / 2.0
  {
    if x < PLAYER_WIDTH / 2.0 then PLAYER_WIDTH / 2.0
    else if x > FIELD_WIDTH - PLAYER_WIDTH / 2.0 then FIELD_WIDTH - PLAYER_WIDTH / 2.0
    else x
  }

  /**
   * The ship after one frame of input: centred under the pointer, then one
   * step up while the up key is held and it is below the top, then one
   * step down while the down key is held and it is above the bottom.
   */
  function MovePlayer(p: Player, mouseX: real, up: bool, down: bool): (q: Player)
    ensures q.x == mouseX - PLAYER_WIDTH / 2.0
    ensures q.y - PLAYER_SPEED <= p.y <= q.y + PLAYER_SPEED
    ensures !up && !down ==> q.y == p.y
    ensures -PLAYER_SPEED <= p.y <= FIELD_HEIGHT - PLAYER_HEIGHT + PLAYER_SPEED ==>
              -PLAYER_SPEED <= q.y <= FIELD_HEIGHT - PLAYER_HEIGHT + PLAYER_SPEED
  {
    var p1 := p.(x := mouseX - PLAYER_WIDTH / 2.0);
    var p2 := if up && p1.y > 0.0 then p1.(y := p1.y - PLAYER_SPEED) else p1;
    if down && p2.y < FIELD_HEIGHT - PLAYER_HEIGHT then p2.(y := p2.y + PLAYER_SPEED) else p2
  }

  /** The five bullets of one spread shot, in the order they are pushed. */
  function Salvo(p: Player, spread: seq<Vec>): (bs: seq<Bullet>)
  {
    seq(|spread|, k requires 0 <= k < |spread| => FiredBullet(p, spread[k]))
  }

  /** No enemy is past the bottom edge. */
  predicate NoneFallen(es: seq<Enemy>)
  {
    forall k :: 0 <= k < |es| ==> !PastBottom(es[k])
  }

  predicate AllAlive(xs: seq<Explosion>)
  {
    forall k :: 0 <= k < |xs| ==> ExplosionAlive(xs[k])
  }

  predicate AllShowing(bs: seq<Banner>)
  {
    forall k :: 0 <= k < |bs| ==> BannerAlive(bs[k])
  }

  /** What the falling pass leaves: enemies still on the field, and lives lost one per exit. */
  lemma FallOutcome(s: seq<Enemy>, lives: int)
    requires NoneFallen(s)
    ensures var c := Cull(s, Falling, lives);
            && NoneFallen(c.survivors)
            && lives - |s| <= c.lives <= lives
            && c.lives >= (if lives > 0 then 0 else lives - 1)
            && (lives > 0 && !c.over ==> c.lives > 0)
  {
    CullCounts(s, Falling, lives);
    CullSurvivors(s, Falling, lives);
  }

  /** What the ramming pass leaves: enemies still on the field, live blasts, lives lost one per ram. */
  lemma RamOutcome(s: seq<Enemy>, p: Player, lives: int)
    requires NoneFallen(s)
    ensures var c := Cull(s, Ramming(p), lives);
            && NoneFallen(c.survivors)
            && AllAlive(Wreckage(c.removed))
            && lives - |s| <= c.lives <= lives
            && c.lives >= (if lives > 0 then 0 else lives - 1)
            && (lives > 0 && !c.over ==> c.lives > 0)
  {
    CullCounts(s, Ramming(p), lives);
    RammingOnlyRemoves(s, p, lives);
  }

  /** The invariant's share of a tally: enemies on the field, live effects, counters not negative. */
  predicate Settled(t: Tally)
  {
    NoneFallen(t.enemies) && AllAlive(t.explosions) && AllShowing(t.banners) && t.score >= 0 && t.level >= 0
  }

  /** A shot pass keeps a tally settled. */
  lemma VolleyOutcome<T>(shots: seq<T>, boxOf: T -> Box, w: Weapon, t: Tally)
    requires w.points > 0 && w.life > 0
    requires Settled(t)
    ensures Settled(ShotPass(shots, boxOf, w, t).tally)
  {
    ShotPassBlasts(shots, boxOf, w, t);
    ShotPassKeepsBanners(shots, boxOf, w, t);
    ShotPassBanners(shots, boxOf, w, t);
    ShotPassLevelUp(shots, boxOf, w, t);
    ShotPassLevel(shots, boxOf, w, t);
    ShotPassRemovesOnly(shots, boxOf, w, t);
    var v := ShotPass(shots, boxOf, w, t);
    assert forall k :: 0 <= k < |t.explosions| ==> v.tally.explosions[k] == t.explosions[k];
    assert forall k :: 0 <= k < |t.banners| ==> v.tally.banners[k] == t.banners[k];
  }

  class Game {
    var gameRunning: bool
    var score: int
    var lives: int
    var level: int
    var player: Player
    var bullets: seq<Bullet>
    var rockets: seq<Rocket>
    var enemies: seq<Enemy>
    var explosions: seq<Explosion>
    var levelUpEffects: seq<Banner>
    var keys: map<string, bool>
    var mouseX: real
    var isShooting: bool
    var lastShootTime: int
    var lastRocketTime: int

    /** The spread-shot velocities (sin a * 8, -cos a * 8) for a = -40, -20, 0, 20, 40 degrees. */
    const spread: seq<Vec>
    /** steer(dx, dy, speed) stands for (dx / d * speed, dy / d * speed), d the length of (dx, dy). */
    const steer: (real, real, real) -> Vec

    /**
     * The invariant every operation keeps: counters in range, a running
     * session has lives left, the pointer is inside its clamp band, the
     * ship is within the field horizontally and at most one step past its
     * top or bottom edge, no enemy is below the bottom edge and every
     * effect still has life.
     */
    ghost predicate Valid()
      reads this
    {
      && |spread| == BULLET_COUNT
      && score >= 0 && level >= 0
      && (gameRunning ==> lives > 0)
      && PLAYER_WIDTH / 2.0 <= mouseX <= FIELD_WIDTH - PLAYER_WIDTH / 2.0
      && 0.0 <= player.x <= FIELD_WIDTH - PLAYER_WIDTH
      && -PLAYER_SPEED <= player.y <= FIELD_HEIGHT - PLAYER_HEIGHT + PLAYER_SPEED
      && NoneFallen(enemies) && AllAlive(explosions) && AllShowing(levelUpEffects)
    }

    /** The part of the state a kill changes. */
    function Arena(): Tally
      reads this
    {
      Tally(enemies, explosions, levelUpEffects, score, level)
    }

    /** A key counts as held once it went down and has not come up since. */
    predicate Held(key: string)
      reads this
    {
      key in keys && keys[key]
    }

    /** The state before the first session: idle, with level 0. */
    constructor (spread: seq<Vec>, steer: (real, real, real) -> Vec)
      requires |spread| == BULLET_COUNT
      ensures Valid()
      ensures this.spread == spread && this.steer == steer
      ensures !gameRunning && score == 0 && lives == START_LIVES && level == 0
      ensures player == PLAYER_START
      ensures bullets == [] && rockets == [] && enemies == [] && explosions == [] && levelUpEffects == []
      ensures keys == map[] && mouseX == FIELD_WIDTH / 2.0 && !isShooting
      ensures lastShootTime == 0 && lastRocketTime == 0
    {
      this.spread := spread;
      this.steer := steer;
      gameRunning := false;
      score := 0;
      lives := START_LIVES;
      level := 0;
      player := PLAYER_START;
      bullets := [];
      rockets := [];
      enemies := [];
      explosions := [];
      levelUpEffects := [];
      keys := map[];
      mouseX := FIELD_WIDTH / 2.0;
      isShooting := false;
      lastShootTime := 0;
      lastRocketTime := 0;
    }

    // ------------------------------------------------------------ input

    /** A key goes down; the fire key starts auto-fire, but only in a running session. */
    method KeyDown(key: string)
      requires Valid()
      modifies this`keys, this`isShooting
      ensures Valid()
      ensures keys == old(keys)[key := true]
      ensures isShooting == (old(isShooting) || (key == FIRE_KEY && gameRunning))
    {
      keys := keys[key := true];
      if key == FIRE_KEY && gameRunning {
        isShooting := true;
      }
    }

    /** A key comes up; releasing the fire key stops auto-fire. */
    method KeyUp(key: string)
      requires Valid()
      modifies this`keys, this`isShooting
      ensures Valid()
      ensures keys == old(keys)[key := false]
      ensures isShooting == (old(isShooting) && key != FIRE_KEY)
    {
      keys := keys[key := false];
      if key == FIRE_KEY {
        isShooting := false;
      }
    }

    /** The pointer moves to offsetX within the canvas; it is followed only while running. */
    method MouseMove(offsetX: real)
      requires Valid()
      modifies this`mouseX
      ensures Valid()
      ensures mouseX == if gameRunning then ClampPointer(offsetX) else old(mouseX)
    {
      if gameRunning {
        mouseX := ClampPointer(offsetX);
      }
    }

    // -------------------------------------------------- session control

    /** A fresh session: counters reset, level 20, every entity array emptied, ship back at its start. */
    method StartGame()
      requires Valid()
      modifies this`gameRunning, this`score, this`lives, this`level, this`player, this`mouseX,
               this`isShooting, this`bullets, this`rockets, this`enemies, this`explosions,
               this`levelUpEffects
      ensures Valid()
      ensures gameRunning && score == 0 && lives == START_LIVES && level == START_LEVEL
      ensures bullets == [] && rockets == [] && enemies == [] && explosions == [] && levelUpEffects == []
      ensures player == PLAYER_START && mouseX == FIELD_WIDTH / 2.0 && !isShooting
    {
      gameRunning := true;
      score := 0;
      lives := START_LIVES;
      level := START_LEVEL;
      ClearField();
      player := PLAYER_START;
      mouseX := FIELD_WIDTH / 2.0;
      isShooting := false;
    }

    /** Every entity array emptied. */
    method ClearField()
      modifies this`bullets, this`rockets, this`enemies, this`explosions, this`levelUpEffects
      ensures bullets == [] && rockets == [] && enemies == [] && explosions == [] && levelUpEffects == []
    {
      bullets := [];
      rockets := [];
      enemies := [];
      explosions := [];
      levelUpEffects := [];
    }

    /** A fresh session that keeps the level the game had when it was restarted. */
    method RestartGame()
      requires Valid()
      modifies this`gameRunning, this`score, this`lives, this`level, this`player, this`mouseX,
               this`isShooting, this`bullets, this`rockets, this`enemies, this`explosions,
               this`levelUpEffects
      ensures Valid()
      ensures gameRunning && score == 0 && lives == START_LIVES && level == old(level)
      ensures bullets == [] && rockets == [] && enemies == [] && explosions == [] && levelUpEffects == []
      ensures player == PLAYER_START && mouseX == FIELD_WIDTH / 2.0 && !isShooting
    {
      var currentLevel := level;
      StartGame();
      level := currentLevel;
    }

    /** The session ends; nothing else changes. */
    method GameOver()
      modifies this`gameRunning
      ensures old(Valid()) ==> Valid()
      ensures !gameRunning
    {
      gameRunning := false;
    }

    /** The level moves by delta but never below zero. */
    method ChangeLevel(delta: int)
      requires Valid()
      modifies this`level
      ensures Valid()
      ensures level == Max(0, old(level) + delta)
    {
      level := Max(0, level + delta);
    }

    // --------------------------------------------------------- spawning

    /** The spread shot: exactly five bullets appended, after all the ones in flight. */
    method Shoot()
      requires Valid()
      modifies this`bullets
      ensures Valid()
      ensures |bullets| == old(|bullets|) + BULLET_COUNT
      ensures bullets == old(bullets) + Salvo(player, spread)
    {
      for i := 0 to BULLET_COUNT
        invariant bullets == old(bullets) + Salvo(player, spread[..i])
      {
        assert Salvo(player, spread[..i + 1]) == Salvo(player, spread[..i]) + [FiredBullet(player, spread[i])];
        bullets := bullets + [FiredBullet(player, spread[i])];
      }
      assert spread[..BULLET_COUNT] == spread;
    }

    /** A rocket is launched exactly when some enemy exists; otherwise nothing changes. */
    method ShootRocket()
      requires Valid()
      modifies this`rockets
      ensures Valid()
      ensures rockets == old(rockets) + if |enemies| > 0 then [LaunchedRocket(player)] else []
    {
      if |enemies| > 0 {
        rockets := rockets + [LaunchedRocket(player)];
      }
    }

    /**
     * The per-frame spawn trial, with the three uniform draws in [0, 1) as
     * parameters: an enemy above the field appears when the first draw is
     * below the level's spawn rate.
     */
    method CreateEnemy(spawnRoll: real, xRoll: real, speedRoll: real)
      requires Valid()
      requires 0.0 <= spawnRoll < 1.0 && 0.0 <= xRoll < 1.0 && 0.0 <= speedRoll < 1.0
      modifies this`enemies
      ensures Valid()
      ensures enemies == old(enemies) +
                if spawnRoll < SpawnRate(level) then [Spawned(level, xRoll, speedRoll)] else []
    {
      if spawnRoll < SpawnRate(level) {
        enemies := enemies + [Spawned(level, xRoll, speedRoll)];
      }
    }

    /** The auto-fire step: while the fire key is held, a spread shot once its cooldown has passed. */
    method AutoFire(now: int)
      requires Valid()
      modifies this`bullets, this`lastShootTime
      ensures Valid()
      ensures var fire := isShooting && gameRunning && now - old(lastShootTime) >= SHOOT_COOLDOWN;
              && (fire ==> bullets == old(bullets) + Salvo(player, spread) && lastShootTime == now)
              && (!fire ==> bullets == old(bullets) && lastShootTime == old(lastShootTime))
    {
      if isShooting && gameRunning {
        if now - lastShootTime >= SHOOT_COOLDOWN {
          Shoot();
          lastShootTime := now;
        }
      }
    }

    /**
     * The auto-rocket step: once its cooldown has passed, a rocket try. The
     * rocket clock restarts even when no enemy was there to aim at.
     */
    method AutoLaunch(now: int)
      requires Valid()
      modifies this`rockets, this`lastRocketTime
      ensures Valid()
      ensures var launch := gameRunning && now - old(lastRocketTime) >= ROCKET_COOLDOWN;
              && (launch ==> rockets == old(rockets) + (if |enemies| > 0 then [LaunchedRocket(player)] else [])
                             && lastRocketTime == now)
              && (!launch ==> rockets == old(rockets) && lastRocketTime == old(lastRocketTime))
    {
      if gameRunning {
        if now - lastRocketTime >= ROCKET_COOLDOWN {
          ShootRocket();
          lastRocketTime := now;
        }
      }
    }

    /**
     * One frame of ship input at clock time `now` (milliseconds): move the
     * ship, then the auto-fire step, then the auto-rocket step.
     */
    method UpdatePlayer(now: int)
      requires Valid()
      modifies this`player, this`bullets, this`rockets, this`lastShootTime, this`lastRocketTime
      ensures Valid()
      ensures player == MovePlayer(old(player), mouseX, Held(UP_KEY), Held(DOWN_KEY))
      ensures var fire := isShooting && gameRunning && now - old(lastShootTime) >= SHOOT_COOLDOWN;
              && (fire ==> bullets == old(bullets) + Salvo(player, spread) && lastShootTime == now)
              && (!fire ==> bullets == old(bullets) && lastShootTime == old(lastShootTime))
      ensures var launch := gameRunning && now - old(lastRocketTime) >= ROCKET_COOLDOWN;
              && (launch ==> rockets == old(rockets) + (if |enemies| > 0 then [LaunchedRocket(player)] else [])
                             && lastRocketTime == now)
              && (!launch ==> rockets == old(rockets) && lastRocketTime == old(lastRocketTime))
    {
      player := MovePlayer(player, mouseX, Held(UP_KEY), Held(DOWN_KEY));
      AutoFire(now);
      AutoLaunch(now);
    }

    // ---------------------------------------------------------- motion

    /** Every bullet moves one frame; those that left the field are spliced out. */
    method UpdateBullets()
      requires Valid()
      modifies this`bullets
      ensures Valid()
      ensures bullets == Sweep(old(bullets), MoveBullet, BulletOnScreen)
      ensures forall k :: 0 <= k < |bullets| ==> BulletOnScreen(bullets[k])
    {
      ghost var s0 := bullets;
      ghost var done: seq<Bullet> := [];
      assert s0[..|s0|] == s0;
      var i := |bullets| - 1;
      while i >= 0
        invariant -1 <= i < |s0|
        invariant bullets == s0[..i + 1] + done
        invariant Sweep(s0, MoveBullet, BulletOnScreen) ==
                  Sweep(s0[..i + 1], MoveBullet, BulletOnScreen) + done
      {
        SweepUnfold(s0, i, done, MoveBullet, BulletOnScreen);
        assert bullets[i] == s0[i];
        var bullet := MoveBullet(bullets[i]);
        Splice(s0, done, i, bullet);
        bullets := bullets[i := bullet];
        if !BulletOnScreen(bullet) {
          bullets := bullets[..i] + bullets[i + 1..];
        } else {
          done := [bullet] + done;
        }
        i := i - 1;
      }
      SweepAllPass(s0, MoveBullet, BulletOnScreen);
    }

    /**
     * Every rocket moves one frame, homing rockets toward the enemy nearest
     * to them; those that left the field are spliced out.
     */
    method UpdateRockets()
      requires Valid()
      modifies this`rockets
      ensures Valid()
      ensures rockets == Sweep(old(rockets), Steering(enemies, steer), RocketOnScreen)
      ensures forall k :: 0 <= k < |rockets| ==> RocketOnScreen(rockets[k])
    {
      ghost var s0 := rockets;
      ghost var move := Steering(enemies, steer);
      ghost var done: seq<Rocket> := [];
      assert s0[..|s0|] == s0;
      var i := |rockets| - 1;
      while i >= 0
        invariant -1 <= i < |s0|
        invariant rockets == s0[..i + 1] + done
        invariant Sweep(s0, move, RocketOnScreen) == Sweep(s0[..i + 1], move, RocketOnScreen) + done
      {
        SweepUnfold(s0, i, done, move, RocketOnScreen);
        assert rockets[i] == s0[i];
        var rocket := rockets[i];
        var target: Option<Enemy> := None;
        if rocket.homing && |enemies| > 0 {
          var nearest := FindNearest(enemies, rocket.x, rocket.y);
          target := Some(enemies[nearest.value]);
        }
        assert target == if rocket.homing then NearestTarget(enemies, rocket.x, rocket.y) else None;
        rocket := Guide(rocket, target, steer);
        assert move(s0[i]) == MoveRocket(s0[i], enemies, steer);
        Splice(s0, done, i, rocket);
        rockets := rockets[i := rocket];
        if !RocketOnScreen(rocket) {
          rockets := rockets[..i] + rockets[i + 1..];
        } else {
          done := [rocket] + done;
        }
        i := i - 1;
      }
      SweepAllPass(s0, move, RocketOnScreen);
    }

    /**
     * Every enemy falls one frame, from the last down; one past the bottom
     * edge is spliced out and costs a life, and when lives reach zero the
     * session ends and the remaining enemies are left as they are.
     */
    method UpdateEnemies()
      requires Valid()
      modifies this`enemies, this`lives, this`gameRunning
      ensures Valid()
      ensures var c := Cull(old(enemies), Falling, old(lives));
              && enemies == c.survivors && lives == c.lives
              && gameRunning == (old(gameRunning) && !c.over)
      ensures old(lives) - |old(enemies)| <= lives <= old(lives)
      ensures old(lives) > 0 ==> lives >= 0
      ensures old(lives) <= 0 ==> lives >= old(lives) - 1
    {
      ghost var s0 := enemies;
      FallOutcome(s0, lives);
      ghost var done: seq<Enemy> := [];
      ghost var gone: seq<Enemy> := [];
      assert s0[..|s0|] == s0;
      var i := |enemies| - 1;
      while i >= 0
        invariant -1 <= i < |s0|
        invariant enemies == s0[..i + 1] + done
        invariant gameRunning == old(gameRunning)
        invariant Cull(s0, Falling, old(lives)) == Rejoin(Cull(s0[..i + 1], Falling, lives), done, gone)
      {
        CullUnfold(s0, i, done, gone, Falling, lives);
        assert enemies[i] == s0[i];
        var enemy := Fall(enemies[i]);
        Splice(s0, done, i, enemy);
        enemies := enemies[i := enemy];
        if PastBottom(enemy) {
          enemies := enemies[..i] + enemies[i + 1..];
          lives := lives - 1;
          if lives <= 0 {
            GameOver();
            return;
          }
          gone := gone + [enemy];
        } else {
          done := [enemy] + done;
        }
        assert Cull(s0, Falling, old(lives)) == Rejoin(Cull(s0[..i], Falling, lives), done, gone);
        i := i - 1;
      }
    }

    // ------------------------------------------------------- collisions

    /** A banner for the level just reached. */
    method ShowLevelUpEffect()
      modifies this`levelUpEffects
      ensures levelUpEffects == old(levelUpEffects) + [LevelUpBanner(level)]
    {
      levelUpEffects := levelUpEffects + [LevelUpBanner(level)];
    }

    /**
     * A shot of kind w took enemy j: the blast, the splice, the points, and
     * the level-up when the score crossed into a higher level.
     */
    method ApplyKill(j: nat, w: Weapon)
      requires j < |enemies|
      modifies this`enemies, this`explosions, this`levelUpEffects, this`score, this`level
      ensures Arena() == Kill(old(Arena()), j, w)
    {
      explosions := explosions + [Blast(enemies[j], w.radius, w.life, w.rocket)];
      enemies := enemies[..j] + enemies[j + 1..];
      score := score + w.points;
      var newLevel := LevelFor(score);
      if newLevel > level {
        level := newLevel;
        ShowLevelUpEffect();
      }
    }

    /** The bullet-enemy pass. */
    method CollideBullets()
      modifies this`bullets, this`enemies, this`explosions, this`levelUpEffects, this`score, this`level
      ensures var v := ShotPass(old(bullets), BulletBox, BULLET_HIT, old(Arena()));
              bullets == v.shots && Arena() == v.tally
    {
      ghost var s0, t0 := bullets, Arena();
      ghost var done: seq<Bullet> := [];
      assert s0[..|s0|] == s0;
      var i := |bullets| - 1;
      while i >= 0
        invariant -1 <= i < |s0|
        invariant bullets == s0[..i + 1] + done
        invariant ShotPass(s0, BulletBox, BULLET_HIT, t0) == Rejoined(ShotPass(s0[..i + 1], BulletBox, BULLET_HIT, Arena()), done)
      {
        ShotPassUnfold(s0, i, done, BulletBox, BULLET_HIT, Arena());
        assert bullets[i] == s0[i];
        Splice(s0, done, i, s0[i]);
        assert bullets[i := s0[i]] == bullets;
        var hit := FindHit(BulletBox(bullets[i]), enemies);
        if hit.Some? {
          ApplyKill(hit.value, BULLET_HIT);
          bullets := bullets[..i] + bullets[i + 1..];
        } else {
          done := [bullets[i]] + done;
        }
        i := i - 1;
      }
    }

    /** The rocket-enemy pass, over the enemies the bullets left. */
    method CollideRockets()
      modifies this`rockets, this`enemies, this`explosions, this`levelUpEffects, this`score, this`level
      ensures var v := ShotPass(old(rockets), RocketBox, ROCKET_HIT, old(Arena()));
              rockets == v.shots && Arena() == v.tally
    {
      ghost var s0, t0 := rockets, Arena();
      ghost var done: seq<Rocket> := [];
      assert s0[..|s0|] == s0;
      var i := |rockets| - 1;
      while i >= 0
        invariant -1 <= i < |s0|
        invariant rockets == s0[..i + 1] + done
        invariant ShotPass(s0, RocketBox, ROCKET_HIT, t0) == Rejoined(ShotPass(s0[..i + 1], RocketBox, ROCKET_HIT, Arena()), done)
      {
        ShotPassUnfold(s0, i, done, RocketBox, ROCKET_HIT, Arena());
        assert rockets[i] == s0[i];
        Splice(s0, done, i, s0[i]);
        assert rockets[i := s0[i]] == rockets;
        var hit := FindHit(RocketBox(rockets[i]), enemies);
        if hit.Some? {
          ApplyKill(hit.value, ROCKET_HIT);
          rockets := rockets[..i] + rockets[i + 1..];
        } else {
          done := [rockets[i]] + done;
        }
        i := i - 1;
      }
    }

    /** The ship rammed enemy i: a crash blast at its centre, the splice, a life lost. */
    method Crash(i: nat)
      requires i < |enemies|
      modifies this`enemies, this`explosions, this`lives
      ensures enemies == old(enemies[..i] + enemies[i + 1..])
      ensures explosions == old(explosions) + [CrashBlast(old(enemies[i]))]
      ensures lives == old(lives) - 1
    {
      explosions := explosions + [CrashBlast(enemies[i])];
      enemies := enemies[..i] + enemies[i + 1..];
      lives := lives - 1;
    }

    /**
     * The player-enemy pass, from the last enemy down: a rammed enemy
     * leaves a blast, is spliced out and costs a life; the ship itself is
     * never removed, and when lives reach zero the session ends at once.
     */
    method CollidePlayer()
      requires Valid()
      modifies this`enemies, this`explosions, this`lives, this`gameRunning
      ensures Valid()
      ensures var c := Cull(old(enemies), Ramming(player), old(lives));
              && enemies == c.survivors && lives == c.lives
              && explosions == old(explosions) + Wreckage(c.removed)
              && gameRunning == (old(gameRunning) && !c.over)
      ensures old(lives) - |old(enemies)| <= lives <= old(lives)
      ensures old(lives) > 0 ==> lives >= 0
      ensures old(lives) <= 0 ==> lives >= old(lives) - 1
    {
      ghost var s0, x0 := enemies, explosions;
      ghost var pass := Ramming(player);
      RamOutcome(s0, player, lives);
      ghost var done: seq<Enemy> := [];
      ghost var gone: seq<Enemy> := [];
      assert s0[..|s0|] == s0;
      var i := |enemies| - 1;
      while i >= 0
        invariant -1 <= i < |s0|
        invariant enemies == s0[..i + 1] + done
        invariant gameRunning == old(gameRunning)
        invariant explosions == x0 + Wreckage(gone)
        invariant Cull(s0, pass, old(lives)) == Rejoin(Cull(s0[..i + 1], pass, lives), done, gone)
      {
        CullUnfold(s0, i, done, gone, pass, lives);
        assert enemies[i] == s0[i];
        Splice(s0, done, i, s0[i]);
        assert enemies[i := s0[i]] == enemies;
        var enemy := enemies[i];
        if Overlap(PlayerBox(player), EnemyBox(enemy)) {
          WreckageGrows(x0, gone, enemy);
          Crash(i);
          if lives <= 0 {
            GameOver();
            assert AllAlive(x0 + Wreckage(gone + [enemy]));
            return;
          }
          gone := gone + [enemy];
        } else {
          done := [enemy] + done;
        }
        assert Cull(s0, pass, old(lives)) == Rejoin(Cull(s0[..i], pass, lives), done, gone);
        i := i - 1;
      }
      assert gone + [] == gone;
      assert AllAlive(x0 + Wreckage(gone));
    }

    /** The two shot passes: bullets first, then rockets against the enemies the bullets left. */
    method CollideShots()
      requires Valid()
      modifies this`bullets, this`rockets, this`enemies, this`explosions, this`levelUpEffects, this`score, this`level
      ensures Valid()
      ensures var b := ShotPass(old(bullets), BulletBox, BULLET_HIT, old(Arena()));
              var r := ShotPass(old(rockets), RocketBox, ROCKET_HIT, b.tally);
              bullets == b.shots && rockets == r.shots && Arena() == r.tally
    {
      VolleyOutcome(bullets, BulletBox, BULLET_HIT, Arena());
      CollideBullets();
      VolleyOutcome(rockets, RocketBox, ROCKET_HIT, Arena());
      CollideRockets();
    }

    /**
     * All collisions of a frame: bullets against enemies, then rockets
     * against the enemies left, then the ship against the enemies left.
     */
    method CheckCollisions()
      requires Valid()
      modifies this`bullets, this`rockets, this`enemies, this`explosions, this`levelUpEffects,
               this`score, this`level, this`lives, this`gameRunning
      ensures Valid()
      ensures var b := ShotPass(old(bullets), BulletBox, BULLET_HIT, old(Arena()));
              var r := ShotPass(old(rockets), RocketBox, ROCKET_HIT, b.tally);
              var c := Cull(r.tally.enemies, Ramming(player), old(lives));
              && bullets == b.shots && rockets == r.shots
              && enemies == c.survivors && explosions == r.tally.explosions + Wreckage(c.removed)
              && levelUpEffects == r.tally.banners && score == r.tally.score && level == r.tally.level
              && lives == c.lives && gameRunning == (old(gameRunning) && !c.over)
      ensures old(lives) > 0 ==> lives >= 0
      ensures old(lives) <= 0 ==> lives >= old(lives) - 1
      ensures lives <= old(lives)
    {
      CollideShots();
      CollidePlayer();
    }

    // ---------------------------------------------------------- effects

    /** Every explosion loses a frame of life; the expired are spliced out. */
    method UpdateExplosions()
      requires Valid()
      modifies this`explosions
      ensures Valid()
      ensures explosions == Sweep(old(explosions), TickExplosion, ExplosionAlive)
    {
      ghost var s0 := explosions;
      ghost var done: seq<Explosion> := [];
      assert s0[..|s0|] == s0;
      var i := |explosions| - 1;
      while i >= 0
        invariant -1 <= i < |s0|
        invariant explosions == s0[..i + 1] + done
        invariant Sweep(s0, TickExplosion, ExplosionAlive) ==
                  Sweep(s0[..i + 1], TickExplosion, ExplosionAlive) + done
      {
        SweepUnfold(s0, i, done, TickExplosion, ExplosionAlive);
        assert explosions[i] == s0[i];
        var explosion := explosions[i].(life := explosions[i].life - 1);
        Splice(s0, done, i, explosion);
        explosions := explosions[i := explosion];
        if explosion.life <= 0 {
          explosions := explosions[..i] + explosions[i + 1..];
        } else {
          done := [explosion] + done;
        }
        i := i - 1;
      }
      SweepAllPass(s0, TickExplosion, ExplosionAlive);
    }

    /** Every banner loses a frame of life and fades to life / 60; the expired are spliced out. */
    method UpdateLevelUpEffects()
      requires Valid()
      modifies this`levelUpEffects
      ensures Valid()
      ensures levelUpEffects == Sweep(old(levelUpEffects), TickBanner, BannerAlive)
    {
      ghost var s0 := levelUpEffects;
      ghost var done: seq<Banner> := [];
      assert s0[..|s0|] == s0;
      var i := |levelUpEffects| - 1;
      while i >= 0
        invariant -1 <= i < |s0|
        invariant levelUpEffects == s0[..i + 1] + done
        invariant Sweep(s0, TickBanner, BannerAlive) == Sweep(s0[..i + 1], TickBanner, BannerAlive) + done
      {
        SweepUnfold(s0, i, done, TickBanner, BannerAlive);
        assert levelUpEffects[i] == s0[i];
        var effect := levelUpEffects[i];
        effect := effect.(life := effect.life - 1);
        effect := effect.(alpha := effect.life as real / BANNER_LIFE as real);
        Splice(s0, done, i, effect);
        levelUpEffects := levelUpEffects[i := effect];
        if effect.life <= 0 {
          levelUpEffects := levelUpEffects[..i] + levelUpEffects[i + 1..];
        } else {
          done := [effect] + done;
        }
        i := i - 1;
      }
      SweepAllPass(s0, TickBanner, BannerAlive);
    }

    // ------------------------------------------------------------ frame

    /**
     * The movement half of a running frame: the ship (with its automatic
     * fire), the bullets, the rockets, then the enemies' fall. Afterwards
     * every shot is on the field and the session still has lives.
     */
    method Advance(now: int)
      requires Valid() && gameRunning
      modifies this`player, this`bullets, this`rockets, this`lastShootTime, this`lastRocketTime,
               this`enemies, this`lives, this`gameRunning
      ensures Valid()
      ensures forall k :: 0 <= k < |bullets| ==> BulletOnScreen(bullets[k])
      ensures forall k :: 0 <= k < |rockets| ==> RocketOnScreen(rockets[k])
      ensures 0 <= lives <= old(lives)
    {
      UpdatePlayer(now);
      UpdateBullets();
      UpdateRockets();
      UpdateEnemies();
    }

    /**
     * The combat half: the spawn trial, then every collision. Shots still
     * on the field stay on it, the score and level do not drop, and at most
     * one life beyond zero is lost.
     */
    method Engage(spawnRoll: real, xRoll: real, speedRoll: real)
      requires Valid() && lives >= 0
      requires 0.0 <= spawnRoll < 1.0 && 0.0 <= xRoll < 1.0 && 0.0 <= speedRoll < 1.0
      modifies this`enemies, this`bullets, this`rockets, this`explosions, this`levelUpEffects,
               this`score, this`level, this`lives, this`gameRunning
      ensures Valid()
      ensures (forall k :: 0 <= k < old(|bullets|) ==> BulletOnScreen(old(bullets)[k])) ==>
                forall k :: 0 <= k < |bullets| ==> BulletOnScreen(bullets[k])
      ensures (forall k :: 0 <= k < old(|rockets|) ==> RocketOnScreen(old(rockets)[k])) ==>
                forall k :: 0 <= k < |rockets| ==> RocketOnScreen(rockets[k])
      ensures score >= old(score) && level >= old(level)
      ensures -1 <= lives <= old(lives)
    {
      CreateEnemy(spawnRoll, xRoll, speedRoll);
      TwoVolleys(bullets, rockets, Arena());
      CheckCollisions();
    }

    /** The closing countdown of a frame: explosions, then level-up banners. */
    method Fade()
      requires Valid()
      modifies this`explosions, this`levelUpEffects
      ensures Valid()
      ensures explosions == Sweep(old(explosions), TickExplosion, ExplosionAlive)
      ensures levelUpEffects == Sweep(old(levelUpEffects), TickBanner, BannerAlive)
    {
      UpdateExplosions();
      UpdateLevelUpEffects();
    }

    /**
     * One simulation frame, skipped entirely unless the session is running.
     * After it, every bullet and rocket is on the field, the score and level
     * have not dropped, and at most one life beyond zero has been lost.
     */
    method Update(now: int, spawnRoll: real, xRoll: real, speedRoll: real)
      requires Valid()
      requires 0.0 <= spawnRoll < 1.0 && 0.0 <= xRoll < 1.0 && 0.0 <= speedRoll < 1.0
      modifies this
      ensures Valid()
      ensures !old(gameRunning) ==> unchanged(this)
      ensures old(gameRunning) ==> forall k :: 0 <= k < |bullets| ==> BulletOnScreen(bullets[k])
      ensures old(gameRunning) ==> forall k :: 0 <= k < |rockets| ==> RocketOnScreen(rockets[k])
      ensures score >= old(score) && level >= old(level)
      ensures lives <= old(lives)
      ensures old(gameRunning) ==> lives >= -1
    {
      if !gameRunning {
        return;
      }
      Advance(now);
      Engage(spawnRoll, xRoll, speedRoll);
      Fade();
    }
  }
}
