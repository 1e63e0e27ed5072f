/**
 * The records of the space shooter's simulation: the player, bullets,
 * rockets, enemies, explosions and level-up banners, the play field and
 * the axis-aligned boxes every collision test is made of.
 *
 * Positions and speeds are reals; the game's integer counters (score,
 * lives, level, effect lives, milliseconds) are ints.
 */
module Entities {

  datatype Option<T> = None | Some(value: T)

  const FIELD_WIDTH: real := 800.0
  const FIELD_HEIGHT: real := 600.0

  /** A velocity or displacement. */
  datatype Vec = Vec(x: real, y: real)

  /** The rectangle an entity occupies: top-left corner, width and height. */
  datatype Box = Box(x: real, y: real, w: real, h: real)

  /** Strict overlap of two boxes on both axes: touching edges do not collide. */
  predicate Overlap(a: Box, b: Box)
  {
    a.x < b.x + b.w && a.x + a.w > b.x && a.y < b.y + b.h && a.y + a.h > b.y
  }

  // ---------------------------------------------------------------- player

  const PLAYER_WIDTH: real := 40.0
  const PLAYER_HEIGHT: real := 40.0
  const PLAYER_SPEED: real := 5.0

  datatype Player = Player(x: real, y: real)

  /** Where a session puts the ship: its left edge at mid-field, its top 60 above the bottom. */
  const PLAYER_START: Player := Player(FIELD_WIDTH / 2.0, FIELD_HEIGHT - 60.0)

  function PlayerBox(p: Player): Box
  {
    Box(p.x, p.y, PLAYER_WIDTH, PLAYER_HEIGHT)
  }

  // --------------------------------------------------------------- bullets

  const BULLET_COUNT: nat := 5
  const BULLET_SPEED: real := 8.0
  const BULLET_WIDTH: real := 4.0
  const BULLET_HEIGHT: real := 10.0

  /** A spread-shot projectile with its own velocity (speedX, speedY). */
  datatype Bullet = Bullet(x: real, y: real, speedX: real, speedY: real, speed: real)

  function BulletBox(b: Bullet): Box
  {
    Box(b.x, b.y, BULLET_WIDTH, BULLET_HEIGHT)
  }

  /** A bullet fired from the ship's nose with velocity v. */
  function FiredBullet(p: Player, v: Vec): Bullet
  {
    Bullet(p.x + PLAYER_WIDTH / 2.0 - 2.0, p.y, v.x, v.y, BULLET_SPEED)
  }

  /**
   * One frame of bullet motion. A zero vertical velocity is falsy in the
   * game's `speedY || -speed`, so such a bullet climbs at its scalar speed.
   */
  function MoveBullet(b: Bullet): Bullet
  {
    b.(x := b.x + b.speedX,
       y := b.y + (if b.speedY != 0.0 then b.speedY else -b.speed))
  }

  /** Bullets leave through the top or the sides; the bottom edge is open. */
  predicate BulletOnScreen(b: Bullet)
  {
    !(b.y < 0.0 || b.x < 0.0 || b.x > FIELD_WIDTH)
  }

  // --------------------------------------------------------------- rockets

  const ROCKET_SPEED: real := 18.0
  const ROCKET_WIDTH: real := 6.0
  const ROCKET_HEIGHT: real := 12.0

  /**
   * A rocket's drawing angle, kept symbolically: Zero is the launch angle 0,
   * Up is -pi/2, Toward(dx, dy) is atan2(dy, dx).
   */
  datatype Heading = Zero | Up | Toward(dx: real, dy: real)

  datatype Rocket = Rocket(x: real, y: real, speed: real, homing: bool, angle: Heading)

  function RocketBox(r: Rocket): Box
  {
    Box(r.x, r.y, ROCKET_WIDTH, ROCKET_HEIGHT)
  }

  /** A homing rocket launched from the ship's nose. */
  function LaunchedRocket(p: Player): Rocket
  {
    Rocket(p.x + PLAYER_WIDTH / 2.0 - 3.0, p.y, ROCKET_SPEED, true, Zero)
  }

  /** Rockets are removed on leaving the field through any of its four edges. */
  predicate RocketOnScreen(r: Rocket)
  {
    !(r.y < 0.0 || r.x < 0.0 || r.x > FIELD_WIDTH || r.y > FIELD_HEIGHT)
  }

  // --------------------------------------------------------------- enemies

  const ENEMY_WIDTH: real := 30.0
  const ENEMY_HEIGHT: real := 30.0
  const ENEMY_SPAWN_Y: real := -30.0

  datatype Enemy = Enemy(x: real, y: real, speed: real)

  function EnemyBox(e: Enemy): Box
  {
    Box(e.x, e.y, ENEMY_WIDTH, ENEMY_HEIGHT)
  }

  /** One frame of enemy motion: straight down at its own speed. */
  function Fall(e: Enemy): Enemy
  {
    e.(y := e.y + e.speed)
  }

  /** An enemy that has left through the bottom edge. */
  predicate PastBottom(e: Enemy)
  {
    e.y > FIELD_HEIGHT
  }

  /** The per-frame spawn probability at a level. */
  function SpawnRate(level: int): real
  {
    0.01 + level as real * 0.005
  }

  /**
   * The enemy spawned at a level from two uniform draws in [0, 1): its
   * column and its extra speed.
   */
  function Spawned(level: int, xRoll: real, speedRoll: real): (e: Enemy)
    requires 0.0 <= xRoll < 1.0 && 0.0 <= speedRoll < 1.0
    ensures 0.0 <= e.x < FIELD_WIDTH - ENEMY_WIDTH
    ensures e.y == ENEMY_SPAWN_Y && e.y + ENEMY_HEIGHT <= 0.0
    ensures 2.0 + level as real * 0.5 <= e.speed < 4.0 + level as real * 0.5
  {
    Enemy(xRoll * (FIELD_WIDTH - ENEMY_WIDTH), ENEMY_SPAWN_Y,
          2.0 + speedRoll * 2.0 + level as real * 0.5)
  }

  // ------------------------------------------------------------ explosions

  /** An expanding blast; `rocket` marks the large kind left by a rocket kill. */
  datatype Explosion = Explosion(x: real, y: real, radius: int, life: int, rocket: bool)

  /** A blast centred on an enemy's box. */
  function Blast(e: Enemy, radius: int, life: int, rocket: bool): Explosion
  {
    Explosion(e.x + ENEMY_WIDTH / 2.0, e.y + ENEMY_HEIGHT / 2.0, radius, life, rocket)
  }

  /** The blast left where the ship rams an enemy. */
  function CrashBlast(e: Enemy): Explosion
  {
    Blast(e, 25, 15, false)
  }

  function TickExplosion(x: Explosion): Explosion
  {
    x.(life := x.life - 1)
  }

  predicate ExplosionAlive(x: Explosion)
  {
    x.life > 0
  }

  // --------------------------------------------------------------- banners

  const BANNER_LIFE: int := 60

  /**
   * A "LEVEL n!" banner: centred text for level n, a frame countdown and a
   * fade alpha that is life / 60.
   */
  datatype Banner = Banner(x: real, y: real, level: int, life: int, alpha: real)

  function LevelUpBanner(level: int): Banner
  {
    Banner(FIELD_WIDTH / 2.0, FIELD_HEIGHT / 2.0, level, BANNER_LIFE, 1.0)
  }

  function TickBanner(b: Banner): Banner
  {
    b.(life := b.life - 1, alpha := (b.life - 1) as real / BANNER_LIFE as real)
  }

  predicate BannerAlive(b: Banner)
  {
    b.life > 0
  }
}
