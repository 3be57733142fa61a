/** Data model of one enemy of the first level: its behaviour mode, its counters, the
    designer-set configuration, and the engine-side effects its handlers ask for.

    The engine's geometry and random source are not part of the model: the distance and
    dot products an enemy computes from transforms, the world-bounds status and every
    random draw reach the transition functions as plain inputs.
 */
module EnemyModel {

  /** The three behaviour modes of an enemy. */
  datatype EnemyState = Normal | Run | Stunned

  /** The four facings the player controller reports. */
  datatype Facing = East | West | South | North

  datatype Option<T> = None | Some(value: T)

  /** A draw of the engine's uniform random source: a value in [0, 1]. */
  type Unit = r: real | 0.0 <= r <= 1.0 witness 0.0

  /** Frames the death sound is given to play out, and frames flee re-aiming is held off
      after a wall bump. */
  const DELAY: int := 30
  /** Distance within which a seen enemy starts to run. */
  const RUN_RANGE: real := 30.0
  /** Seconds a projectile hit keeps the enemy stunned. */
  const STUN_TIME: real := 5.0
  /** Name the engine gives every spawned projectile; nothing else can hurt an enemy. */
  const PROJECTILE_NAME: string := "Projectile(Clone)"
  const INITIAL_LIVES: int := 3

  /** The fields a designer can set per enemy. `hasDeathSound` says whether a death clip
      is assigned. */
  datatype Config = Config(
    checkFacingAngle: real,
    minSpeed: real,
    maxSpeed: real,
    itemDropRate: real,
    hasDeathSound: bool)
  {
    predicate WellFormed() {
      minSpeed <= maxSpeed
    }
  }

  /** The field initialisers: facing threshold 0.8, speeds in [20, 40], a quarter of kills
      drop a pickup, no death clip assigned. */
  const DefaultConfig: Config := Config(0.8, 20.0, 40.0, 0.25, false)

  /** What an enemy sees of the player on one frame: nothing once the player object is
      gone; otherwise the distance between the two, the controller's facing when the
      player has a controller, and the dot products of the player's right and up axes with
      the unit vector from the player to the enemy. */
  datatype PlayerView =
    | Absent
    | Present(distance: real, facing: Option<Facing>, rightDot: real, upDot: real)

  /** The enemy's own state. `score` stands for the level manager's kill counter as far as
      this enemy's own kill adds to it; other enemies' kills are not part of the record. */
  datatype Enemy = Enemy(
    state: EnemyState,
    lives: int,
    timeLeft: real,
    deathDelay: int,
    bumpDelay: int,
    speed: real,
    score: int)

  /** Requests to the engine that the handlers make instead of touching engine objects. */
  datatype Effect =
    | DestroyProjectile
    | HideRenderer
    | RemoveRigidbody
    | SpawnPickup
    | PlayDeathSound
    | PlayHitSound
    | DestroySelf
    | ResetRotation
    | FleeFromPlayer
    | Advance
    | Spin
    | NewDirection
    | ClampToWorld

  /** The state after a handler together with the effects it asked for, in order. */
  datatype Step = Step(enemy: Enemy, effects: seq<Effect>)

  /** Inputs to one frame: the elapsed time, the player as seen this frame, the level's
      movement switch, whether the enemy's bounds lie inside the world, and the draw a
      return to Normal uses for the new speed. */
  datatype Frame = Frame(
    deltaTime: real,
    player: PlayerView,
    movement: bool,
    inside: bool,
    speedDraw: Unit)

  /** How many times `x` occurs in `effects`. */
  function Count(effects: seq<Effect>, x: Effect): nat
  {
    if |effects| == 0 then 0
    else (if effects[0] == x then 1 else 0) + Count(effects[1..], x)
  }

  lemma {:induction false} CountAppend(a: seq<Effect>, b: seq<Effect>, x: Effect)
    ensures Count(a + b, x) == Count(a, x) + Count(b, x)
  {
    if |a| == 0 {
      assert a + b == b;
    } else {
      assert (a + b)[1..] == a[1..] + b;
      CountAppend(a[1..], b, x);
    }
  }

  lemma {:induction false} CountAbsent(a: seq<Effect>, x: Effect)
    requires x !in a
    ensures Count(a, x) == 0
  {
    if |a| > 0 {
      CountAbsent(a[1..], x);
    }
  }

  /** The counters' invariant: both countdowns stay within [0, DELAY], a running death
      countdown means the enemy has no lives left, and the speed lies in the configured
      range. */
  predicate Valid(cfg: Config, e: Enemy) {
    && 0 <= e.deathDelay <= DELAY
    && 0 <= e.bumpDelay <= DELAY
    && (e.deathDelay > 0 ==> e.lives <= 0)
    && cfg.minSpeed <= e.speed <= cfg.maxSpeed
  }
}
