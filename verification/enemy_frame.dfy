/** One frame of an enemy: the death countdown, the stun timer, the state decision, the
    movement the state asks for, and the wall-bump bookkeeping, in that order. */
module EnemyFrame {
  import opened EnemyModel
  import opened EnemyDecide

  /** A running death countdown loses one frame; the frame on which it reaches 0 asks for
      the enemy to be destroyed. */
  function DeathCountdown(e: Enemy): (r: Step)
    ensures r.enemy.(deathDelay := e.deathDelay) == e
    ensures e.deathDelay >= 0 ==> r.enemy.deathDelay == if e.deathDelay > 0 then e.deathDelay - 1 else 0
    ensures r.effects == [DestroySelf] <==> e.deathDelay == 1
    ensures r.effects != [DestroySelf] ==> r.effects == []
  {
    if e.deathDelay != 0 then
      var d := e.deathDelay - 1;
      Step(e.(deathDelay := d), if d == 0 then [DestroySelf] else [])
    else
      Step(e, [])
  }

  /** The movement requests of a frame. A running enemy re-aims away from the player unless a
      wall bump is still holding it off, then advances; a stunned one spins in place; a normal
      one advances only while the level lets enemies move. */
  function Move(e: Enemy, view: PlayerView, movement: bool): (r: seq<Effect>)
    ensures FleeFromPlayer in r <==> e.state == Run && e.bumpDelay <= 0 && view.Present?
    ensures Advance in r <==> e.state == Run || (e.state == Normal && movement)
    ensures Spin in r <==> e.state == Stunned
    ensures forall x :: x in r ==> x in {FleeFromPlayer, Advance, Spin}
    // each request is made at most once, and a re-aim comes before the advance it steers
    ensures forall i, j :: 0 <= i < j < |r| ==> r[i] != r[j]
    ensures FleeFromPlayer in r ==> r[0] == FleeFromPlayer
  {
    match e.state
    case Run => if e.bumpDelay <= 0 && view.Present? then [FleeFromPlayer, Advance] else [Advance]
    case Stunned => [Spin]
    case Normal => if movement then [Advance] else []
  }

  /** The wall-bump bookkeeping: a running cooldown loses one frame, and leaving the world
      picks a new direction and restarts the cooldown. The enemy is clamped into the world
      every frame. */
  function BumpWalls(e: Enemy, inside: bool): (r: Step)
    ensures r.enemy.(bumpDelay := e.bumpDelay) == e
    ensures !inside ==> r.enemy.bumpDelay == DELAY
    ensures inside && e.bumpDelay >= 0 ==> r.enemy.bumpDelay == if e.bumpDelay > 0 then e.bumpDelay - 1 else 0
    ensures NewDirection in r.effects <==> !inside
    ensures ClampToWorld in r.effects
    ensures forall x :: x in r.effects ==> x in {NewDirection, ClampToWorld}
    // a new direction is picked at most once, from the unclamped position, then one clamp
    ensures forall i, j :: 0 <= i < j < |r.effects| ==> r.effects[i] != r.effects[j]
    ensures r.effects[|r.effects| - 1] == ClampToWorld
  {
    var d := if e.bumpDelay != 0 then e.bumpDelay - 1 else e.bumpDelay;
    if !inside then
      Step(e.(bumpDelay := DELAY), [NewDirection, ClampToWorld])
    else
      Step(e.(bumpDelay := d), [ClampToWorld])
  }

  /** The rest of a frame once the death countdown has run: the stun timer runs down, the
      state decision is made, the enemy moves as its state asks, and the walls are checked. */
  function Behave(cfg: Config, e: Enemy, f: Frame): (r: Step)
    ensures r.enemy.lives == e.lives && r.enemy.score == e.score && r.enemy.deathDelay == e.deathDelay
    ensures r.enemy.timeLeft == e.timeLeft - f.deltaTime
    ensures forall x :: x in r.effects ==> x in {ResetRotation, FleeFromPlayer, Advance, Spin, NewDirection, ClampToWorld}
  {
    var timed := e.(timeLeft := e.timeLeft - f.deltaTime);
    var decided := ChangeState(cfg, timed, f.player, f.speedDraw);
    var bumped := BumpWalls(decided.enemy, f.inside);
    Step(bumped.enemy, decided.effects + Move(decided.enemy, f.player, f.movement) + bumped.effects)
  }

  /** One frame. */
  function Tick(cfg: Config, e: Enemy, f: Frame): (r: Step)
    // a frame never changes lives or score
    ensures r.enemy.lives == e.lives && r.enemy.score == e.score
    // the stun timer runs down by the elapsed time, whatever the state
    ensures r.enemy.timeLeft == e.timeLeft - f.deltaTime
    // the death countdown loses exactly one frame while it runs and never goes negative
    ensures e.deathDelay >= 0 ==> r.enemy.deathDelay == if e.deathDelay > 0 then e.deathDelay - 1 else 0
    ensures DestroySelf in r.effects <==> e.deathDelay == 1
    // the wall-bump cooldown
    ensures !f.inside ==> r.enemy.bumpDelay == DELAY
    ensures f.inside && e.bumpDelay >= 0 ==> r.enemy.bumpDelay == if e.bumpDelay > 0 then e.bumpDelay - 1 else 0
    ensures NewDirection in r.effects <==> !f.inside
    // fleeing re-aims only a running enemy whose bump cooldown is over
    ensures FleeFromPlayer in r.effects <==> r.enemy.state == Run && e.bumpDelay <= 0 && f.player.Present?
    // without a player the mode and speed stay as they were
    ensures f.player.Absent? ==> r.enemy.state == e.state && r.enemy.speed == e.speed
    // a stunned enemy spins in place and does not advance
    ensures r.enemy.state == Stunned ==> Spin in r.effects && Advance !in r.effects
    // the speed is redrawn only on a return to Normal
    ensures r.enemy.speed != e.speed ==> e.state != Normal && r.enemy.state == Normal && ResetRotation in r.effects
    // a frame asks only for countdown, steering, movement and wall requests
    ensures forall x :: x in r.effects ==>
              x in {DestroySelf, ResetRotation, FleeFromPlayer, Advance, Spin, NewDirection, ClampToWorld}
  {
    var counted := DeathCountdown(e);
    var rest := Behave(cfg, counted.enemy, f);
    Step(rest.enemy, counted.effects + rest.effects)
  }

  /** The frame on which the death countdown reaches 0 is the only one that destroys the
      enemy, and it does so once. */
  lemma TickDestroysOnce(cfg: Config, e: Enemy, f: Frame)
    ensures Count(Tick(cfg, e, f).effects, DestroySelf) == if e.deathDelay == 1 then 1 else 0
  {
    var counted := DeathCountdown(e);
    var rest := Behave(cfg, counted.enemy, f);
    CountAppend(counted.effects, rest.effects, DestroySelf);
    CountAbsent(rest.effects, DestroySelf);
    if e.deathDelay == 1 {
      assert Count(counted.effects, DestroySelf) == 1;
    } else {
      CountAbsent(counted.effects, DestroySelf);
    }
  }

  /** A frame keeps the counters' invariant, provided the configured speed range is not
      empty. */
  lemma TickPreservesValid(cfg: Config, e: Enemy, f: Frame)
    requires cfg.WellFormed() && Valid(cfg, e)
    ensures Valid(cfg, Tick(cfg, e, f).enemy)
  {
  }
}
