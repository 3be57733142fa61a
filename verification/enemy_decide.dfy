/** The state decision an enemy makes every frame between Normal and Run, and the return
    to Normal once a stun has expired. */
module EnemyDecide {
  import opened EnemyModel

  /** The engine's ranged draw: the draw `u` interpolated between the configured minimum and
      maximum speed. */
  function NewSpeed(cfg: Config, u: Unit): (r: real)
    ensures cfg.WellFormed() ==> cfg.minSpeed <= r <= cfg.maxSpeed
    ensures u == 0.0 ==> r == cfg.minSpeed
    ensures u == 1.0 ==> r == cfg.maxSpeed
  {
    ScaleWithin(u, cfg.maxSpeed - cfg.minSpeed);
    cfg.minSpeed + u * (cfg.maxSpeed - cfg.minSpeed)
  }

  lemma ScaleWithin(u: Unit, d: real)
    ensures d >= 0.0 ==> 0.0 <= u * d <= d
  {
    if d >= 0.0 {
      assert u * d <= 1.0 * d;
    }
  }

  /** How squarely the player faces the enemy: the dot product of the axis the player faces
      along with the direction from player to enemy; 0 when the player has no controller. */
  function FacingAngle(view: PlayerView): (r: real)
    requires view.Present?
    ensures view.facing.None? ==> r == 0.0
  {
    match view.facing
    case None => 0.0
    case Some(East) => view.rightDot
    case Some(West) => -view.rightDot
    case Some(South) => -view.upDot
    case Some(North) => view.upDot
  }

  /** The player sees the enemy close enough for it to run. */
  predicate Spotted(cfg: Config, view: PlayerView) {
    view.Present? && view.distance <= RUN_RANGE && FacingAngle(view) > cfg.checkFacingAngle
  }

  /** One state decision. Nothing happens without a player. A spotted enemy that is not
      stunned runs; a running enemy that got out of range, or a stunned one whose timer ran
      out, goes back to Normal with a freshly drawn speed and its rotation reset. */
  function ChangeState(cfg: Config, e: Enemy, view: PlayerView, draw: Unit): (r: Step)
    // no player: nothing changes
    ensures view.Absent? ==> r == Step(e, [])
    // only the state and the speed can change
    ensures r.enemy.(state := e.state, speed := e.speed) == e
    // stunning is left to the collision handler: the decision never stuns
    ensures r.enemy.state == Stunned ==> e.state == Stunned
    // a stun that has not run out holds
    ensures e.state == Stunned && e.timeLeft > 0.0 ==> r.enemy.state == Stunned
    // a spotted enemy that is not stunned runs, and nothing else happens
    ensures Spotted(cfg, view) && e.state != Stunned ==> r == Step(e.(state := Run), [])
    // running needs a spotting unless the enemy already ran, and a player in range if one is seen
    ensures r.enemy.state == Run ==> e.state == Run || Spotted(cfg, view)
    ensures r.enemy.state == Run && view.Present? ==> view.distance <= RUN_RANGE
    // the only ways into Normal
    ensures r.enemy.state == Normal && e.state != Normal ==>
              view.Present? &&
              ((e.state == Run && view.distance > RUN_RANGE) || (e.state == Stunned && e.timeLeft <= 0.0))
    // both of them do happen, with a new speed and the rotation reset
    ensures view.Present? && !(Spotted(cfg, view) && e.state != Stunned) &&
            ((e.state == Run && view.distance > RUN_RANGE) || (e.state == Stunned && e.timeLeft <= 0.0)) ==>
              r == Step(e.(state := Normal, speed := NewSpeed(cfg, draw)), [ResetRotation])
    // the speed is redrawn only on the way into Normal; otherwise no effect is asked for
    ensures r.enemy.speed != e.speed || r.effects != [] ==>
              e.state != Normal && r.enemy.state == Normal && r.effects == [ResetRotation]
  {
    if view.Absent? then Step(e, [])
    else if view.distance <= RUN_RANGE && FacingAngle(view) > cfg.checkFacingAngle && e.state != Stunned then
      Step(e.(state := Run), [])
    else if (e.state == Run && view.distance > RUN_RANGE) || (e.state == Stunned && e.timeLeft <= 0.0) then
      Step(e.(state := Normal, speed := NewSpeed(cfg, draw)), [ResetRotation])
    else
      Step(e, [])
  }

  /** Without a player controller the facing angle stays 0, so an enemy can start to run
      only under a negative facing threshold; under the default threshold it never does. */
  lemma NoControllerNeverStartsRunning(cfg: Config, e: Enemy, view: PlayerView, draw: Unit)
    requires view.Present? && view.facing.None?
    requires e.state != Run
    ensures ChangeState(cfg, e, view, draw).enemy.state == Run <==>
              cfg.checkFacingAngle < 0.0 && view.distance <= RUN_RANGE && e.state != Stunned
    ensures ChangeState(DefaultConfig, e, view, draw).enemy.state != Run
  {
    assert FacingAngle(view) == 0.0;
  }

  /** With a non-negative facing threshold, a player facing East and one facing West cannot
      both spot the same enemy; nor can one facing North and one facing South. */
  lemma OppositeFacingsExclusive(cfg: Config, view: PlayerView)
    requires view.Present? && cfg.checkFacingAngle >= 0.0
    ensures !(Spotted(cfg, view.(facing := Some(East))) && Spotted(cfg, view.(facing := Some(West))))
    ensures !(Spotted(cfg, view.(facing := Some(North))) && Spotted(cfg, view.(facing := Some(South))))
  {
    assert FacingAngle(view.(facing := Some(West))) == -FacingAngle(view.(facing := Some(East)));
    assert FacingAngle(view.(facing := Some(South))) == -FacingAngle(view.(facing := Some(North)));
  }

  /** The decision is memoryless: the next state depends only on the current mode, the stun
      timer and the view, not on lives, countdowns, speed or score. */
  lemma DecisionIsMemoryless(cfg: Config, e1: Enemy, e2: Enemy, view: PlayerView, draw: Unit)
    requires e1.state == e2.state && e1.timeLeft == e2.timeLeft
    ensures ChangeState(cfg, e1, view, draw).enemy.state == ChangeState(cfg, e2, view, draw).enemy.state
    ensures ChangeState(cfg, e1, view, draw).effects == ChangeState(cfg, e2, view, draw).effects
  {
  }
}
