/** An enemy's life as a sequence of events: it is spawned, then sees frames and
    collisions in whatever order the engine delivers them. */
module EnemyTrace {
  import opened EnemyModel
  import opened EnemyDecide
  import opened EnemyHit
  import opened EnemyFrame

  /** What the engine delivers to an enemy: a collision with a named object (together with
      the drop draw a kill would use), or a frame. */
  datatype Event = Collide(other: string, dropDraw: Unit) | Update(frame: Frame)

  /** A freshly spawned enemy: Normal, three lives, no timer or countdown running, and a
      speed drawn from the configured range. */
  function Spawn(cfg: Config, score: int, u: Unit): (r: Enemy)
    ensures cfg.WellFormed() ==> Valid(cfg, r)
    ensures r.state == Normal && r.lives == INITIAL_LIVES && r.score == score
  {
    Enemy(Normal, INITIAL_LIVES, 0.0, 0, 0, NewSpeed(cfg, u), score)
  }

  function Handle(cfg: Config, e: Enemy, ev: Event): Step
  {
    match ev
    case Collide(other, dropDraw) => OnHit(cfg, e, other, dropDraw)
    case Update(f) => Tick(cfg, e, f)
  }

  predicate IsHit(ev: Event) {
    ev.Collide? && ev.other == PROJECTILE_NAME
  }

  /** How many of `events` are projectile hits. */
  function Hits(events: seq<Event>): (r: nat)
    ensures r <= |events|
  {
    if |events| == 0 then 0 else (if IsHit(events[0]) then 1 else 0) + Hits(events[1..])
  }

  /** The state after `events` and every effect they asked for, in order. */
  function Replay(cfg: Config, e: Enemy, events: seq<Event>): (r: Step)
    // each projectile hit costs exactly one life, and nothing else does
    ensures r.enemy.lives == e.lives - Hits(events)
    // kills only ever add to the score, at most one per hit
    ensures e.score <= r.enemy.score <= e.score + Hits(events)
    decreases |events|
  {
    if |events| == 0 then Step(e, [])
    else
      var first := Handle(cfg, e, events[0]);
      var rest := Replay(cfg, first.enemy, events[1..]);
      Step(rest.enemy, first.effects + rest.effects)
  }

  /** Every event keeps the counters' invariant, so a spawned enemy keeps it for life. */
  lemma {:induction false} ReplayPreservesValid(cfg: Config, e: Enemy, events: seq<Event>)
    requires cfg.WellFormed() && Valid(cfg, e)
    ensures Valid(cfg, Replay(cfg, e, events).enemy)
    decreases |events|
  {
    if |events| > 0 {
      var first := Handle(cfg, e, events[0]);
      match events[0] {
        case Collide(other, dropDraw) => OnHitPreservesValid(cfg, e, other, dropDraw);
        case Update(f) => TickPreservesValid(cfg, e, f);
      }
      ReplayPreservesValid(cfg, first.enemy, events[1..]);
    }
  }

  // ---------------------------------------------------------------------------------
  // Runs of frames without collisions

  function Play(cfg: Config, e: Enemy, frames: seq<Frame>): (r: Step)
    ensures r.enemy.lives == e.lives && r.enemy.score == e.score
    decreases |frames|
  {
    if |frames| == 0 then Step(e, [])
    else
      var first := Tick(cfg, e, frames[0]);
      var rest := Play(cfg, first.enemy, frames[1..]);
      Step(rest.enemy, first.effects + rest.effects)
  }

  predicate TimeRunsForward(frames: seq<Frame>) {
    forall i :: 0 <= i < |frames| ==> frames[i].deltaTime >= 0.0
  }

  /** The time `frames` take. */
  function Elapsed(frames: seq<Frame>): (r: real)
    ensures TimeRunsForward(frames) ==> r >= 0.0
    decreases |frames|
  {
    if |frames| == 0 then 0.0 else frames[0].deltaTime + Elapsed(frames[1..])
  }

  /** After a kill the countdown runs for exactly DELAY frames: it drops by one per frame
      down to 0 and stays there, and over any run of frames the enemy is destroyed once if
      the countdown ends within the run and never otherwise. */
  lemma {:induction false} DeathPlaysOut(cfg: Config, e: Enemy, frames: seq<Frame>)
    requires e.deathDelay >= 0
    ensures Play(cfg, e, frames).enemy.deathDelay ==
              if e.deathDelay > |frames| then e.deathDelay - |frames| else 0
    ensures Count(Play(cfg, e, frames).effects, DestroySelf) ==
              if 0 < e.deathDelay <= |frames| then 1 else 0
    decreases |frames|
  {
    if |frames| > 0 {
      var first := Tick(cfg, e, frames[0]);
      var rest := Play(cfg, first.enemy, frames[1..]);
      TickDestroysOnce(cfg, e, frames[0]);
      DeathPlaysOut(cfg, first.enemy, frames[1..]);
      CountAppend(first.effects, rest.effects, DestroySelf);
    }
  }

  /** A stun lasts as long as its timer: while the frames so far have taken less time than
      was left on it, the enemy stays stunned at its old speed, whoever is watching. */
  lemma {:induction false} StunLasts(cfg: Config, e: Enemy, frames: seq<Frame>)
    requires e.state == Stunned && TimeRunsForward(frames)
    requires Elapsed(frames) < e.timeLeft
    ensures Play(cfg, e, frames).enemy.state == Stunned
    ensures Play(cfg, e, frames).enemy.speed == e.speed
    ensures Play(cfg, e, frames).enemy.timeLeft == e.timeLeft - Elapsed(frames)
    decreases |frames|
  {
    if |frames| > 0 {
      var first := Tick(cfg, e, frames[0]);
      assert TimeRunsForward(frames[1..]) by {
        forall i | 0 <= i < |frames[1..]|
          ensures frames[1..][i].deltaTime >= 0.0
        {
          assert frames[1..][i] == frames[i + 1];
        }
      }
      assert first.enemy.timeLeft > 0.0;
      StunLasts(cfg, first.enemy, frames[1..]);
    }
  }

  /** The first frame that sees the player after the stun timer has run out returns the
      enemy to Normal with a new speed. */
  lemma StunEnds(cfg: Config, e: Enemy, f: Frame)
    requires e.state == Stunned && f.player.Present?
    requires e.timeLeft - f.deltaTime <= 0.0
    ensures Tick(cfg, e, f).enemy.state == Normal
    ensures Tick(cfg, e, f).enemy.speed == NewSpeed(cfg, f.speedDraw)
  {
  }

  /** With no player in the level the enemy's mode and speed never change: in particular a
      stunned enemy stays stunned after its timer has run out. */
  lemma {:induction false} NoPlayerFreezes(cfg: Config, e: Enemy, frames: seq<Frame>)
    requires forall i :: 0 <= i < |frames| ==> frames[i].player.Absent?
    ensures Play(cfg, e, frames).enemy.state == e.state
    ensures Play(cfg, e, frames).enemy.speed == e.speed
    decreases |frames|
  {
    if |frames| > 0 {
      var first := Tick(cfg, e, frames[0]);
      assert forall i :: 0 <= i < |frames[1..]| ==> frames[1..][i] == frames[i + 1];
      NoPlayerFreezes(cfg, first.enemy, frames[1..]);
    }
  }

  /** A wall bump holds off fleeing: while the enemy stays inside the world, none of the
      next `bumpDelay` frames re-aims it away from the player. */
  lemma {:induction false} BounceHoldsOffFleeing(cfg: Config, e: Enemy, frames: seq<Frame>)
    requires e.bumpDelay >= |frames|
    requires forall i :: 0 <= i < |frames| ==> frames[i].inside
    ensures Count(Play(cfg, e, frames).effects, FleeFromPlayer) == 0
    decreases |frames|
  {
    if |frames| > 0 {
      var first := Tick(cfg, e, frames[0]);
      var rest := Play(cfg, first.enemy, frames[1..]);
      assert forall i :: 0 <= i < |frames[1..]| ==> frames[1..][i] == frames[i + 1];
      BounceHoldsOffFleeing(cfg, first.enemy, frames[1..]);
      CountAbsent(first.effects, FleeFromPlayer);
      CountAppend(first.effects, rest.effects, FleeFromPlayer);
    }
  }

  // ---------------------------------------------------------------------------------
  // Runs of projectile hits

  /** Hits by one projectile per draw, one after another. */
  function Volley(cfg: Config, e: Enemy, draws: seq<Unit>): (r: Step)
    ensures r.enemy.lives == e.lives - |draws|
    ensures |draws| > 0 ==> r.enemy.state == Stunned && r.enemy.timeLeft == STUN_TIME
    decreases |draws|
  {
    if |draws| == 0 then Step(e, [])
    else
      var first := OnHit(cfg, e, PROJECTILE_NAME, draws[0]);
      var rest := Volley(cfg, first.enemy, draws[1..]);
      Step(rest.enemy, first.effects + rest.effects)
  }

  /** Every hit that leaves the enemy with no lives scores, including hits on an enemy that
      is already dead: of n hits on an enemy with L lives, the last n - (L - 1) score. */
  lemma {:induction false} VolleyScore(cfg: Config, e: Enemy, draws: seq<Unit>)
    ensures Volley(cfg, e, draws).enemy.score ==
              e.score + (var spare := if e.lives > 1 then e.lives - 1 else 0;
                         if |draws| > spare then |draws| - spare else 0)
    decreases |draws|
  {
    if |draws| > 0 {
      var first := OnHit(cfg, e, PROJECTILE_NAME, draws[0]);
      VolleyScore(cfg, first.enemy, draws[1..]);
    }
  }

  /** As many hits as the enemy has lives kill it: exactly one kill is scored, the death
      countdown is started and the enemy is left stunned. */
  lemma LivesHitsKill(cfg: Config, e: Enemy, draws: seq<Unit>)
    requires e.lives >= 1 && |draws| == e.lives
    ensures Volley(cfg, e, draws).enemy.lives == 0
    ensures Volley(cfg, e, draws).enemy.score == e.score + 1
    ensures Volley(cfg, e, draws).enemy.deathDelay == DELAY
  {
    VolleyScore(cfg, e, draws);
    LastHitStartsCountdown(cfg, e, draws);
  }

  lemma {:induction false} LastHitStartsCountdown(cfg: Config, e: Enemy, draws: seq<Unit>)
    requires |draws| >= e.lives && |draws| > 0
    ensures Volley(cfg, e, draws).enemy.deathDelay == DELAY
    decreases |draws|
  {
    var first := OnHit(cfg, e, PROJECTILE_NAME, draws[0]);
    if |draws| > 1 {
      LastHitStartsCountdown(cfg, first.enemy, draws[1..]);
    }
  }
}
