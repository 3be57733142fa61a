/** What an enemy does when something enters its trigger collider. */
module EnemyHit {
  import opened EnemyModel

  /** The effects of the hit that ends the enemy's last life: hide it, remove its rigidbody,
      spawn a pickup when the drop draw falls under the drop rate, and play the death clip
      when one is assigned. */
  function DeathEffects(cfg: Config, dropDraw: Unit): (r: seq<Effect>)
    ensures HideRenderer in r && RemoveRigidbody in r
    ensures SpawnPickup in r <==> dropDraw < cfg.itemDropRate
    ensures PlayDeathSound in r <==> cfg.hasDeathSound
    ensures forall x :: x in r ==> x in {HideRenderer, RemoveRigidbody, SpawnPickup, PlayDeathSound}
    ensures forall i, j :: 0 <= i < j < |r| ==> r[i] != r[j]
  {
    [HideRenderer, RemoveRigidbody]
    + (if dropDraw < cfg.itemDropRate then [SpawnPickup] else [])
    + (if cfg.hasDeathSound then [PlayDeathSound] else [])
  }

  /** A collision with the object called `other`. Anything but a projectile is ignored. A
      projectile is destroyed and stuns the enemy for STUN_TIME seconds at the cost of a
      life; the hit that leaves no lives scores a kill and starts the death countdown. */
  function OnHit(cfg: Config, e: Enemy, other: string, dropDraw: Unit): (r: Step)
    // anything that is not a projectile changes nothing
    ensures other != PROJECTILE_NAME ==> r == Step(e, [])
    // a projectile always stuns afresh and costs exactly one life
    ensures other == PROJECTILE_NAME ==>
              r.enemy.state == Stunned && r.enemy.timeLeft == STUN_TIME && r.enemy.lives == e.lives - 1
    ensures other == PROJECTILE_NAME ==> |r.effects| > 0 && r.effects[0] == DestroyProjectile
    // the speed and the wall-bump countdown are untouched
    ensures r.enemy.speed == e.speed && r.enemy.bumpDelay == e.bumpDelay
    // the last life: one kill, the death countdown, the death effects
    ensures other == PROJECTILE_NAME && e.lives - 1 <= 0 ==>
              && r.enemy.score == e.score + 1
              && r.enemy.deathDelay == DELAY
              && r.effects == [DestroyProjectile] + DeathEffects(cfg, dropDraw)
    // a survivable hit: no score, no countdown change, only the hit sound
    ensures other == PROJECTILE_NAME && e.lives - 1 > 0 ==>
              && r.enemy.score == e.score
              && r.enemy.deathDelay == e.deathDelay
              && r.effects == [DestroyProjectile, PlayHitSound]
    // a hit never destroys the enemy itself; that is the countdown's job
    ensures DestroySelf !in r.effects
  {
    if other != PROJECTILE_NAME then Step(e, [])
    else
      var stunned := e.(state := Stunned, timeLeft := STUN_TIME, lives := e.lives - 1);
      if stunned.lives <= 0 then
        Step(stunned.(score := e.score + 1, deathDelay := DELAY),
             [DestroyProjectile] + DeathEffects(cfg, dropDraw))
      else
        Step(stunned, [DestroyProjectile, PlayHitSound])
  }

  /** A collision keeps the counters' invariant: the death countdown is only ever started by
      the hit that leaves no lives. */
  lemma OnHitPreservesValid(cfg: Config, e: Enemy, other: string, dropDraw: Unit)
    requires Valid(cfg, e)
    ensures Valid(cfg, OnHit(cfg, e, other, dropDraw).enemy)
  {
  }
}
