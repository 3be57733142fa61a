# Enemy behaviour state machine

A Dafny model of the enemy of the first level of a 2D arcade game. The enemy has three modes:
Normal, Run and Stunned. It loses a life to every projectile that hits it. It runs from the
player when the player is close and facing it, and it bounces off the world's walls. After its
last life it plays out a 30-frame death countdown before it is removed.

The model is a pure transition system over an immutable `Enemy` record. The record holds the
mode, lives, stun timer, death countdown, wall-bump cooldown, speed and this enemy's
contribution to the level's kill score. Three handlers drive it:

- `EnemyHit.OnHit` handles the trigger-collision callback.
- `EnemyDecide.ChangeState` is the per-frame state decision.
- `EnemyFrame.Tick` is the whole per-frame update, built from `DeathCountdown`, the stun
  timer, `ChangeState`, `Move` and `BumpWalls`.

Each handler returns the new record together with the ordered list of effects it asks the
engine for: destroy, play a sound, spawn a pickup, re-aim, advance, spin, clamp.
`EnemyTrace` strings handlers together over sequences of events. On those sequences it proves
the lifetime properties: the counters' invariant, the death countdown, how long a stun lasts,
the flee cooldown after a wall bump, and how kills are scored.

The engine is turned into inputs:

- **Geometry.** The player's distance and the dot products of the player's right and up axes
  with the direction to the enemy arrive as `PlayerView`. The facing switch over those dot
  products is modelled (`FacingAngle`).
- **World bounds.** Whether the enemy lies inside the world arrives as a boolean on each
  `Frame`.
- **Randomness.** Every random draw is a `Unit` value in [0, 1]. The ranged speed draw
  interpolates between the configured minimum and maximum speed.

Modules follow the handlers of `EnemyBehavior.cs`:

- `enemy_model.dfy`: state variables and constants.
- `enemy_hit.dfy`: the collision handler.
- `enemy_decide.dfy`: the state functions and `newSpeed`.
- `enemy_frame.dfy`: `Update`.
- `enemy_trace.dfy`: sequences of events.

Three behaviours of the code are easy to miss:

- **Stunned only ends when a player is present.** A stunned enemy returns to Normal only on a
  frame where the player exists: the state decision returns early when there is no player
  (`EnemyBehavior.cs:232-233`). Without a player a stunned enemy stays stunned for good
  (`EnemyTrace.NoPlayerFreezes`).
- **The stun timer runs in every mode.** It counts down in every frame, not only while
  stunned, so it goes negative in the other modes.
- **Hits after death still count.** A projectile hit on an enemy that is already dead
  decrements `Lives` again, restarts the death countdown and scores again
  (`EnemyTrace.VolleyScore`). In the running game the enemy's `Rigidbody2D` is removed on
  death, which normally stops further trigger callbacks. The model does not model the engine's
  delivery of collisions.

## Model

| member | source | states |
|---|---|---|
| EnemyDecide.NewSpeed | Assets/Scripts/Level1/EnemyBehavior.cs:311-314 | a newly drawn speed lies in [minSpeed, maxSpeed] whenever that range is non-empty, and the extreme draws give its ends |
| EnemyDecide.FacingAngle | Assets/Scripts/Level1/EnemyBehavior.cs:235-259 | without a player controller the facing angle is 0 |
| EnemyDecide.ChangeState | Assets/Scripts/Level1/EnemyBehavior.cs:229-273 | with no player nothing changes; only mode and speed can change; it never stuns; an unexpired stun holds; a spotted, unstunned enemy runs; the only ways into Normal are Run out of range and Stunned with the timer out, and both happen with the new speed and a rotation reset; the speed changes only then |
| EnemyDecide.NoControllerNeverStartsRunning | Assets/Scripts/Level1/EnemyBehavior.cs:235-265 | without a controller an enemy starts to run exactly when in range, not stunned and the facing threshold is negative; under the default 0.8 threshold it never starts |
| EnemyDecide.OppositeFacingsExclusive | Assets/Scripts/Level1/EnemyBehavior.cs:240-262 | with a non-negative threshold, opposite facings (East/West, North/South) never both spot the same enemy |
| EnemyDecide.DecisionIsMemoryless | Assets/Scripts/Level1/EnemyBehavior.cs:261-272 | the next mode and effects depend only on the current mode, the stun timer and the view |
| EnemyHit.DeathEffects | Assets/Scripts/Level1/EnemyBehavior.cs:204-216 | a kill hides the enemy and removes its rigidbody, spawns a pickup exactly when the drop draw is below the drop rate, plays the death clip exactly when one is assigned, asks for nothing else, and asks for each effect at most once |
| EnemyHit.OnHit | Assets/Scripts/Level1/EnemyBehavior.cs:186-225 | a non-projectile changes nothing; a projectile is destroyed, stuns for 5 s and costs exactly one life; the last life scores exactly one kill and starts the 30-frame countdown, emitting exactly the projectile's destruction followed by the death effects; a survivable hit only plays the hit sound; speed and wall cooldown untouched |
| EnemyHit.OnHitPreservesValid | Assets/Scripts/Level1/EnemyBehavior.cs:194-206 | a collision keeps the counters' invariant (countdowns in [0, 30], a running death countdown only with no lives left, speed in range) |
| EnemyFrame.DeathCountdown | Assets/Scripts/Level1/EnemyBehavior.cs:105-110 | a running countdown drops by one and never goes negative; destruction is asked for exactly on the frame it reaches 0 |
| EnemyFrame.Move | Assets/Scripts/Level1/EnemyBehavior.cs:117-142 | a running enemy re-aims exactly when its bump cooldown is over and a player is present, and then advances once; a stunned one only spins, once; a normal one advances once exactly when movement is enabled; no request is repeated |
| EnemyFrame.BumpWalls | Assets/Scripts/Level1/EnemyBehavior.cs:147-163 | leaving the world picks a new direction exactly then and restarts the cooldown at 30; otherwise a running cooldown drops by one; the new direction is picked at most once and before the single clamp that ends every frame |
| EnemyFrame.Behave | Assets/Scripts/Level1/EnemyBehavior.cs:114-163 | the rest of a frame leaves lives, score and death countdown alone, runs the timer down by the elapsed time, and never destroys the enemy |
| EnemyFrame.Tick | Assets/Scripts/Level1/EnemyBehavior.cs:102-166 | a frame keeps lives and score; runs the timer down; counts both countdowns down as above; destroys exactly when the death countdown was 1; re-aims exactly for a running enemy with an expired cooldown and a player; a stunned enemy spins and does not advance; the speed changes only on a return to Normal, with a rotation reset; a frame never spawns, plays a sound or destroys a projectile |
| EnemyFrame.TickDestroysOnce | Assets/Scripts/Level1/EnemyBehavior.cs:105-110 | a frame asks for destruction once if the death countdown was 1 and never otherwise |
| EnemyFrame.TickPreservesValid | Assets/Scripts/Level1/EnemyBehavior.cs:102-166 | a frame keeps the counters' invariant |
| EnemyTrace.Spawn | Assets/Scripts/Level1/EnemyBehavior.cs:29-49 | a fresh enemy is Normal with three lives and satisfies the invariant |
| EnemyTrace.Replay | Assets/Scripts/Level1/EnemyBehavior.cs:186-225 | over any events, lives drop by exactly the number of projectile hits and the score grows by at most that number |
| EnemyTrace.ReplayPreservesValid | Assets/Scripts/Level1/EnemyBehavior.cs:102-225 | any sequence of frames and collisions keeps the counters' invariant |
| EnemyTrace.Play | Assets/Scripts/Level1/EnemyBehavior.cs:102-166 | frames alone never change lives or score |
| EnemyTrace.DeathPlaysOut | Assets/Scripts/Level1/EnemyBehavior.cs:105-110 | a death countdown of d drops to max(d - n, 0) over n frames, and the enemy is destroyed exactly once if 0 < d <= n and never otherwise |
| EnemyTrace.StunLasts | Assets/Scripts/Level1/EnemyBehavior.cs:176-183 | while the frames so far took less time than the stun had left, the enemy stays stunned at its old speed |
| EnemyTrace.StunEnds | Assets/Scripts/Level1/EnemyBehavior.cs:266-272 | the first frame with a player after the timer ran out returns a stunned enemy to Normal with the new speed |
| EnemyTrace.NoPlayerFreezes | Assets/Scripts/Level1/EnemyBehavior.cs:232-233 | with no player, mode and speed never change, so a stun never ends |
| EnemyTrace.BounceHoldsOffFleeing | Assets/Scripts/Level1/EnemyBehavior.cs:125-160 | inside the world, none of the next bumpDelay frames re-aims the enemy away from the player |
| EnemyTrace.Volley | Assets/Scripts/Level1/EnemyBehavior.cs:194-201 | n projectile hits cost n lives and leave the enemy stunned for 5 s |
| EnemyTrace.VolleyScore | Assets/Scripts/Level1/EnemyBehavior.cs:201-203 | of n hits on an enemy with L lives, the last n - (L - 1) (or all, when L <= 1) each score a kill |
| EnemyTrace.LivesHitsKill | Assets/Scripts/Level1/EnemyBehavior.cs:201-206 | exactly as many hits as lives kill the enemy with exactly one kill scored and the countdown started |
| EnemyTrace.LastHitStartsCountdown | Assets/Scripts/Level1/EnemyBehavior.cs:201-206 | once the hits have used up the lives, the death countdown stands at 30 |

## Left out

- Floating point: the stun timer, distances, dot products, speeds and thresholds are exact `real`s. The source uses 32-bit floats, so `0.8f` is not exactly 0.8 and `timeLeft -= Time.deltaTime` rounds.
- `score` counts only this enemy's kills. The level's `Score` (EnemyBehavior.cs:203) is shared by every enemy and owned by `LevelBehavior`, which is not part of this model; other enemies' kills are not modelled, so "frames never change the score" and "the score grows by at most the number of hits" speak of this enemy's contribution only.
- Integer widths: `Lives`, the score and the countdowns are unbounded integers. The values reached are far from 32-bit overflow.
- `newDirection` (EnemyBehavior.cs:290-308): a tangent and vector normalisation with random draws. The model records only that a new direction is chosen (`NewDirection`).
- Position, rotation and translation (`transform.position +=`, `transform.Rotate`, the rotation reset): float vector arithmetic on engine transforms. They appear only as the `Advance`, `Spin`, `FleeFromPlayer` and `ResetRotation` effects.
- The world-bounds component: `ObjectCollideWorldBound` and `ClampToWorld` belong to a `WorldBound` component that is not part of this model. The status becomes the `inside` input and clamping becomes the `ClampToWorld` effect.
- The computation of distance and dot products from the player's transform. These arrive as inputs in `PlayerView`.
- `Start` (EnemyBehavior.cs:63-99): scene lookups, resource loading, logging and `Application.Quit`. Only the initial field values and the speed draw it makes are kept, in `Spawn`.
- Audio, `Instantiate`, `Destroy`, the renderer and the rigidbody. These appear only as effect tokens. A missing pickup prefab, which would make `Instantiate` fail, is not modelled.
- The engine's delivery of collisions. The model applies every collision it is given. It does not model that removing the rigidbody stops further trigger callbacks.
- `updateTimer`'s boolean result: `Update` ignores it, so the model keeps only the timer decrement.
- The level's `Movement` switch and the `Time.smoothDeltaTime` used for translation: the switch is the `movement` input; the smoothed time affects only positions.
- `ProjectileMovement.cs`: a per-frame translation, a bounds query and self-destruction, with no state of its own.
