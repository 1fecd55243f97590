# Dino Jumper: run-loop bookkeeping

Dino Jumper is a one-screen endless runner built on Phaser. A title screen
shows the best score ever recorded and a play button. The running scene
(`RunnerGame`) has a runner that jumps over enemies crossing from the right.
Each enemy that gets past the runner is worth one point. Touching an enemy
returns the game to the title screen.

Phaser does the motion and the collision detection. The game's own logic is
a small state machine over a few values:

- the active scene;
- RunnerGame's `inAir` flag, which gates jumping;
- RunnerGame's `pointAvailable` flag, which arms one point per enemy;
- RunnerGame's `score`;
- the `dinoJumperHighScore` item in local storage.

This project models that state machine and proves its rules hold for any
motion the engine might produce.

- `high_score.dfy` (module `HighScore`): the stored best. A missing item is
  `None`. `BestValue` is the number a score is compared against: JavaScript's
  `>` reads a missing item (null) as 0.
- `rules.dfy` (module `Rules`): each handler as a function on a snapshot
  `World`. The events arrive from outside: the play click, a pointer press,
  the spawn timer, a frame's `update`, a physics step that sets positions and
  velocities to anything, and an overlap report. `Step` applies one event and
  `Trace` applies a sequence of them.
- `properties.dfy` (module `Properties`): lemmas over every sequence of
  events. They cover at most one point per enemy, a stored best that never
  goes down, a best equal to the highest score reached, and no scoring while
  the point is disarmed.
- `scenes.dfy` (module `Scenes`): classes `LocalStorage`, `TitleScreen`,
  `RunnerGame` and `Game`. Their fields are updated in place. Each method is
  proved to match the function in `Rules`. `RunnerGame.Valid` keeps "points
  plus the armed point ≤ enemies spawned". `Game.Valid` keeps "a positive
  score is never above the stored best". `Game.Run` is the frame loop.

Both scenes switch through Phaser's scene plugin. The handlers that do so
(`listenForPlay`'s callback and `playerEnemyTouch`) are methods of `Game`,
which owns the active scene. Starting a scene runs its `create`.

## Model

| member | source | states |
|---|---|---|
| `HighScore.Initialized` | src/index.js:44-49 | setHighScore: afterwards the item exists; an existing item is kept unchanged; the compared value is unchanged (a missing item becomes 0) |
| `HighScore.InitializedIdempotent` | src/index.js:44-49 | running setHighScore twice is the same as running it once |
| `HighScore.Recorded` | src/index.js:259-266 | updateLocalStorage: the stored value becomes max(stored, score); it is written exactly when the score is strictly greater, and then holds the score |
| `HighScore.RecordedIdempotent` | src/index.js:259-266 | recording the same score twice is the same as recording it once |
| `Rules.Initial` | src/index.js:34-42 | the game boots in the title scene with the item created if it was missing and its value kept |
| `Rules.Create` | src/index.js:122-145 | create: score 0, point armed, not in the air, runner at rest at y 150, enemy at x 401 moving at -160 |
| `Rules.AddEnemy` | src/index.js:205-219 | addEnemy: enemy at x 401 with velocity -160, point armed, score, runner and in-air flag unchanged |
| `Rules.CheckForScore` | src/index.js:242-257 | the score rises by at most 1; it rises exactly when a point is armed and enemy x < 30; then the point is disarmed and the best recorded; otherwise nothing changes |
| `Rules.RunnerInAirStatus` | src/index.js:157-164 | inAir holds exactly when runner y < 172; nothing else changes |
| `Rules.Update` | src/index.js:147-155 | a frame does the score check first; inAir is then recomputed from the runner's y |
| `Rules.StartJump` | src/index.js:276-281 | with the inAir flag set (as the last frame left it) nothing changes; otherwise the vertical velocity becomes -100; only that velocity can change |
| `Rules.StartRunnerGame` | src/index.js:79-84 | the play click starts RunnerGame: scene Running, fresh run fields, best unchanged |
| `Rules.PlayerEnemyTouch` | src/index.js:268-273 | a collision switches to the title scene; run fields unchanged; the stored best is kept (created as 0 if missing) |
| `Rules.Step` | src/index.js:135-144 | the title scene reacts only to the play click; the running scene ignores it; no event lowers the best or deletes the item |
| `Properties.BestNeverDecreases` | src/index.js:259-266 | over any sequence of events the stored best never decreases, and an existing item is never removed |
| `Properties.BestCoversScore` | src/index.js:249-254 | over any sequence of events a positive score is never above the stored best |
| `Properties.BestIsHighestScore` | src/index.js:252-253 | from a state whose score is between 0 and the best, the best after any events equals max(best before, highest score reached) |
| `Properties.CreditBound` | src/index.js:217-219 | during a run, points scored plus the armed point grow by at most the number of timer spawns |
| `Properties.ScoreAtMostEnemies` | src/index.js:133 | a run's score never exceeds the enemies spawned in it: the one from create plus one per timer tick |
| `Properties.DisarmedScoresNothing` | src/index.js:244-247 | while the point is disarmed, frames, presses and motion leave the score, the stored best and the scene unchanged, and the point stays disarmed |
| `Properties.JumpOncePerGround` | src/index.js:276-281 | two presses before leaving the ground act as one; a press while airborne changes nothing |
| `Properties.JumpBeforeFirstFrame` | src/index.js:276-281 | "airborne" is the flag as of the last frame: a press right after create, before any frame, jumps although the runner starts above the 172 line |
| `Properties.EnemyCrossingScoresOnce` | src/index.js:242-257 | an enemy seen at x 35, 29, 20 and 10 over four frames scores exactly 1 and sets the best to 1; the next spawn re-arms at x 401 |
| `Scenes.TitleScreen.Create` | src/index.js:34-42 | the title scene's create sets up the stored best as setHighScore does |
| `Scenes.TitleScreen.SetHighScore` | src/index.js:44-49 | in place: the item exists afterwards, and an existing item is unchanged |
| `Scenes.RunnerGame.Create` | src/index.js:122-145 | in place: the fields become those of `Rules.Create`; one enemy spawned; invariant established |
| `Scenes.RunnerGame.AddEnemy` | src/index.js:196-220 | in place: the fields become `Rules.AddEnemy` of the old ones; spawn count +1; invariant kept |
| `Scenes.RunnerGame.Update` | src/index.js:147-155 | in place: fields and stored best become `Rules.Update` of the old ones |
| `Scenes.RunnerGame.RunnerInAirStatus` | src/index.js:157-164 | in place: inAir holds exactly when runner y < 172 |
| `Scenes.RunnerGame.CheckForScore` | src/index.js:242-257 | in place: as `Rules.CheckForScore`; a point leaves the best at least the score; the points-per-enemy invariant is kept |
| `Scenes.RunnerGame.UpdateLocalStorage` | src/index.js:259-266 | in place: the item becomes max(old value, score) |
| `Scenes.RunnerGame.StartJump` | src/index.js:276-281 | in place: as `Rules.StartJump`; a press while the inAir flag is set leaves every field unchanged |
| `Scenes.Game.constructor` | src/index.js:287-302 | the game starts on the title scene, whose create has run |
| `Scenes.Game.PlayClicked` | src/index.js:79-84 | in place: the play click on the title scene starts a run |
| `Scenes.Game.PointerDown` | src/index.js:136 | in place: a pointer press jumps only while RunnerGame runs |
| `Scenes.Game.TimerTick` | src/index.js:139-144 | in place: the looping timer spawns only while RunnerGame runs |
| `Scenes.Game.Frame` | src/index.js:147-155 | in place: a frame updates only the running scene |
| `Scenes.Game.PlayerEnemyTouch` | src/index.js:268-273 | in place: a collision switches to the title scene and keeps the best value |
| `Scenes.Game.Dispatch` | src/index.js:135-155 | in place: one event takes the state to Rules.Step of the old one; the stored best never decreases |
| `Scenes.Game.Run` | src/index.js:135-155 | in place: any sequence of events takes the state to Rules.Trace of the old one; the stored best never decreases |

## Left out

- Phaser's arcade physics is not modelled: gravity 200, velocity integration, world-bounds clamping, the platform and runner colliders, and overlap detection. Positions and velocities arrive through an arbitrary `PhysicsStep` event, and an overlap arrives as an `Overlap` event.
- Positions are integers. The engine uses floats, but the rules only compare them with the constants 30 and 172.
- The 3000 ms looping timer is not modelled as time. Each firing is a `TimerTick` event, so the number of spawns in a given span of time is not modelled.
- Phaser defers scene start and stop to the next frame boundary. Here a scene switch takes effect at once, so an `update` that Phaser might still run in the collision frame is not modelled.
- Each addEnemy creates a new sprite but never destroys the previous one. Older enemies keep moving and keep their overlap handler. Only `this.enemy` is read by the rules, so older enemies appear only through `Overlap` events.
- No rendering is modelled: background tile sprites and their scroll offsets, the title, score and best-score text, the play button, and animations.
- Asset preloading and the score and lose sounds are left out. They are side effects with no logic.
- Local storage keeps strings. Here the item is an `Option<int>`. The only coercion kept is that a missing item compares as 0. A stored value that is not a number is not modelled.
- An unavailable local storage is not modelled. The game assumes storage always works.
- RunnerGame's fields are undefined before its first create. They are modelled as false and 0; undefined is falsy, so the flags behave the same.
- The build configuration (webpack/base.js) is not part of this model.
- `Properties.BestIsHighestScore` assumes the stored best is not negative. Every value the game writes is 0 or a score. A negative value placed in storage by other means is not covered by this lemma. The weaker `BestNeverDecreases` and `BestCoversScore` hold for any stored value.
- There is no separate game-over state: a collision goes straight back to the title scene (src/index.js:268-273), and the model follows the code.
