/** The rules the two scenes apply, as functions on a snapshot of the game.
    Motion and overlap are decided by the physics engine; here they arrive as
    events carrying whatever positions the engine produced. */
module Rules {
  import opened HighScore

  /** The runner counts as airborne above this line (screen y grows downwards). */
  const GroundY := 172
  /** An armed point is scored once the enemy's x is left of this line. */
  const ScoreLineX := 30
  /** Where addEnemy places each new enemy, and its horizontal velocity. */
  const EnemySpawnX := 401
  const EnemyVelocityX := -160
  /** The vertical velocity a jump gives the runner. */
  const JumpVelocityY := -100
  /** Where addRunner places the runner. */
  const RunnerStartY := 150

  /** The active scene: the keys "TitleScreen" and "RunnerGame". */
  datatype Scene = Title | Running

  /** The fields of the RunnerGame scene, with the runner's and the current
      enemy's position and velocity as far as the rules read or write them. */
  datatype Fields = Fields(
    inAir: bool,
    pointAvailable: bool,
    score: int,
    runnerY: int,
    runnerVelocityY: int,
    enemyX: int,
    enemyVelocityX: int)

  datatype World = World(scene: Scene, highScore: Option<int>, game: Fields)

  /** Things that happen to the game from outside: a click on the play
      button, a pointer press, the 3000 ms spawn timer firing, one frame's
      `update`, a physics step that moves the bodies anywhere, and the
      engine reporting that the runner overlaps an enemy. */
  datatype Event =
    | PlayClicked
    | PointerDown
    | TimerTick
    | Frame
    | PhysicsStep(runnerY: int, runnerVelocityY: int, enemyX: int, enemyVelocityX: int)
    | Overlap

  /** RunnerGame's fields before its first `create` (undefined, hence falsy). */
  const Unstarted := Fields(false, false, 0, 0, 0, 0, 0)

  /** The game as it starts: the title screen, after its `create`. */
  function Initial(persisted: Option<int>): (w: World)
    ensures w.scene == Title
    ensures w.highScore.Some? && BestValue(w.highScore) == BestValue(persisted)
  {
    World(Title, Initialized(persisted), Unstarted)
  }

  /** addEnemy: a new enemy at the right edge running left, and the point
      armed again; the score and the runner are left alone. */
  function AddEnemy(f: Fields): (r: Fields)
    ensures r.pointAvailable
    ensures r.enemyX == EnemySpawnX && r.enemyVelocityX == EnemyVelocityX
    ensures r.score == f.score && r.inAir == f.inAir
    ensures r.runnerY == f.runnerY && r.runnerVelocityY == f.runnerVelocityY
  {
    f.(enemyX := EnemySpawnX, enemyVelocityX := EnemyVelocityX, pointAvailable := true)
  }

  /** RunnerGame.create: reset the flags and the score, place the runner at
      rest and spawn the first enemy. */
  function Create(): (r: Fields)
    ensures r.score == 0 && r.pointAvailable && !r.inAir
    ensures r.runnerY == RunnerStartY && r.runnerVelocityY == 0
    ensures r.enemyX == EnemySpawnX && r.enemyVelocityX == EnemyVelocityX
  {
    AddEnemy(Fields(false, true, 0, RunnerStartY, 0, 0, 0))
  }

  /** checkForScore: one point when a point is armed and the enemy has
      passed the line; the point is then disarmed and the best score
      updated. Otherwise nothing changes. */
  function CheckForScore(w: World): (r: World)
    ensures r.scene == w.scene
    ensures r.game.score == w.game.score || r.game.score == w.game.score + 1
    ensures r.game.score == w.game.score + 1 <==> w.game.pointAvailable && w.game.enemyX < ScoreLineX
    ensures r.game.score == w.game.score + 1 ==>
              !r.game.pointAvailable && r.highScore == Recorded(w.highScore, r.game.score)
    ensures r.game.score == w.game.score ==> r == w
    ensures r.game == w.game.(score := r.game.score, pointAvailable := r.game.pointAvailable)
  {
    if !w.game.pointAvailable then
      w
    else if w.game.enemyX < ScoreLineX then
      var score := w.game.score + 1;
      World(w.scene, Recorded(w.highScore, score), w.game.(score := score, pointAvailable := false))
    else
      w
  }

  /** runnerInAirStatus: the flag is recomputed from the runner's height. */
  function RunnerInAirStatus(f: Fields): (r: Fields)
    ensures r.inAir <==> f.runnerY < GroundY
    ensures r == f.(inAir := r.inAir)
  {
    f.(inAir := f.runnerY < GroundY)
  }

  /** update: the score check first, then the in-air status. */
  function Update(w: World): (r: World)
    ensures r.scene == w.scene
    ensures r.highScore == CheckForScore(w).highScore
    ensures r.game == CheckForScore(w).game.(inAir := w.game.runnerY < GroundY)
  {
    var c := CheckForScore(w);
    World(c.scene, c.highScore, RunnerInAirStatus(c.game))
  }

  /** startJump: on the ground the runner gets the jump velocity; in the air
      the press is ignored. "In the air" is the `inAir` flag as the last
      frame's `update` left it, not the runner's current height: after
      `create` or a physics step the flag lags until the next frame. */
  function StartJump(f: Fields): (r: Fields)
    ensures f.inAir ==> r == f
    ensures !f.inAir ==> r.runnerVelocityY == JumpVelocityY
    ensures r == f.(runnerVelocityY := r.runnerVelocityY)
  {
    if !f.inAir then f.(runnerVelocityY := JumpVelocityY) else f
  }

  /** The physics engine moving both bodies, to any position and speed. */
  function Physics(f: Fields, runnerY: int, runnerVelocityY: int, enemyX: int, enemyVelocityX: int): (r: Fields) {
    f.(runnerY := runnerY, runnerVelocityY := runnerVelocityY,
       enemyX := enemyX, enemyVelocityX := enemyVelocityX)
  }

  /** listenForPlay's handler: start RunnerGame, which runs its `create`. */
  function StartRunnerGame(w: World): (r: World)
    ensures r.scene == Running
    ensures r.highScore == w.highScore
    ensures r.game.score == 0 && r.game.pointAvailable && !r.game.inAir
  {
    World(Running, w.highScore, Create())
  }

  /** playerEnemyTouch: stop RunnerGame and start TitleScreen, whose `create`
      initialises the stored best; RunnerGame's fields stay as they were. */
  function PlayerEnemyTouch(w: World): (r: World)
    ensures r.scene == Title
    ensures r.game == w.game
    ensures r.highScore.Some? && BestValue(r.highScore) == BestValue(w.highScore)
    ensures w.highScore.Some? ==> r.highScore == w.highScore
  {
    World(Title, Initialized(w.highScore), w.game)
  }

  /** One event. The play button only exists on the title screen; the
      pointer listener, the timer, `update`, the physics world and the
      overlap handler only while RunnerGame runs (stopping the scene shuts
      them down). */
  function Step(w: World, e: Event): (r: World)
    ensures w.scene == Title && !e.PlayClicked? ==> r == w
    ensures w.scene == Running && e.PlayClicked? ==> r == w
    ensures BestValue(r.highScore) >= BestValue(w.highScore)
    ensures w.highScore.Some? ==> r.highScore.Some?
  {
    match e
    case PlayClicked =>
      if w.scene == Title then StartRunnerGame(w) else w
    case PointerDown =>
      if w.scene == Running then w.(game := StartJump(w.game)) else w
    case TimerTick =>
      if w.scene == Running then w.(game := AddEnemy(w.game)) else w
    case Frame =>
      if w.scene == Running then Update(w) else w
    case PhysicsStep(y, vy, x, vx) =>
      if w.scene == Running then w.(game := Physics(w.game, y, vy, x, vx)) else w
    case Overlap =>
      if w.scene == Running then PlayerEnemyTouch(w) else w
  }

  /** The game after a sequence of events, the last one applied last. */
  function Trace(w: World, es: seq<Event>): (r: World)
    decreases |es|
  {
    if es == [] then w else Step(Trace(w, es[..|es| - 1]), es[|es| - 1])
  }
}
