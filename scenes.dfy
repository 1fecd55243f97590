/** The two scenes and the game that switches between them, as objects whose
    fields the handlers update in place. Each handler is proved to do what
    the matching function of Rules says. */
module Scenes {
  import opened HighScore
  import Rules
  import Properties

  /** The browser's local storage, reduced to the one item the game uses. */
  class LocalStorage {
    /** The `dinoJumperHighScore` item; None when it does not exist. */
    var highScore: Option<int>

    constructor (persisted: Option<int>)
      ensures highScore == persisted
    {
      highScore := persisted;
    }
  }

  class TitleScreen {
    const storage: LocalStorage

    constructor (storage: LocalStorage)
      ensures this.storage == storage
    {
      this.storage := storage;
    }

    /** create: set up the stored best; drawing the background, title, best
        score and play button is not modelled. */
    method Create()
      modifies storage
      ensures storage.highScore == Initialized(old(storage.highScore))
    {
      SetHighScore();
    }

    method SetHighScore()
      modifies storage
      ensures storage.highScore.Some?
      ensures old(storage.highScore).Some? ==> storage.highScore == old(storage.highScore)
      ensures storage.highScore == Initialized(old(storage.highScore))
    {
      if storage.highScore.None? {
        storage.highScore := Some(0);
      }
    }
  }

  class RunnerGame {
    const storage: LocalStorage

    var inAir: bool
    var pointAvailable: bool
    var score: int
    var runnerY: int
    var runnerVelocityY: int
    var enemyX: int
    var enemyVelocityX: int

    /** How many times addEnemy has run since the last create. */
    ghost var enemies: nat

    /** At most one point per enemy: the points scored plus the one still
        armed never exceed the enemies spawned. */
    ghost predicate Valid()
      reads this
    {
      score + (if pointAvailable then 1 else 0) <= enemies
    }

    ghost function View(): Rules.Fields
      reads this
    {
      Rules.Fields(inAir, pointAvailable, score, runnerY, runnerVelocityY, enemyX, enemyVelocityX)
    }

    /** The scene's fields together with the stored best, while it runs. */
    ghost function Here(): Rules.World
      reads this, storage
    {
      Rules.World(Rules.Running, storage.highScore, View())
    }

    constructor (storage: LocalStorage)
      ensures this.storage == storage
      ensures View() == Rules.Unstarted && enemies == 0 && Valid()
    {
      this.storage := storage;
      inAir, pointAvailable, score := false, false, 0;
      runnerY, runnerVelocityY, enemyX, enemyVelocityX := 0, 0, 0, 0;
      enemies := 0;
    }

    /** create: reset the flags and the score, add the runner at rest and
        the first enemy. */
    method Create()
      modifies this
      ensures View() == Rules.Create()
      ensures enemies == 1 && Valid()
    {
      inAir := false;
      pointAvailable := true;
      score := 0;
      runnerY, runnerVelocityY := Rules.RunnerStartY, 0;
      enemies := 0;
      AddEnemy();
    }

    /** addEnemy: the new enemy's position and velocity, and the point
        armed again. */
    method AddEnemy()
      requires score <= enemies
      modifies this
      ensures View() == Rules.AddEnemy(old(View()))
      ensures enemies == old(enemies) + 1 && Valid()
    {
      enemyX := Rules.EnemySpawnX;
      enemyVelocityX := Rules.EnemyVelocityX;
      pointAvailable := true;
      enemies := enemies + 1;
    }

    /** update: the score check, then the in-air status. */
    method Update()
      requires Valid()
      modifies this, storage
      ensures Here() == Rules.Update(old(Here()))
      ensures enemies == old(enemies) && Valid()
    {
      CheckForScore();
      RunnerInAirStatus();
    }

    method RunnerInAirStatus()
      modifies this
      ensures View() == Rules.RunnerInAirStatus(old(View()))
      ensures inAir <==> runnerY < Rules.GroundY
      ensures enemies == old(enemies)
    {
      if runnerY < Rules.GroundY {
        inAir := true;
      } else {
        inAir := false;
      }
    }

    method CheckForScore()
      requires Valid()
      modifies this, storage
      ensures Here() == Rules.CheckForScore(old(Here()))
      ensures score == old(score) + 1 ==> BestValue(storage.highScore) >= score
      ensures enemies == old(enemies) && Valid()
    {
      if !pointAvailable {
        return;
      }
      if enemyX < Rules.ScoreLineX {
        score := score + 1;
        UpdateLocalStorage();
        pointAvailable := false;
      }
    }

    /** updateLocalStorage: a missing item reads as 0 in the comparison. */
    method UpdateLocalStorage()
      modifies storage
      ensures storage.highScore == Recorded(old(storage.highScore), score)
      ensures BestValue(storage.highScore) == Max(BestValue(old(storage.highScore)), score)
    {
      var pastHighScore := BestValue(storage.highScore);
      if score > pastHighScore {
        storage.highScore := Some(score);
      }
    }

    /** startJump: a jump only when the last frame found the runner on the
        ground (the `inAir` flag, not the current height). */
    method StartJump()
      modifies this
      ensures View() == Rules.StartJump(old(View()))
      ensures old(inAir) ==> View() == old(View())
      ensures enemies == old(enemies)
    {
      if !inAir {
        runnerVelocityY := Rules.JumpVelocityY;
      }
    }

    /** The physics engine moving both bodies between frames. */
    method PhysicsStep(y: int, vy: int, x: int, vx: int)
      modifies this
      ensures View() == Rules.Physics(old(View()), y, vy, x, vx)
      ensures enemies == old(enemies)
    {
      runnerY, runnerVelocityY, enemyX, enemyVelocityX := y, vy, x, vx;
    }
  }

  /** The game: the persisted storage, both scenes and which one is active. */
  class Game {
    const storage: LocalStorage
    const title: TitleScreen
    const runner: RunnerGame
    var active: Rules.Scene

    ghost predicate Valid()
      reads this, runner, storage
    {
      title.storage == storage && runner.storage == storage &&
      runner.Valid() && Properties.Covered(State())
    }

    ghost function State(): Rules.World
      reads this, runner, storage
    {
      Rules.World(active, storage.highScore, runner.View())
    }

    /** The game boots into the title screen, whose create runs at once. */
    constructor (persisted: Option<int>)
      ensures Valid() && State() == Rules.Initial(persisted)
      ensures fresh(storage) && fresh(runner)
    {
      var s := new LocalStorage(persisted);
      storage := s;
      title := new TitleScreen(s);
      runner := new RunnerGame(s);
      active := Rules.Title;
      new;
      title.Create();
    }

    /** listenForPlay's handler: from the title screen, start RunnerGame. */
    method PlayClicked()
      requires Valid()
      modifies this, runner, storage
      ensures Valid() && State() == Rules.Step(old(State()), Rules.PlayClicked)
    {
      if active == Rules.Title {
        active := Rules.Running;
        runner.Create();
      }
    }

    /** The pointer listener registered by RunnerGame.create. */
    method PointerDown()
      requires Valid()
      modifies this, runner, storage
      ensures Valid() && State() == Rules.Step(old(State()), Rules.PointerDown)
    {
      if active == Rules.Running {
        runner.StartJump();
      }
    }

    /** The looping spawn timer registered by RunnerGame.create. */
    method TimerTick()
      requires Valid()
      modifies this, runner, storage
      ensures Valid() && State() == Rules.Step(old(State()), Rules.TimerTick)
    {
      if active == Rules.Running {
        runner.AddEnemy();
      }
    }

    /** One frame of the running scene. */
    method Frame()
      requires Valid()
      modifies this, runner, storage
      ensures Valid() && State() == Rules.Step(old(State()), Rules.Frame)
    {
      if active == Rules.Running {
        runner.Update();
      }
    }

    method PhysicsStep(y: int, vy: int, x: int, vx: int)
      requires Valid()
      modifies this, runner, storage
      ensures Valid() && State() == Rules.Step(old(State()), Rules.PhysicsStep(y, vy, x, vx))
    {
      if active == Rules.Running {
        runner.PhysicsStep(y, vy, x, vx);
      }
    }

    /** playerEnemyTouch: stop RunnerGame and start TitleScreen. */
    method PlayerEnemyTouch()
      requires Valid()
      modifies this, runner, storage
      ensures Valid() && State() == Rules.Step(old(State()), Rules.Overlap)
      ensures BestValue(storage.highScore) == BestValue(old(storage.highScore))
    {
      if active == Rules.Running {
        active := Rules.Title;
        title.Create();
      }
    }

    method Dispatch(e: Rules.Event)
      requires Valid()
      modifies this, runner, storage
      ensures Valid() && State() == Rules.Step(old(State()), e)
      ensures BestValue(storage.highScore) >= BestValue(old(storage.highScore))
    {
      match e
      case PlayClicked => PlayClicked();
      case PointerDown => PointerDown();
      case TimerTick => TimerTick();
      case Frame => Frame();
      case PhysicsStep(y, vy, x, vx) => PhysicsStep(y, vy, x, vx);
      case Overlap => PlayerEnemyTouch();
    }

    /** The game loop: the events of many frames, one after another. */
    method Run(events: seq<Rules.Event>)
      requires Valid()
      modifies this, runner, storage
      ensures Valid() && State() == Rules.Trace(old(State()), events)
      ensures BestValue(storage.highScore) >= BestValue(old(storage.highScore))
    {
      var i := 0;
      while i < |events|
        invariant 0 <= i <= |events|
        invariant Valid()
        invariant State() == Rules.Trace(old(State()), events[..i])
      {
        Dispatch(events[i]);
        assert events[..i + 1][..i] == events[..i];
        i := i + 1;
      }
      assert events[..i] == events;
      Properties.BestNeverDecreases(old(State()), events);
    }
  }
}
