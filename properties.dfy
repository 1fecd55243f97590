/** What the rules guarantee over any sequence of events, whatever motion
    the physics engine produces. */
module Properties {
  import opened HighScore
  import opened Rules

  /** Enemies spawned by the timer during a sequence of events. */
  function Spawns(es: seq<Event>): (r: nat)
    decreases |es|
  {
    if es == [] then 0 else Spawns(es[..|es| - 1]) + (if es[|es| - 1].TimerTick? then 1 else 0)
  }

  /** Points already scored plus the one still armed. */
  function Credit(f: Fields): (r: int) {
    f.score + if f.pointAvailable then 1 else 0
  }

  /** The highest score reached at any point of a sequence of events. */
  function Peak(w: World, es: seq<Event>): (r: int)
    decreases |es|
  {
    if es == [] then w.game.score else Max(Peak(w, es[..|es| - 1]), Trace(w, es).game.score)
  }

  /** Events that neither spawn an enemy nor switch scenes. */
  predicate Quiet(e: Event) {
    e.Frame? || e.PointerDown? || e.PhysicsStep?
  }

  /** A score never exceeds the best stored once it is positive. */
  ghost predicate Covered(w: World) {
    w.game.score <= 0 || w.game.score <= BestValue(w.highScore)
  }

  /** The score is non-negative and never above the stored best. */
  ghost predicate Sound(w: World) {
    0 <= w.game.score <= BestValue(w.highScore)
  }

  /** The stored best never goes down, and once the item exists it stays. */
  lemma {:induction false} BestNeverDecreases(w: World, es: seq<Event>)
    ensures BestValue(Trace(w, es).highScore) >= BestValue(w.highScore)
    ensures w.highScore.Some? ==> Trace(w, es).highScore.Some?
    decreases |es|
  {
    if es != [] {
      BestNeverDecreases(w, es[..|es| - 1]);
    }
  }

  /** Every event keeps a positive score at or below the stored best. */
  lemma StepCovered(w: World, e: Event)
    requires Covered(w)
    ensures Covered(Step(w, e))
  {
  }

  /** Over any events a positive score is at or below the stored best, so
      the title screen shown after a collision has a best at least as high
      as the run's score. */
  lemma {:induction false} BestCoversScore(w: World, es: seq<Event>)
    requires Covered(w)
    ensures Covered(Trace(w, es))
    decreases |es|
  {
    if es != [] {
      BestCoversScore(w, es[..|es| - 1]);
      StepCovered(Trace(w, es[..|es| - 1]), es[|es| - 1]);
    }
  }

  /** From a sound state one event leaves the best equal to the larger of
      the old best and the new score. */
  lemma StepBest(w: World, e: Event)
    requires Sound(w)
    ensures Sound(Step(w, e))
    ensures BestValue(Step(w, e).highScore) == Max(BestValue(w.highScore), Step(w, e).game.score)
  {
  }

  /** The stored best is exactly the higher of the best stored beforehand and
      the highest score any run reached since. */
  lemma {:induction false} BestIsHighestScore(w: World, es: seq<Event>)
    requires Sound(w)
    ensures Sound(Trace(w, es))
    ensures BestValue(Trace(w, es).highScore) == Max(BestValue(w.highScore), Peak(w, es))
    decreases |es|
  {
    if es != [] {
      var front := es[..|es| - 1];
      BestIsHighestScore(w, front);
      StepBest(Trace(w, front), es[|es| - 1]);
    }
  }

  /** The game starts sound when the persisted best is not negative (every
      value the game itself writes is 0 or a score). */
  lemma InitialSound(persisted: Option<int>)
    requires BestValue(persisted) >= 0
    ensures Sound(Initial(persisted))
  {
  }

  /** While a run goes on, the score plus the armed point grows only by the
      enemies the timer spawns. */
  lemma {:induction false} CreditBound(w: World, es: seq<Event>)
    requires w.scene == Running
    requires forall i | 0 <= i < |es| :: !es[i].Overlap?
    ensures Trace(w, es).scene == Running
    ensures Credit(Trace(w, es).game) <= Credit(w.game) + Spawns(es)
    decreases |es|
  {
    if es != [] {
      var front := es[..|es| - 1];
      assert forall i | 0 <= i < |front| :: !front[i].Overlap? by {
        forall i | 0 <= i < |front| ensures !front[i].Overlap? {
          assert front[i] == es[i];
        }
      }
      CreditBound(w, front);
    }
  }

  /** At most one point per enemy: a run's score never exceeds the number of
      enemies spawned in it, the first one from `create` included. */
  lemma ScoreAtMostEnemies(w: World, es: seq<Event>)
    requires w.scene == Title
    requires forall i | 0 <= i < |es| :: !es[i].Overlap?
    ensures Trace(Step(w, PlayClicked), es).game.score <= 1 + Spawns(es)
  {
    CreditBound(Step(w, PlayClicked), es);
  }

  /** Once the point is taken, frames, presses and motion score nothing and
      write nothing until the next enemy re-arms it. */
  lemma {:induction false} DisarmedScoresNothing(w: World, es: seq<Event>)
    requires !w.game.pointAvailable
    requires forall i | 0 <= i < |es| :: Quiet(es[i])
    ensures Trace(w, es).game.score == w.game.score
    ensures Trace(w, es).highScore == w.highScore
    ensures Trace(w, es).scene == w.scene
    ensures !Trace(w, es).game.pointAvailable
    decreases |es|
  {
    if es != [] {
      var front := es[..|es| - 1];
      assert forall i | 0 <= i < |front| :: Quiet(front[i]) by {
        forall i | 0 <= i < |front| ensures Quiet(front[i]) {
          assert front[i] == es[i];
        }
      }
      DisarmedScoresNothing(w, front);
    }
  }

  /** A second press before the runner leaves the ground does nothing more:
      the jump velocity is set once, and no press while airborne. */
  lemma JumpOncePerGround(w: World)
    ensures Step(Step(w, PointerDown), PointerDown) == Step(w, PointerDown)
    ensures w.game.inAir ==> Step(w, PointerDown) == w
  {
  }

  /** An enemy crossing the line over several frames is worth exactly one
      point; the next spawn re-arms with a fresh enemy at the right edge. */
  lemma EnemyCrossingScoresOnce()
    ensures var w := Trace(Initial(None),
                           [PlayClicked,
                            PhysicsStep(183, 0, 35, -160), Frame,
                            PhysicsStep(183, 0, 29, -160), Frame,
                            PhysicsStep(183, 0, 20, -160), Frame,
                            PhysicsStep(183, 0, 10, -160), Frame,
                            TimerTick]);
            w.game.score == 1 && w.highScore == Some(1) &&
            w.game.pointAvailable && w.game.enemyX == EnemySpawnX
  {
    var w := Initial(None);
    var es: seq<Event> := [];
    var steps := [PlayClicked,
                  PhysicsStep(183, 0, 35, -160), Frame,
                  PhysicsStep(183, 0, 29, -160), Frame,
                  PhysicsStep(183, 0, 20, -160), Frame,
                  PhysicsStep(183, 0, 10, -160), Frame,
                  TimerTick];
    TraceSnoc(w, es, steps[0]); es := es + [steps[0]];
    assert Trace(w, es).game.score == 0 && Trace(w, es).highScore == Some(0);
    TraceSnoc(w, es, steps[1]); es := es + [steps[1]];
    TraceSnoc(w, es, steps[2]); es := es + [steps[2]];
    assert Trace(w, es).game.score == 0 && Trace(w, es).game.pointAvailable;
    TraceSnoc(w, es, steps[3]); es := es + [steps[3]];
    TraceSnoc(w, es, steps[4]); es := es + [steps[4]];
    assert Trace(w, es).game.score == 1 && Trace(w, es).highScore == Some(1);
    assert !Trace(w, es).game.pointAvailable;
    TraceSnoc(w, es, steps[5]); es := es + [steps[5]];
    TraceSnoc(w, es, steps[6]); es := es + [steps[6]];
    TraceSnoc(w, es, steps[7]); es := es + [steps[7]];
    TraceSnoc(w, es, steps[8]); es := es + [steps[8]];
    assert Trace(w, es).game.score == 1 && Trace(w, es).highScore == Some(1);
    TraceSnoc(w, es, steps[9]); es := es + [steps[9]];
    assert es == steps;
  }

  /** The airborne test reads the flag, which only `update` refreshes: a
      press right after `create`, before any frame, jumps although the
      runner starts above the ground line. */
  lemma JumpBeforeFirstFrame()
    ensures var w := Trace(Initial(None), [PlayClicked, PointerDown]);
            w.game.runnerY < GroundY && !w.game.inAir &&
            w.game.runnerVelocityY == JumpVelocityY
  {
    var w := Initial(None);
    TraceSnoc(w, [], PlayClicked);
    assert [] + [PlayClicked] == [PlayClicked];
    TraceSnoc(w, [PlayClicked], PointerDown);
    assert [PlayClicked] + [PointerDown] == [PlayClicked, PointerDown];
  }

  /** A trace extended by one event is one more step. */
  lemma TraceSnoc(w: World, es: seq<Event>, e: Event)
    ensures Trace(w, es + [e]) == Step(Trace(w, es), e)
  {
  }
}
