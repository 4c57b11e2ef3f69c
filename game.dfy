/** The game-state machine: a ring (the enemy) shrinks toward the player's
    disc, accelerating every frame; a hit while the ring is still outside the
    disc scores by precision and restarts the ring at the next difficulty
    level, and letting the ring pass through the disc resets the score and the
    difficulty. All lengths and speeds are in tenths of a pixel. */
module ScoreQuest {
  import Speeds
  import Scoring
  import Units

  datatype Option<T> = None | Some(value: T)

  /** Radius of the player's disc (20 pixels). */
  const PlayerRadius: int := 200
  /** The ring's radius after every reset (500 pixels). */
  const EnemyRadiusDefault: int := 5000
  /** The ring's thickness, used by the loss test (30 pixels). */
  const EnemyWidth: int := 300
  /** What the ring's speed gains every frame (0.1 pixel). */
  const SpeedIncrement: int := 1

  /** The ring has passed fully through the disc. */
  predicate Lost(radius: int) {
    radius + EnemyWidth < PlayerRadius
  }

  function Max(a: int, b: int): int {
    if a < b then b else a
  }

  class Game {
    /** Current difficulty level: an index into the speed table. */
    var speedIndex: int
    /** How far the ring moves inward each frame. */
    var enemySpeed: int
    /** The ring's inner radius. */
    var currentEnemyRadius: int
    var score: int
    var highScore: int
    /** The ring radius recorded by the last frame update, before any loss
        reset; this is what a hit is judged against. None until the first
        update. */
    var snapshot: Option<int>
    /** The high score last written to durable storage by this session, if any. */
    ghost var saved: Option<int>

    /** The object invariant kept between operations. */
    ghost predicate Valid()
      reads this
    {
      0 <= speedIndex <= Speeds.MaxIndex() &&
      0 <= enemySpeed &&
      0 <= score &&
      -100 <= currentEnemyRadius <= EnemyRadiusDefault
    }

    /** A new game: the ring at its default radius, the first difficulty level
        with a speed drawn for it (`draw` is the random draw), no score, and the
        high score that was loaded from storage. */
    constructor (loadedHighScore: int, draw: int)
      requires Speeds.InDrawRange(0, draw)
      ensures Valid()
      ensures speedIndex == 0
      ensures currentEnemyRadius == EnemyRadiusDefault
      ensures score == 0 && highScore == loadedHighScore
      ensures enemySpeed == Units.Tenths * draw && 0 <= enemySpeed <= 30
      ensures snapshot == None && saved == None
    {
      speedIndex := Speeds.DefaultIndex;
      currentEnemyRadius := EnemyRadiusDefault;
      enemySpeed := 0;
      score := 0;
      highScore := loadedHighScore;
      snapshot := None;
      saved := None;
      new;
      enemySpeed := UpdateSpeed(draw);
    }

    /** Advances the difficulty level by one (saturating at the hardest) and
        returns the speed `draw` the level's uniform draw produced, in tenths. */
    method UpdateSpeed(draw: int) returns (speed: int)
      requires Speeds.DefaultIndex <= speedIndex <= Speeds.MaxIndex()
      requires Speeds.InDrawRange(Speeds.NextIndex(speedIndex), draw)
      modifies this`speedIndex
      ensures speedIndex == Speeds.NextIndex(old(speedIndex))
      ensures 0 <= speedIndex <= Speeds.MaxIndex()
      ensures Units.Tenths * Speeds.Lows[speedIndex] <= speed <= Units.Tenths * Speeds.Highs[speedIndex]
      ensures speed == Units.Tenths * draw
    {
      speedIndex := Speeds.NextIndex(speedIndex);
      Speeds.TableShape(speedIndex);
      speed := Units.Tenths * draw;
    }

    /** One frame: the ring accelerates and shrinks, the snapshot records the
        new radius, the high score catches up with the score (and is saved when
        it does), and a ring that passed through the disc triggers a loss:
        score 0, difficulty back to the first level with a fresh speed drawn
        (`draw`), ring back to its default radius. */
    method Update(draw: int)
      requires Valid()
      requires Speeds.InDrawRange(0, draw)
      modifies this
      ensures Valid()
      ensures var moved := old(currentEnemyRadius) - (old(enemySpeed) + SpeedIncrement);
        snapshot == Some(moved) &&
        if Lost(moved) then
          score == 0 && speedIndex == 0 && enemySpeed == Units.Tenths * draw &&
          currentEnemyRadius == EnemyRadiusDefault
        else
          score == old(score) && speedIndex == old(speedIndex) &&
          enemySpeed == old(enemySpeed) + SpeedIncrement &&
          currentEnemyRadius == old(currentEnemyRadius) - enemySpeed
      ensures highScore == Max(old(highScore), old(score))
      ensures highScore >= old(highScore) && score <= highScore
      ensures saved == if old(score) > old(highScore) then Some(highScore) else old(saved)
    {
      enemySpeed := enemySpeed + SpeedIncrement;
      currentEnemyRadius := currentEnemyRadius - enemySpeed;
      snapshot := Some(currentEnemyRadius);
      if score > highScore {
        highScore := score;
        Save();
      }
      if Lost(currentEnemyRadius) {
        score := 0;
        speedIndex := Speeds.DefaultIndex;
        enemySpeed := UpdateSpeed(draw);
        currentEnemyRadius := EnemyRadiusDefault;
      }
    }

    /** The player's action (space pressed): when the recorded radius is still
        outside the disc, the score gains the points for that distance, and the
        ring restarts at its default radius with the speed `draw` drawn for the
        next difficulty level. The snapshot is left as it was, and the
        difficulty is not reset. Otherwise nothing changes. */
    method Hit(draw: int)
      requires Valid() && snapshot.Some?
      requires snapshot.value > PlayerRadius ==>
        Speeds.InDrawRange(Speeds.NextIndex(speedIndex), draw)
      modifies this
      ensures Valid()
      ensures snapshot == old(snapshot) && highScore == old(highScore) && saved == old(saved)
      ensures var r := old(snapshot).value;
        if r > PlayerRadius then
          score == old(score) + Scoring.HitPoints(r - PlayerRadius) &&
          score >= old(score) &&
          currentEnemyRadius == EnemyRadiusDefault &&
          speedIndex == Speeds.NextIndex(old(speedIndex)) &&
          enemySpeed == Units.Tenths * draw
        else
          score == old(score) && currentEnemyRadius == old(currentEnemyRadius) &&
          speedIndex == old(speedIndex) && enemySpeed == old(enemySpeed)
    {
      if snapshot.value > PlayerRadius {
        var distance := snapshot.value - PlayerRadius;
        score := score + Scoring.HitPoints(distance);
        currentEnemyRadius := EnemyRadiusDefault;
        enemySpeed := UpdateSpeed(draw);
      }
    }

    /** Writes the high score to durable storage (on a new high score and when
        the game quits). */
    method Save()
      modifies this`saved
      ensures saved == Some(highScore)
    {
      saved := Some(highScore);
    }
  }
}
