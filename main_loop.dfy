/** One iteration of the game's main loop: the frame's input events are
    handled in order, then the game state is updated once. */
module MainLoop {
  import Speeds
  import Scoring
  import Units
  import opened ScoreQuest

  /** Handles a frame with |hits| space-bar key presses (hits[j] is the speed
      drawn by the j-th one, should it score) followed by the frame update
      (`tickDraw` is the speed drawn should the ring be lost).

      Every press in the frame is judged against the snapshot recorded by the
      previous frame's update, which a hit does not refresh: when that radius
      was outside the disc, each of the presses scores the same points and
      advances the difficulty once more, and the ring, restarted at its
      default radius, cannot be lost in the update that follows. */
  method RunFrame(g: Game, hits: seq<int>, tickDraw: int)
    requires g.Valid() && g.snapshot.Some?
    requires Speeds.InDrawRange(0, tickDraw)
    requires forall j :: 0 <= j < |hits| ==>
      Speeds.InDrawRange(Speeds.Advance(g.speedIndex, j + 1), hits[j])
    modifies g
    ensures g.Valid() && g.snapshot.Some?
    ensures g.highScore >= old(g.highScore) && g.score <= g.highScore
    ensures var r := old(g.snapshot).value;
      r > PlayerRadius && |hits| > 0 ==>
        var earned := old(g.score) + |hits| * Scoring.HitPoints(r - PlayerRadius);
        g.score == earned &&
        g.highScore == Max(old(g.highScore), earned) &&
        g.saved == (if earned > old(g.highScore) then Some(earned) else old(g.saved)) &&
        g.speedIndex == Speeds.Advance(old(g.speedIndex), |hits|) &&
        g.enemySpeed == Units.Tenths * hits[|hits| - 1] + SpeedIncrement &&
        g.currentEnemyRadius == EnemyRadiusDefault - g.enemySpeed &&
        g.snapshot == Some(g.currentEnemyRadius)
    ensures var r := old(g.snapshot).value;
      r <= PlayerRadius || |hits| == 0 ==>
        var moved := old(g.currentEnemyRadius) - (old(g.enemySpeed) + SpeedIncrement);
        g.snapshot == Some(moved) &&
        (if Lost(moved) then
           g.score == 0 && g.speedIndex == 0 && g.enemySpeed == Units.Tenths * tickDraw &&
           g.currentEnemyRadius == EnemyRadiusDefault
         else
           g.score == old(g.score) && g.speedIndex == old(g.speedIndex) &&
           g.enemySpeed == old(g.enemySpeed) + SpeedIncrement &&
           g.currentEnemyRadius == moved) &&
        g.highScore == Max(old(g.highScore), old(g.score)) &&
        g.saved == if old(g.score) > old(g.highScore) then Some(g.highScore) else old(g.saved)
  {
    var r := g.snapshot.value;
    var k := 0;
    while k < |hits|
      invariant 0 <= k <= |hits|
      invariant g.Valid()
      invariant g.snapshot == old(g.snapshot) && g.highScore == old(g.highScore)
      invariant g.saved == old(g.saved)
      invariant r > PlayerRadius ==>
        g.score == old(g.score) + k * Scoring.HitPoints(r - PlayerRadius) &&
        g.speedIndex == Speeds.Advance(old(g.speedIndex), k)
      invariant r > PlayerRadius && k > 0 ==>
        g.currentEnemyRadius == EnemyRadiusDefault &&
        g.enemySpeed == Units.Tenths * hits[k - 1]
      invariant r <= PlayerRadius || k == 0 ==>
        g.score == old(g.score) && g.speedIndex == old(g.speedIndex) &&
        g.enemySpeed == old(g.enemySpeed) &&
        g.currentEnemyRadius == old(g.currentEnemyRadius)
    {
      g.Hit(hits[k]);
      k := k + 1;
    }
    if r > PlayerRadius && |hits| > 0 {
      Speeds.TableShape(g.speedIndex);
    }
    g.Update(tickDraw);
  }
}
