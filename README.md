# Score Quest game-state model

A Dafny model of the core of Score Quest, a one-screen timing game. A ring (the
"enemy") shrinks toward the player's disc, a little faster every frame. Pressing
space while the ring is still outside the disc scores points: the closer the
ring, the more points. The ring then restarts at the next difficulty level.
When the ring passes through the disc, the score and the difficulty reset. The
best score is kept and written to storage.

Files:

- `units.dfy` (module `Units`): the unit of length, tenths of a pixel.
- `speeds.dfy` (module `Speeds`): the fixed table of speed ranges, the
  saturating difficulty index and its repeated advance.
- `scoring.dfy` (module `Scoring`): the points for a hit as an exact integer
  function of the distance, with its monotonicity and zero threshold.
- `game.dfy` (module `ScoreQuest`): class `Game` models the source's `Game`
  object. Its fields are the state the source changes: difficulty index, ring
  speed, ring radius, score, high score, the recorded radius and the saved
  value. The source's fixed settings (player radius, ring width, default
  radius, speed increment) are module constants. Its methods model
  `__init__`, `update_speed`, `update` and `save`. `Game.Hit` models the
  space-bar hit, which the source handles inline in `main()`.
- `main_loop.dfy` (module `MainLoop`): one frame of the main loop, meaning the
  frame's space presses in order and then one update.

Units. Radii and speeds are integers in tenths of a pixel: the default radius
500 is 5000, the player radius 20 is 200, the ring width 30 is 300, the
per-frame increment 0.1 is 1, and a drawn speed `s` is `10 * s`. With distance
`D` in tenths, the source's `int(1 / ((d / 10) ** 2) * 1000)` is
`10000000 / (D * D)` in integer division. The two agree exactly in real
arithmetic for positive `D`; the source's floating-point rounding is not
modelled (see "## Left out").

Randomness. Each call of `random.randint` becomes a `draw` parameter. Its
`requires` says the draw lies in the inclusive range of the level being drawn
for.

The hit is judged against a snapshot. Both the guard and the distance read the
ring radius recorded by the last `update`. That value was taken before any
loss reset, and a hit does not refresh it. `Game.snapshot` keeps this value
apart from `currentEnemyRadius`. `MainLoop.RunFrame` states the consequence:
several space presses handled in one frame each score the same points and each
advance the difficulty.

Two modelling choices follow the code:
- the hit is judged on the snapshot, not on the current radius;
- the loaded high score is any integer, not necessarily a non-negative one.

## Model

| member | source | states |
|---|---|---|
| Speeds.MaxIndex | main.py:61-62 | the cap is an index valid in both bound lists, it is the last index of the shorter list, and it is 7 |
| Speeds.NextIndex | main.py:62 | below the cap the index gains exactly 1; at or above the cap it stays put; from [-1, 7] it lands in [0, 7] and never wraps |
| Speeds.Advance | main.py:60-64 | after k advances from an index in [-1, 7], the index lies between its start and 7, is at least 0 once k > 0, and has grown by at most k |
| Speeds.TableShape | main.py:61-64 | level i draws from [i, i + 3]; the range is never empty, so the draw cannot fail, and every bound lies in [0, 10] |
| Speeds.AdvanceSaturates | main.py:62 | k advances move the index by exactly min(k, 7 - i): it climbs one level per advance until the hardest, then stays |
| Speeds.AdvanceFromStart | main.py:39-40 | from the starting index -1, k advances reach level k - 1 up to level 7, and stay at 7 from the eighth advance on |
| Scoring.HitPoints | main.py:149-155 | the points for distance D > 0 are the largest whole p with p * D^2 <= 10^7, i.e. the truncated 1/((d/10)^2)*1000, and never negative |
| Scoring.HitPointsMonotonic | main.py:154-155 | a hit nearer the disc never earns fewer points than one further out |
| Scoring.HitPointsPositiveIff | main.py:154-155 | a hit earns at least one point exactly when the distance is at most 316.2 pixels; beyond that it earns 0 |
| Scoring.HitPointsExamples | main.py:149-155 | distance 100 earns 10 points and distance 10 earns 1000 |
| ScoreQuest.Game.constructor | main.py:34-55 | a new game is at level 0 with a speed in [0, 3], radius 500, score 0, the loaded high score, no snapshot and nothing saved yet |
| ScoreQuest.Game.UpdateSpeed | main.py:60-64 | the index advances by the saturating rule and the returned speed lies in the new level's inclusive range |
| ScoreQuest.Game.Update | main.py:102-121 | speed gains 0.1 and the radius shrinks by the new speed; the snapshot is that radius; the high score becomes max(high score, score before the frame) and is saved exactly when it rises; a loss fires exactly when radius + 30 < 20 and leaves score 0, level 0, a level-0 speed and radius 500; otherwise nothing else changes; score <= high score afterwards and the invariant holds |
| ScoreQuest.Game.Hit | main.py:143-159 | with snapshot radius r > 20 the score gains HitPoints(r - 20), the radius returns to 500, the level advances without reset and the speed is the new draw; with r <= 20 nothing changes; snapshot, high score and saved value are untouched |
| ScoreQuest.Game.Save | main.py:84-87 | the stored record now holds the current high score |
| MainLoop.RunFrame | main.py:134-163 | with a snapshot outside the disc, n presses in one frame add n times the same points and advance the level n times, and the update that follows cannot lose: the high score becomes max(high score, new score) and is saved exactly when it rises; otherwise the frame has exactly the effect of one update, loss or no loss, on every field including the saved value; the high score never falls and ends at or above the score |

## Left out

- Window, fonts, drawing, music and sound effects, the event pump and frame pacing (main.py:8-21, 66-82, 165-175): rendering, audio and platform I/O.
- The `player` and `enemy` dictionaries keyed by `CircleElements` (main.py:23-28, 108-109): only the enemy radius they record is modelled, as `Game.snapshot`.
- `load` (main.py:89-97): it reads a JSON file. The loaded high score is a constructor parameter that may be any integer. The model does not capture that `load` can return a non-integer value or raise on a non-object JSON document.
- `save` writes a JSON file (main.py:84-87). It is modelled as a ghost `saved` field. A failed write is not modelled.
- The quit event (main.py:138-142) only calls `save` and exits the process: `Game.Save` covers the save.
- Non-space key presses (main.py:143-145): the keyboard state query is left out, and only presses made while space is down are given to `RunFrame`.
- The debugging `print` of the index (main.py:63).
- Floating point: `enemy_speed += 0.1` and the score formula run on IEEE doubles in the source. The model uses exact tenths, so rounding drift of the accumulated increments and of the quotient is not captured. Near a boundary the truncation can then differ by one point: at a distance of 0.5 pixel the exact value is 400000, while the doubles may give just under it.
- The randomness of `random.randint`: each draw is a parameter constrained to its range. Uniformity is not modelled.
- Game.Hit: it requires a snapshot to exist. In the source the game object has no `enemy` record before the first `update`, and the main loop calls `update` right after construction (main.py:130).
