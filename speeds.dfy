/** The difficulty progression of the game: a fixed table of speed ranges
    (one range per level) and the index that walks through it, saturating at
    the hardest level that both halves of the table describe. */
module Speeds {

  /** Lower bounds of the speed draw, one per difficulty level (whole units). */
  const Lows: seq<int> := [0, 1, 2, 3, 4, 5, 6, 7]

  /** Upper bounds of the speed draw; this list is one entry longer than Lows,
      and its last entry is never reached. */
  const Highs: seq<int> := [3, 4, 5, 6, 7, 8, 9, 10, 11]

  /** The index the game starts from, one before the first level, so that the
      first advance lands on level 0. */
  const DefaultIndex: int := -1

  /** The hardest level: the last index valid in both halves of the table. */
  function MaxIndex(): (r: int)
    ensures r < |Lows| && r < |Highs|
    ensures r + 1 == |Lows| || r + 1 == |Highs|
    ensures r == 7
  {
    (if |Lows| < |Highs| then |Lows| else |Highs|) - 1
  }

  /** The index after one advance: one more while below the hardest level,
      unchanged at (or beyond) it. */
  function NextIndex(i: int): (j: int)
    ensures i < MaxIndex() ==> j == i + 1
    ensures i >= MaxIndex() ==> j == i
    ensures DefaultIndex <= i <= MaxIndex() ==> 0 <= j <= MaxIndex()
  {
    if i < MaxIndex() then i + 1 else i
  }

  /** The index after k advances from i. */
  function Advance(i: int, k: nat): (r: int)
    requires DefaultIndex <= i <= MaxIndex()
    ensures i <= r <= MaxIndex()
    ensures k > 0 ==> 0 <= r
    ensures r <= i + k
  {
    if k == 0 then i else NextIndex(Advance(i, k - 1))
  }

  /** `draw` is a value the inclusive uniform draw for level i can return. */
  predicate InDrawRange(i: int, draw: int)
    requires 0 <= i <= MaxIndex()
  {
    Lows[i] <= draw <= Highs[i]
  }

  /** Level i draws from [i, i + 3]: the range is never empty, so the draw
      never fails, and every speed lies in [0, 10]. */
  lemma TableShape(i: int)
    requires 0 <= i <= MaxIndex()
    ensures Lows[i] == i && Highs[i] == i + 3
    ensures Lows[i] <= Highs[i]
    ensures 0 <= Lows[i] && Highs[i] <= 10
  {
  }

  /** Advancing k times from any valid index moves it by k, capped at the
      hardest level: the progression saturates and never wraps. */
  lemma {:induction false} AdvanceSaturates(i: int, k: nat)
    requires DefaultIndex <= i <= MaxIndex()
    ensures Advance(i, k) == if i + k < MaxIndex() then i + k else MaxIndex()
  {
    if k > 0 {
      AdvanceSaturates(i, k - 1);
    }
  }

  /** From the starting index, k advances reach level k - 1 until level 7;
      eight advances or more reach the hardest level and stay there. */
  lemma {:induction false} AdvanceFromStart(k: nat)
    requires k > 0
    ensures Advance(DefaultIndex, k) == if k <= 8 then k - 1 else 7
  {
    AdvanceSaturates(DefaultIndex, k);
  }
}
