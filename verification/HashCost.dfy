/** What merkleizing m chunks costs: one hash for every node that covers some chunk, level by level. */
module HashCost {
  import opened Merkle
  import opened Merkleizer

  /** Nodes at height k above m chunks: m halved k times, rounding up. */
  function Level(m: nat, k: nat): nat
    decreases k
  {
    if k == 0 then m else Level((m + 1) / 2, k - 1)
  }

  /** Nodes at heights 1 to d. */
  function Levels(m: nat, d: nat): nat {
    if d == 0 then 0 else Levels(m, d - 1) + Level(m, d)
  }

  /** Level(m, k) is m / 2^k rounded up. */
  lemma {:induction false} LevelIsCeiling(m: nat, k: nat)
    requires m > 0
    ensures (Level(m, k) - 1) * Pow2(k) < m <= Level(m, k) * Pow2(k)
    decreases k
  {
    if k > 0 {
      var c, q, p := (m + 1) / 2, Level((m + 1) / 2, k - 1), Pow2(k - 1);
      LevelIsCeiling(c, k - 1);
      Doubled(q - 1, p);
      Doubled(q, p);
    }
  }

  lemma Doubled(a: int, p: int)
    ensures a * (2 * p) == 2 * (a * p)
  {
  }

  lemma {:induction false} LevelOfFull(e: nat, b: nat, k: nat)
    requires k <= e
    ensures Level(Pow2(e) + b, k) == Pow2(e - k) + Level(b, k)
    decreases k
  {
    if k > 0 {
      LevelOfFull(e - 1, (b + 1) / 2, k - 1);
      assert (Pow2(e) + b + 1) / 2 == Pow2(e - 1) + (b + 1) / 2;
    }
  }

  lemma {:induction false} LevelsOfFull(e: nat, b: nat, d: nat)
    requires d <= e
    ensures Levels(Pow2(e) + b, d) == Levels(Pow2(e), d) + Levels(b, d)
    decreases d
  {
    if d > 0 {
      LevelsOfFull(e, b, d - 1);
      LevelOfFull(e, b, d);
      LevelOfFull(e, 0, d);
      LevelOfZero(d);
    }
  }

  lemma {:induction false} LevelOfZero(d: nat)
    ensures Level(0, d) == Levels(0, d) == 0
    decreases d
  {
    if d > 0 { LevelOfZero(d - 1); }
  }

  lemma {:induction false} TopLevel(m: nat, d: nat)
    requires 1 <= m <= Pow2(d)
    ensures Level(m, d) == 1
    decreases d
  {
    if d > 0 { TopLevel((m + 1) / 2, d - 1); }
  }

  lemma {:induction false} LevelsFromBelow(m: nat, d: nat)
    requires d > 0
    ensures Levels(m, d) == (m + 1) / 2 + Levels((m + 1) / 2, d - 1)
    decreases d
  {
    var c := (m + 1) / 2;
    assert Level(m, d) == Level(c, d - 1);
    if d > 1 {
      LevelsFromBelow(m, d - 1);
      assert Levels(c, d - 1) == Levels(c, d - 2) + Level(c, d - 1);
    } else {
      assert Levels(m, 0) == Levels(c, 0) == 0;
    }
  }

  /** The exact cost. */
  lemma {:induction false} PairCostIsLevels(m: nat, d: nat)
    requires m <= Pow2(d)
    ensures PairCost(m, d) == Levels(m, d)
    decreases d
  {
    hide Level;
    if m == 0 {
      LevelOfZero(d);
    } else if d > 0 {
      var half := Pow2(d - 1);
      TopLevel(m, d);
      if m <= half {
        PairCostIsLevels(m, d - 1);
      } else {
        PairCostIsLevels(half, d - 1);
        PairCostIsLevels(m - half, d - 1);
        LevelsOfFull(d - 1, m - half, d - 1);
        assert PairCost(m, d) == 1 + PairCost(half, d - 1) + PairCost(m - half, d - 1);
      }
    }
  }

  lemma {:induction false} LevelsBound(m: nat, d: nat)
    requires m > 0
    ensures Levels(m, d) <= m - 1 + d
    decreases d
  {
    if d > 0 {
      LevelsFromBelow(m, d);
      LevelsBound((m + 1) / 2, d - 1);
    }
  }

  /** The bound: linear in the chunks present, and only logarithmic in the limit of the list. */
  lemma CostBound(m: nat, d: nat)
    requires 1 <= m <= Pow2(d)
    ensures PairCost(m, d) == Levels(m, d) <= m - 1 + d
  {
    PairCostIsLevels(m, d);
    LevelsBound(m, d);
  }
}
