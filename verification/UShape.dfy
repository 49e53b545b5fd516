/** The U-shaped reordering of ranked prompt items: best items at both ends, worst in the middle. */
module UShape {

  /** Where the item of 0-based rank r goes among n: r / 2 steps from the front (even r) or the back (odd r). */
  function Position(n: nat, r: nat): int {
    if r % 2 == 0 then r / 2 else n - 1 - r / 2
  }

  /** Which rank is found at position p. */
  function RankAt(n: nat, p: nat): int {
    if 2 * p < n then 2 * p else 2 * (n - 1 - p) + 1
  }

  function DistanceToEnd(n: nat, p: int): int {
    if p <= n - 1 - p then p else n - 1 - p
  }

  lemma PositionAndRankAreInverse(n: nat, k: nat)
    requires k < n
    ensures 0 <= Position(n, k) < n && RankAt(n, Position(n, k)) == k
    ensures 0 <= RankAt(n, k) < n && Position(n, RankAt(n, k)) == k
    ensures DistanceToEnd(n, Position(n, k)) == k / 2
  {
  }

  function UShaped<T>(items: seq<T>): (r: seq<T>)
    ensures |r| == |items|
  {
    seq(|items|, p requires 0 <= p < |items| =>
      PositionAndRankAreInverse(|items|, p);
      items[RankAt(|items|, p)])
  }

  method ReorderUShaped<T>(items: seq<T>) returns (r: seq<T>)
    ensures r == UShaped(items)
    ensures Spread(items, r)
  {
    var n := |items|;
    if n <= 2 {
      assert items == UShaped(items);
      RanksSpread(items);
      return items;
    }
    var left: seq<T>, right: seq<T> := [], [];
    for i := 0 to n
      invariant |left| == (i + 1) / 2 && |right| == i / 2
      invariant forall k | 0 <= k < |left| :: left[k] == items[2 * k]
      invariant forall k | 0 <= k < |right| :: right[k] == items[2 * k + 1]
    {
      if i % 2 == 0 {
        left := left + [items[i]];
      } else {
        right := right + [items[i]];
      }
    }
    r := left + seq(|right|, k requires 0 <= k < |right| => right[|right| - 1 - k]);
    assert r == UShaped(items);
    RanksSpread(items);
  }

  /** Even ranks fill the front from the outside in, odd ranks the back. */
  ghost predicate Spread<T>(items: seq<T>, r: seq<T>) {
    |r| == |items| && forall k | 0 <= k < |items| :: items[k] == if k % 2 == 0 then r[k / 2] else r[|items| - 1 - k / 2]
  }

  lemma RanksSpread<T>(items: seq<T>)
    ensures Spread(items, UShaped(items))
  {
    forall k | 0 <= k < |items|
      ensures items[k] == if k % 2 == 0 then UShaped(items)[k / 2] else UShaped(items)[|items| - 1 - k / 2]
    {
      PositionAndRankAreInverse(|items|, k);
    }
  }

  /** The item of rank r sits exactly r / 2 places from its end, so nearness to an end follows rank. */
  lemma RankDecidesDistance<T>(items: seq<T>, r: nat, s: nat)
    requires r <= s < |items|
    ensures 0 <= Position(|items|, r) < |items|
    ensures UShaped(items)[Position(|items|, r)] == items[r]
    ensures DistanceToEnd(|items|, Position(|items|, r)) == r / 2
    ensures DistanceToEnd(|items|, Position(|items|, r)) <= DistanceToEnd(|items|, Position(|items|, s))
  {
    PositionAndRankAreInverse(|items|, r);
    PositionAndRankAreInverse(|items|, s);
  }

  /** Undo the reordering. */
  function Restore<T>(shaped: seq<T>): (r: seq<T>)
    ensures |r| == |shaped|
  {
    seq(|shaped|, r requires 0 <= r < |shaped| =>
      PositionAndRankAreInverse(|shaped|, r);
      shaped[Position(|shaped|, r)])
  }

  lemma RestoreInverts<T>(items: seq<T>)
    ensures Restore(UShaped(items)) == items
    ensures UShaped(Restore(items)) == items
  {
    forall k | 0 <= k < |items|
      ensures Restore(UShaped(items))[k] == items[k]
      ensures UShaped(Restore(items))[k] == items[k]
    {
      PositionAndRankAreInverse(|items|, k);
    }
  }

  /** A new lowest-ranked item goes into the middle and moves nothing past anything. */
  lemma LastItemGoesInside<T>(items: seq<T>, last: T)
    ensures var n := |items|;
            0 <= Position(n + 1, n) <= n
            && UShaped(items + [last]) == UShaped(items)[..Position(n + 1, n)] + [last] + UShaped(items)[Position(n + 1, n)..]
  {
    var n := |items|;
    var k := Position(n + 1, n);
    var merged := UShaped(items)[..k] + [last] + UShaped(items)[k..];
    forall p | 0 <= p < n + 1 ensures UShaped(items + [last])[p] == merged[p] {
      PositionAndRankAreInverse(n + 1, p);
      if p < k {
        PositionAndRankAreInverse(n, p);
        assert RankAt(n + 1, p) == RankAt(n, p);
      } else if p > k {
        PositionAndRankAreInverse(n, p - 1);
        assert RankAt(n + 1, p) == RankAt(n, p - 1);
      }
    }
  }

  lemma {:induction false} UShapedIsPermutation<T>(items: seq<T>)
    ensures multiset(UShaped(items)) == multiset(items)
    decreases |items|
  {
    if items != [] {
      var front, last := items[..|items| - 1], items[|items| - 1];
      var k := Position(|items|, |items| - 1);
      UShapedIsPermutation(front);
      LastItemGoesInside(front, last);
      assert items == front + [last];
      assert UShaped(front) == UShaped(front)[..k] + UShaped(front)[k..];
    }
  }
}
