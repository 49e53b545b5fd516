/** Selecting from a sequence, and what selection forgets about order. */
module Filtering {
  import opened Wrappers

  function Filter<T>(p: T -> bool, s: seq<T>): seq<T> {
    if s == [] then []
    else
      var last := s[|s| - 1];
      Filter(p, s[..|s| - 1]) + if p(last) then [last] else []
  }

  function Count<T>(p: T -> bool, s: seq<T>): nat {
    |Filter(p, s)|
  }

  /** The values f is defined on, in order. */
  function Collect<T, U>(f: T -> Option<U>, s: seq<T>): seq<U> {
    if s == [] then []
    else
      var last := f(s[|s| - 1]);
      Collect(f, s[..|s| - 1]) + if last.Some? then [last.value] else []
  }

  function Map<T, U>(f: T -> U, s: seq<T>): seq<U> {
    seq(|s|, i requires 0 <= i < |s| => f(s[i]))
  }

  function Always<T, U>(f: T -> U): T -> Option<U> {
    x => Some(f(x))
  }

  function Yields<T, U(==)>(f: T -> Option<U>, u: U): T -> bool {
    x => f(x) == Some(u)
  }

  lemma FilterNext<T>(p: T -> bool, s: seq<T>, i: nat)
    requires i < |s|
    ensures Filter(p, s[..i + 1]) == Filter(p, s[..i]) + if p(s[i]) then [s[i]] else []
  {
    assert s[..i + 1][..i] == s[..i];
  }

  lemma {:induction false} FilterMembers<T>(p: T -> bool, s: seq<T>, x: T)
    ensures multiset(Filter(p, s))[x] == if p(x) then multiset(s)[x] else 0
    ensures x in Filter(p, s) <==> x in s && p(x)
  {
    if s != [] {
      var front, last := s[..|s| - 1], s[|s| - 1];
      FilterMembers(p, front, x);
      assert s == front + [last];
    }
  }

  lemma {:induction false} FilterHolds<T>(p: T -> bool, s: seq<T>)
    ensures forall i | 0 <= i < |Filter(p, s)| :: p(Filter(p, s)[i]) && Filter(p, s)[i] in s
  {
    if s != [] {
      FilterHolds(p, s[..|s| - 1]);
      assert s[|s| - 1] in s;
    }
  }

  lemma FilterPermuted<T(!new)>(p: T -> bool, a: seq<T>, b: seq<T>)
    requires multiset(a) == multiset(b)
    ensures multiset(Filter(p, a)) == multiset(Filter(p, b))
    ensures Count(p, a) == Count(p, b)
  {
    forall x ensures multiset(Filter(p, a))[x] == multiset(Filter(p, b))[x] {
      FilterMembers(p, a, x);
      FilterMembers(p, b, x);
    }
    assert |multiset(Filter(p, a))| == |Filter(p, a)| && |multiset(Filter(p, b))| == |Filter(p, b)|;
  }

  lemma {:induction false} CollectCounts<T, U>(f: T -> Option<U>, s: seq<T>, u: U)
    ensures multiset(Collect(f, s))[u] == Count(Yields(f, u), s)
  {
    if s != [] {
      CollectCounts(f, s[..|s| - 1], u);
    }
  }

  lemma CollectPermuted<T(!new), U(!new)>(f: T -> Option<U>, a: seq<T>, b: seq<T>)
    requires multiset(a) == multiset(b)
    ensures multiset(Collect(f, a)) == multiset(Collect(f, b))
  {
    forall u ensures multiset(Collect(f, a))[u] == multiset(Collect(f, b))[u] {
      CollectCounts(f, a, u);
      CollectCounts(f, b, u);
      FilterPermuted(Yields(f, u), a, b);
    }
  }

  lemma {:induction false} CollectMembers<T, U>(f: T -> Option<U>, s: seq<T>, u: U)
    ensures u in Collect(f, s) <==> exists x | x in s :: f(x) == Some(u)
  {
    if s != [] {
      var front, last := s[..|s| - 1], s[|s| - 1];
      CollectMembers(f, front, u);
      assert s == front + [last];
      assert last in s;
    }
  }

  /** Two disjoint selections count together as their union. */
  lemma {:induction false} CountUnion<T>(p: T -> bool, q: T -> bool, either: T -> bool, s: seq<T>)
    requires forall x | x in s :: (either(x) <==> p(x) || q(x)) && !(p(x) && q(x))
    ensures Count(p, s) + Count(q, s) == Count(either, s)
  {
    if s != [] {
      CountUnion(p, q, either, s[..|s| - 1]);
    }
  }

  lemma {:induction false} CountAll<T>(p: T -> bool, s: seq<T>)
    requires forall x | x in s :: p(x)
    ensures Filter(p, s) == s
  {
    if s != [] {
      var front, last := s[..|s| - 1], s[|s| - 1];
      CountAll(p, front);
      assert last in s && s == front + [last];
    }
  }

  lemma {:induction false} CountMonotone<T>(p: T -> bool, q: T -> bool, s: seq<T>)
    requires forall x | x in s :: p(x) ==> q(x)
    ensures Count(p, s) <= Count(q, s)
  {
    if s != [] {
      CountMonotone(p, q, s[..|s| - 1]);
    }
  }

  lemma {:induction false} CountNested<T>(p: T -> bool, q: T -> bool, both: T -> bool, s: seq<T>)
    requires forall x | x in s :: both(x) <==> p(x) && q(x)
    ensures Filter(q, Filter(p, s)) == Filter(both, s)
  {
    if s != [] {
      var front, last := s[..|s| - 1], s[|s| - 1];
      CountNested(p, q, both, front);
      if p(last) {
        assert (Filter(p, front) + [last])[..|Filter(p, front)|] == Filter(p, front);
      } else {
        assert Filter(p, front) + [] == Filter(p, front);
      }
    }
  }

  lemma SubsetSize<T>(small: set<T>, large: set<T>)
    requires small <= large
    ensures |small| <= |large|
  {
    assert large == small + (large - small);
    assert |large| == |small| + |large - small|;
  }

  lemma MapNext<T, U>(f: T -> U, s: seq<T>, i: nat)
    requires i < |s|
    ensures Map(f, s[..i + 1]) == Map(f, s[..i]) + [f(s[i])]
  {
  }

  lemma {:induction false} MapIsCollect<T, U>(f: T -> U, s: seq<T>)
    ensures Map(f, s) == Collect(Always(f), s)
  {
    if s != [] {
      MapIsCollect(f, s[..|s| - 1]);
      MapNext(f, s, |s| - 1);
      assert s[..|s|] == s;
    }
  }

  lemma MapPermuted<T(!new), U(!new)>(f: T -> U, a: seq<T>, b: seq<T>)
    requires multiset(a) == multiset(b)
    ensures multiset(Map(f, a)) == multiset(Map(f, b))
  {
    MapIsCollect(f, a);
    MapIsCollect(f, b);
    CollectPermuted(Always(f), a, b);
  }

  ghost function Positions<T>(p: T -> bool, s: seq<T>): set<int> {
    set i | 0 <= i < |s| && p(s[i])
  }

  /** A selection's size is the number of positions it selects. */
  lemma {:induction false} CountPositions<T>(p: T -> bool, s: seq<T>)
    ensures Count(p, s) == |Positions(p, s)|
  {
    if s != [] {
      var front, last := s[..|s| - 1], |s| - 1;
      CountPositions(p, front);
      var before, after := Positions(p, front), Positions(p, s);
      assert after == before + if p(s[last]) then {last} else {};
      assert last !in before;
    }
  }

  ghost predicate OnlyAt<T>(p: T -> bool, s: seq<T>, i: nat) {
    i < |s| && p(s[i]) && forall j: nat | j < |s| && p(s[j]) :: j == i
  }

  /** A selection is one element long exactly when one position is selected, and then it is what stands there. */
  lemma FilterOnly<T>(p: T -> bool, s: seq<T>)
    ensures |Filter(p, s)| == 1 <==> exists i: nat :: OnlyAt(p, s, i)
    ensures forall i: nat | OnlyAt(p, s, i) :: Filter(p, s) == [s[i]]
  {
    CountPositions(p, s);
    FilterHolds(p, s);
    forall i: nat | OnlyAt(p, s, i) ensures Filter(p, s) == [s[i]] {
      assert Positions(p, s) == {i};
    }
    if |Positions(p, s)| == 1 {
      var i :| i in Positions(p, s);
      assert |Positions(p, s) - {i}| == 0;
      forall j: nat | j < |s| && p(s[j]) ensures j == i {
        assert j in Positions(p, s) && j !in Positions(p, s) - {i};
      }
      assert OnlyAt(p, s, i);
    }
  }

  /** A selection has two elements or more exactly when two positions are selected. */
  lemma FilterSeveral<T>(p: T -> bool, s: seq<T>)
    ensures |Filter(p, s)| > 1 <==> exists i: nat, j: nat :: BothAt(p, s, i, j)
  {
    CountPositions(p, s);
    if i: nat, j: nat :| BothAt(p, s, i, j) {
      assert {i, j} <= Positions(p, s);
      SubsetSize({i, j}, Positions(p, s));
    }
    if |Positions(p, s)| > 1 {
      var i :| i in Positions(p, s);
      assert |Positions(p, s) - {i}| > 0;
      var j :| j in Positions(p, s) - {i};
      assert BothAt(p, s, i, j);
    }
  }

  predicate BothAt<T>(p: T -> bool, s: seq<T>, i: nat, j: nat) {
    i < |s| && j < |s| && i != j && p(s[i]) && p(s[j])
  }

  ghost predicate LastAt<T, U>(f: T -> Option<U>, s: seq<T>, i: nat) {
    i < |s| && f(s[i]).Some? && forall j: nat | i < j < |s| :: f(s[j]).None?
  }

  lemma {:induction false} CollectNone<T, U>(f: T -> Option<U>, s: seq<T>)
    ensures Collect(f, s) == [] <==> forall i: nat | i < |s| :: f(s[i]).None?
  {
    if s != [] {
      var front, last := s[..|s| - 1], |s| - 1;
      CollectNone(f, front);
      assert forall i: nat | i < last :: front[i] == s[i];
    }
  }

  /** The last value collected comes from the last position that yields one. */
  lemma {:induction false} CollectLast<T, U>(f: T -> Option<U>, s: seq<T>, i: nat)
    requires LastAt(f, s, i)
    ensures Collect(f, s) != [] && Collect(f, s)[|Collect(f, s)| - 1] == f(s[i]).value
  {
    var front, last := s[..|s| - 1], |s| - 1;
    if i < last {
      assert f(s[last]).None?;
      assert Collect(f, s) == Collect(f, front);
      assert LastAt(f, front, i);
      CollectLast(f, front, i);
    }
  }

  /** The positions selected, in order. */
  ghost predicate Selects<T>(at: seq<int>, p: T -> bool, s: seq<T>) {
    && (forall k, l | 0 <= k < l < |at| :: at[k] < at[l])
    && forall i :: i in at <==> 0 <= i < |s| && p(s[i])
  }

  lemma {:induction false} FilterSelects<T>(p: T -> bool, s: seq<T>) returns (at: seq<int>)
    ensures Selects(at, p, s)
    ensures |at| == |Filter(p, s)| && forall k | 0 <= k < |at| :: 0 <= at[k] < |s| && Filter(p, s)[k] == s[at[k]]
  {
    at := [];
    if s != [] {
      var last := |s| - 1;
      var front := FilterSelects(p, s[..last]);
      at := front + if p(s[last]) then [last] else [];
      SelectsNext(front, at, p, s);
      FilterAt(front, at, p, s);
    }
  }

  lemma SelectsNext<T>(front: seq<int>, at: seq<int>, p: T -> bool, s: seq<T>)
    requires s != [] && Selects(front, p, s[..|s| - 1])
    requires at == front + if p(s[|s| - 1]) then [|s| - 1] else []
    ensures Selects(at, p, s)
  {
    var last := |s| - 1;
    forall k | 0 <= k < |front| ensures 0 <= front[k] < last {
      assert front[k] in front;
    }
    forall i ensures i in at <==> 0 <= i < |s| && p(s[i]) {
      assert i in at <==> i in front || (p(s[last]) && i == last);
    }
  }

  lemma FilterAt<T>(front: seq<int>, at: seq<int>, p: T -> bool, s: seq<T>)
    requires s != []
    requires at == front + if p(s[|s| - 1]) then [|s| - 1] else []
    requires |front| == |Filter(p, s[..|s| - 1])|
    requires forall k | 0 <= k < |front| :: 0 <= front[k] < |s| - 1 && Filter(p, s[..|s| - 1])[k] == s[front[k]]
    ensures |at| == |Filter(p, s)| && forall k | 0 <= k < |at| :: 0 <= at[k] < |s| && Filter(p, s)[k] == s[at[k]]
  {
  }

  function Then<T, U>(f: T -> Option<U>, p: U -> bool): T -> bool {
    x => f(x).Some? && p(f(x).value)
  }

  function Defined<T, U>(f: T -> Option<U>): T -> bool {
    x => f(x).Some?
  }

  lemma {:induction false} CollectSize<T, U>(f: T -> Option<U>, s: seq<T>)
    ensures |Collect(f, s)| == Count(Defined(f), s)
  {
    if s != [] {
      CollectSize(f, s[..|s| - 1]);
    }
  }

  lemma CountCollected<T, U>(f: T -> Option<U>, p: U -> bool, s: seq<T>)
    ensures Count(p, Collect(f, s)) == |Positions(Then(f, p), s)|
  {
    CountPositions(Then(f, p), s);
    CountThen(f, p, s);
  }

  lemma {:induction false} CountThen<T, U>(f: T -> Option<U>, p: U -> bool, s: seq<T>)
    ensures Count(p, Collect(f, s)) == Count(Then(f, p), s)
  {
    if s != [] {
      var front, last := s[..|s| - 1], f(s[|s| - 1]);
      CountThen(f, p, front);
      if last.Some? {
        assert Collect(f, s) == Collect(f, front) + [last.value];
        assert Collect(f, s)[..|Collect(f, front)|] == Collect(f, front);
      } else {
        assert Collect(f, s) == Collect(f, front);
      }
    }
  }
}
