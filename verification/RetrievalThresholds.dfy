/** Threshold candidates derived from observed scores. */
module RetrievalThresholds {
  import opened Wrappers
  import opened RetrievalGate
  import Ordering

  predicate IntLe(x: int, y: int) {
    x <= y
  }

  /** `sorted(set(values))` */
  function SortedValues(values: seq<Double>): seq<Double> {
    Ordering.SortedSet(IntLe, values)
  }

  ghost predicate Increasing(s: seq<Double>) {
    forall i, j :: 0 <= i < j < |s| ==> s[i] < s[j]
  }

  lemma SortedValuesProperties(values: seq<Double>)
    ensures Increasing(SortedValues(values))
    ensures forall x :: x in SortedValues(values) <==> x in values
    ensures SortedValues(values) == [] <==> values == []
  {
    Ordering.SortedSetProperties(IntLe, values);
    var s := SortedValues(values);
    forall i, j | 0 <= i < j < |s| ensures s[i] < s[j] {
      assert IntLe(s[i], s[j]) && s[i] != s[j];
    }
    if values != [] {
      assert values[0] in s;
    }
  }

  predicate Between(a: Arithmetic, left: Double, right: Double, c: Double) {
    var middle := a.midpoint(left, right);
    && (left < middle < right ==> c == middle)
    && (middle <= left || right <= middle ==> c == right)
  }

  /** The threshold placed between two neighbouring values: their midpoint, unless rounding lost it. */
  function Boundary(a: Arithmetic, left: Double, right: Double): (b: Double)
    ensures left < right ==> left < b <= right
  {
    var midpoint := a.midpoint(left, right);
    if left < midpoint < right then midpoint else right
  }

  function BoundaryAt(a: Arithmetic, unique: seq<Double>, i: nat): Double
    requires unique != [] && i <= |unique|
  {
    if i == 0 then unique[0]
    else if i == |unique| then NextAfter(unique[i - 1])
    else Boundary(a, unique[i - 1], unique[i])
  }

  function Boundaries(a: Arithmetic, unique: seq<Double>): seq<Double>
    requires unique != []
  {
    seq(|unique| + 1, i requires 0 <= i <= |unique| => BoundaryAt(a, unique, i))
  }

  datatype CandidateError = NonFiniteValue | NonFiniteCandidate

  /** When candidates exist, and what they are. */
  function Candidates(a: Arithmetic, values: seq<Double>): Result<seq<Double>, CandidateError> {
    var unique := SortedValues(values);
    if exists v | v in values :: !Finite(v) then Err(NonFiniteValue)
    else if unique == [] then Ok([])
    else if unique[|unique| - 1] == LARGEST then Err(NonFiniteCandidate)
    else Ok(Boundaries(a, unique))
  }

  method CandidateThresholds(a: Arithmetic, values: seq<Double>) returns (r: Result<seq<Double>, CandidateError>)
    ensures r == Candidates(a, values)
  {
    if exists v | v in values :: !Finite(v) {
      return Err(NonFiniteValue);
    }
    var unique := SortedValues(values);
    if unique == [] {
      return Ok([]);
    }
    SortedValuesProperties(values);
    var boundaries := CollectBoundaries(a, unique);
    OnlyLastCandidateCanOverflow(a, values);
    if exists c | c in boundaries :: !Finite(c) {
      return Err(NonFiniteCandidate);
    }
    return Ok(boundaries);
  }

  /** The loop over neighbours. Its two tests against the last boundary never suppress one. */
  method CollectBoundaries(a: Arithmetic, unique: seq<Double>) returns (boundaries: seq<Double>)
    requires unique != [] && Increasing(unique)
    ensures boundaries == Boundaries(a, unique)
  {
    boundaries := [unique[0]];
    for i := 0 to |unique| - 1
      invariant |boundaries| == i + 1
      invariant forall j | 0 <= j <= i :: boundaries[j] == BoundaryAt(a, unique, j)
    {
      var left, right := unique[i], unique[i + 1];
      var midpoint := a.midpoint(left, right);
      var boundary := if left < midpoint < right then midpoint else right;
      BoundaryInterleaves(a, unique, i);
      BoundaryInterleaves(a, unique, i + 1);
      if boundary != boundaries[|boundaries| - 1] {
        boundaries := boundaries + [boundary];
      }
    }
    var upper := NextAfter(unique[|unique| - 1]);
    BoundaryInterleaves(a, unique, |unique| - 1);
    if upper != boundaries[|boundaries| - 1] {
      boundaries := boundaries + [upper];
    }
  }

  lemma OnlyLastCandidateCanOverflow(a: Arithmetic, values: seq<Double>)
    requires values != [] && forall v | v in values :: Finite(v)
    ensures SortedValues(values) != []
    ensures var unique := SortedValues(values);
            (exists c | c in Boundaries(a, unique) :: !Finite(c)) <==> unique[|unique| - 1] == LARGEST
  {
    SortedValuesProperties(values);
    var unique := SortedValues(values);
    if unique[|unique| - 1] == LARGEST {
      BoundaryOverflows(a, unique);
    } else {
      BoundariesFinite(a, unique);
    }
  }

  lemma BoundaryOverflows(a: Arithmetic, unique: seq<Double>)
    requires unique != [] && unique[|unique| - 1] == LARGEST
    ensures exists c | c in Boundaries(a, unique) :: !Finite(c)
  {
    var c := Boundaries(a, unique)[|unique|];
    assert c == BoundaryAt(a, unique, |unique|);
    assert c in Boundaries(a, unique);
  }

  lemma BoundaryInterleaves(a: Arithmetic, unique: seq<Double>, i: nat)
    requires unique != [] && Increasing(unique) && i <= |unique|
    ensures i < |unique| ==> BoundaryAt(a, unique, i) <= unique[i]
    ensures i > 0 ==> unique[i - 1] < BoundaryAt(a, unique, i)
  {
  }

  /** One candidate below every value, one between each two neighbours, one above all of them. */
  lemma BoundariesInterleave(a: Arithmetic, unique: seq<Double>)
    requires unique != [] && Increasing(unique)
    ensures var c := Boundaries(a, unique);
            && |c| == |unique| + 1
            && c[0] == unique[0]
            && c[|unique|] == NextAfter(unique[|unique| - 1])
            && forall i {:trigger unique[i]} | 0 <= i < |unique| :: c[i] <= unique[i] < c[i + 1]
  {
    var c := Boundaries(a, unique);
    forall i | 0 <= i < |unique| ensures c[i] <= unique[i] < c[i + 1] {
      BoundaryInterleaves(a, unique, i);
      BoundaryInterleaves(a, unique, i + 1);
    }
  }

  /** The one between two neighbours is their midpoint, unless rounding put that on or beyond either of them. */
  lemma BoundariesAreMidpoints(a: Arithmetic, unique: seq<Double>, i: nat)
    requires 0 < i < |unique|
    ensures Between(a, unique[i - 1], unique[i], Boundaries(a, unique)[i])
  {
  }

  lemma BoundariesIncrease(a: Arithmetic, unique: seq<Double>)
    requires unique != [] && Increasing(unique)
    ensures Increasing(Boundaries(a, unique))
  {
    BoundariesInterleave(a, unique);
    var c := Boundaries(a, unique);
    forall i, j | 0 <= i < j < |c| ensures c[i] < c[j] {
      assert c[i] <= unique[i] <= unique[j - 1] < c[j];
    }
  }

  /** Every threshold splits the observed values as one of the candidates does. */
  lemma CandidateForThreshold(a: Arithmetic, unique: seq<Double>, t: Double) returns (k: nat)
    requires unique != [] && Increasing(unique)
    ensures k < |Boundaries(a, unique)|
    ensures forall i | 0 <= i < |unique| :: unique[i] < t <==> unique[i] < Boundaries(a, unique)[k]
  {
    k := CountBelow(unique, t);
    BoundaryInterleaves(a, unique, k);
    BoundarySplits(unique, k, BoundaryAt(a, unique, k));
  }

  /** A value between the k-th and its predecessor splits the values there. */
  lemma BoundarySplits(unique: seq<Double>, k: nat, c: Double)
    requires Increasing(unique) && k <= |unique|
    requires k < |unique| ==> c <= unique[k]
    requires k > 0 ==> unique[k - 1] < c
    ensures forall i | 0 <= i < |unique| :: unique[i] < c <==> i < k
  {
    forall i | 0 <= i < |unique| ensures unique[i] < c <==> i < k {
      if i < k {
        assert unique[i] <= unique[k - 1] < c;
      } else {
        assert c <= unique[k] <= unique[i];
      }
    }
  }

  lemma CountBelow(unique: seq<Double>, t: Double) returns (k: nat)
    requires Increasing(unique)
    ensures k <= |unique|
    ensures forall i | 0 <= i < |unique| :: unique[i] < t <==> i < k
  {
    k := 0;
    while k < |unique| && unique[k] < t
      invariant k <= |unique|
      invariant forall i | 0 <= i < k :: unique[i] < t
    {
      k := k + 1;
    }
  }

  function Accepted(values: seq<Double>, t: Double): set<Double> {
    set v | v in values && v >= t
  }

  /** No candidate is redundant: a higher one accepts strictly fewer of the observed values. */
  lemma CandidatesSeparate(a: Arithmetic, values: seq<Double>, i: nat, j: nat)
    requires Candidates(a, values).Ok?
    requires i < j < |Candidates(a, values).value|
    ensures Accepted(values, Candidates(a, values).value[j]) < Accepted(values, Candidates(a, values).value[i])
  {
    var unique := SortedValues(values);
    SortedValuesProperties(values);
    BoundariesSeparate(a, unique, i, j);
    assert unique[i] in values;
    ThresholdsSeparate(values, Boundaries(a, unique)[i], unique[i], Boundaries(a, unique)[j]);
  }

  lemma BoundariesSeparate(a: Arithmetic, unique: seq<Double>, i: nat, j: nat)
    requires unique != [] && Increasing(unique) && i < j <= |unique|
    ensures Boundaries(a, unique)[i] <= unique[i] < Boundaries(a, unique)[j]
  {
    BoundariesInterleave(a, unique);
    assert unique[i] <= unique[j - 1];
  }

  lemma ThresholdsSeparate(values: seq<Double>, low: Double, dropped: Double, high: Double)
    requires low <= dropped < high && dropped in values
    ensures Accepted(values, high) < Accepted(values, low)
  {
    assert dropped in Accepted(values, low) && dropped !in Accepted(values, high);
  }

  lemma {:induction false} DistinctCount(s: seq<Double>)
    requires Increasing(s)
    ensures |set v | v in s| == |s|
  {
    if s != [] {
      var front := s[..|s| - 1];
      DistinctCount(front);
      assert (set v | v in s) == (set v | v in front) + {s[|s| - 1]};
      assert s[|s| - 1] !in front;
    }
  }

  /** On finite values: no candidate exactly when there is no value, an error exactly when the largest has no finite successor. */
  lemma CandidatesExistWhen(a: Arithmetic, values: seq<Double>)
    requires forall v | v in values :: Finite(v)
    ensures Candidates(a, values) == Ok([]) <==> values == []
    ensures Candidates(a, values).Err? <==> LARGEST in values
  {
    var unique := SortedValues(values);
    SortedValuesProperties(values);
    if values != [] {
      LargestIsLast(unique, LARGEST);
      assert |Boundaries(a, unique)| > 0;
    }
  }

  /** Otherwise one more candidate than distinct values, all finite and strictly increasing. */
  lemma CandidateCount(a: Arithmetic, values: seq<Double>)
    requires forall v | v in values :: Finite(v)
    requires values != [] && LARGEST !in values
    ensures Candidates(a, values).Ok?
    ensures var c := Candidates(a, values).value;
            && |c| == |set v | v in values| + 1
            && Increasing(c)
            && forall i | 0 <= i < |c| :: Finite(c[i])
  {
    CandidatesExistWhen(a, values);
    var unique := SortedValues(values);
    SortedValuesProperties(values);
    assert unique[|unique| - 1] in values;
    BoundariesIncrease(a, unique);
    BoundariesFinite(a, unique);
    assert |Boundaries(a, unique)| == |unique| + 1 by {
      BoundariesInterleave(a, unique);
    }
    SortedValuesCount(values);
  }

  lemma SortedValuesCount(values: seq<Double>)
    ensures |SortedValues(values)| == |set v | v in values|
  {
    SortedValuesProperties(values);
    DistinctCount(SortedValues(values));
    Ordering.SortedSetProperties(IntLe, values);
    SameMembers(values, SortedValues(values));
  }

  lemma SameMembers<T(!new)>(s: seq<T>, t: seq<T>)
    requires forall v :: v in s <==> v in t
    ensures (set v | v in s) == (set v | v in t)
  {
  }

  lemma BoundariesFinite(a: Arithmetic, unique: seq<Double>)
    requires unique != [] && Increasing(unique) && forall v | v in unique :: Finite(v)
    requires unique[|unique| - 1] != LARGEST
    ensures forall i | 0 <= i < |Boundaries(a, unique)| :: Finite(Boundaries(a, unique)[i])
  {
    BoundariesInterleave(a, unique);
    var c := Boundaries(a, unique);
    BoundariesIncrease(a, unique);
    forall i | 0 <= i < |c| ensures Finite(c[i]) {
      assert unique[0] in unique && unique[|unique| - 1] in unique;
      assert c[0] <= c[i] <= c[|unique|];
    }
  }

  lemma LargestIsLast(s: seq<Double>, bound: Double)
    requires s != [] && Increasing(s) && forall v | v in s :: v <= bound
    ensures bound in s <==> s[|s| - 1] == bound
  {
    var last := s[|s| - 1];
    assert last in s;
    if bound in s {
      var i :| 0 <= i < |s| && s[i] == bound;
      assert last <= bound;
    }
  }
}
