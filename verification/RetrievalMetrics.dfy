/** Rank metrics of the retrieval evaluator, as exact rationals before `round(..., 4)`. */
module RetrievalMetrics {
  import opened Wrappers
  import opened RetrievalGate
  import opened Filtering

  datatype Level = Document | Section

  // ---- one case ----

  /** `zip` of the two parallel columns; on a well-formed case neither column is cut short. */
  function RankedPairs(c: CaseResult): seq<(string, Option<string>)> {
    var n := if |c.returnedDocumentIds| <= |c.returnedSections| then |c.returnedDocumentIds| else |c.returnedSections|;
    seq(n, i requires 0 <= i < n => (c.returnedDocumentIds[i], c.returnedSections[i]))
  }

  function ExpectedLabels(level: Level, c: CaseResult): seq<string> {
    if level == Section then c.expectedSections else c.expectedDocumentIds
  }

  /** The result at 0-based position i counts as relevant. */
  predicate RelevantAt(level: Level, c: CaseResult, i: nat) {
    && i < |RankedPairs(c)|
    && RankedPairs(c)[i].0 in c.expectedDocumentIds
    && (level == Section ==> RankedPairs(c)[i].1.Some? && RankedPairs(c)[i].1.value in c.expectedSections)
  }

  function RankFrom(level: Level, c: CaseResult, i: nat): Option<nat>
    decreases |RankedPairs(c)| - i
  {
    if i >= |RankedPairs(c)| then None
    else if RelevantAt(level, c, i) then Some(i + 1)
    else RankFrom(level, c, i + 1)
  }

  function RankOfFirstRelevant(level: Level, c: CaseResult): Option<nat> {
    RankFrom(level, c, 0)
  }

  lemma {:induction false} RankFromIsFirst(level: Level, c: CaseResult, i: nat)
    ensures RankFrom(level, c, i).None? <==> forall j: nat :: i <= j ==> !RelevantAt(level, c, j)
    ensures RankFrom(level, c, i).Some? ==>
              var r := RankFrom(level, c, i).value;
              && r > i && RelevantAt(level, c, r - 1)
              && forall j: nat :: i <= j < r - 1 ==> !RelevantAt(level, c, j)
    decreases |RankedPairs(c)| - i
  {
    if i < |RankedPairs(c)| && !RelevantAt(level, c, i) {
      RankFromIsFirst(level, c, i + 1);
    }
  }

  /** The rank is at most k exactly when one of the first k results is relevant. */
  lemma RankWithinIff(level: Level, c: CaseResult, k: nat)
    ensures (exists i: nat :: i < k && RelevantAt(level, c, i))
            <==> RankOfFirstRelevant(level, c).Some? && RankOfFirstRelevant(level, c).value <= k
  {
    RankFromIsFirst(level, c, 0);
    var rank := RankOfFirstRelevant(level, c);
    if rank.Some? && rank.value <= k {
      assert rank.value - 1 < k && RelevantAt(level, c, rank.value - 1);
    }
  }

  /** A section-level match is also a document-level match, so it can only come later. */
  lemma SectionRankNeverBetter(c: CaseResult)
    ensures RankOfFirstRelevant(Section, c).Some? ==>
              && RankOfFirstRelevant(Document, c).Some?
              && RankOfFirstRelevant(Document, c).value <= RankOfFirstRelevant(Section, c).value
  {
    var rank := RankOfFirstRelevant(Section, c);
    if rank.Some? {
      RankFromIsFirst(Section, c, 0);
      assert RelevantAt(Document, c, rank.value - 1);
      RankWithinIff(Document, c, rank.value);
    }
  }

  function LabelAt(level: Level, c: CaseResult, i: nat): string
    requires RelevantAt(level, c, i)
  {
    if level == Section then RankedPairs(c)[i].1.value else RankedPairs(c)[i].0
  }

  function FoundLabels(level: Level, c: CaseResult, k: nat): set<string> {
    set i | 0 <= i < |RankedPairs(c)| && i < k && RelevantAt(level, c, i) :: LabelAt(level, c, i)
  }

  method FindLabels(level: Level, c: CaseResult, k: nat) returns (found: set<string>)
    ensures found == FoundLabels(level, c, k)
  {
    found := {};
    var pairs := RankedPairs(c);
    var top := if k <= |pairs| then pairs[..k] else pairs;
    for i := 0 to |top|
      invariant found == FoundLabels(level, c, i)
    {
      var (document, section) := top[i];
      FoundLabelsStep(level, c, i);
      if document !in c.expectedDocumentIds {
        continue;
      }
      if level == Document {
        found := found + {document};
      } else if section.Some? && section.value in c.expectedSections {
        found := found + {section.value};
      }
    }
    assert found == FoundLabels(level, c, k);
  }

  lemma FoundLabelsStep(level: Level, c: CaseResult, k: nat)
    requires k < |RankedPairs(c)|
    ensures FoundLabels(level, c, k + 1)
            == FoundLabels(level, c, k) + if RelevantAt(level, c, k) then {LabelAt(level, c, k)} else {}
  {
    var more := FoundLabels(level, c, k) + if RelevantAt(level, c, k) then {LabelAt(level, c, k)} else {};
    forall x | x in FoundLabels(level, c, k + 1) ensures x in more {
      var i :| 0 <= i < |RankedPairs(c)| && i < k + 1 && RelevantAt(level, c, i) && x == LabelAt(level, c, i);
    }
  }

  lemma FoundLabelsAreExpected(level: Level, c: CaseResult, k: nat)
    ensures forall x | x in FoundLabels(level, c, k) :: x in ExpectedLabels(level, c)
    ensures |FoundLabels(level, c, k)| <= |ExpectedLabels(level, c)|
    ensures FoundLabels(level, c, k) != {} <==> exists i: nat :: i < k && RelevantAt(level, c, i)
  {
    var labels := ExpectedLabels(level, c);
    MembersAtMostLength(FoundLabels(level, c, k), labels);
    if i: nat :| i < k && RelevantAt(level, c, i) {
      assert LabelAt(level, c, i) in FoundLabels(level, c, k);
    }
  }

  lemma {:induction false} MembersAtMostLength<T>(members: set<T>, s: seq<T>)
    requires forall x | x in members :: x in s
    ensures |members| <= |s|
  {
    if s != [] {
      var rest := members - {s[0]};
      MembersAtMostLength(rest, s[1..]);
      assert members <= rest + {s[0]};
      assert |rest + {s[0]}| <= |rest| + 1;
      SubsetSize(members, rest + {s[0]});
    } else {
      assert members == {};
    }
  }

  // ---- a metric is the mean, over the scored cases, of a score per case ----

  datatype Metric = HitAt(k: nat) | ReciprocalRank | RecallAt(k: nat)

  predicate Scored(level: Level, c: CaseResult) {
    c.expectedDocumentIds != [] && (level == Section ==> c.expectedSections != [])
  }

  predicate AllScored(level: Level, cases: seq<CaseResult>) {
    forall i | 0 <= i < |cases| :: Scored(level, cases[i])
  }

  function Score(m: Metric, level: Level, c: CaseResult): real
    requires Scored(level, c)
  {
    match m
    case HitAt(k) =>
      var rank := RankOfFirstRelevant(level, c);
      if rank.Some? && rank.value <= k then 1.0 else 0.0
    case ReciprocalRank =>
      var rank := RankOfFirstRelevant(level, c);
      if rank.None? then 0.0
      else
        RankFromIsFirst(level, c, 0);
        1.0 / rank.value as real
    case RecallAt(k) =>
      |FoundLabels(level, c, k)| as real / |ExpectedLabels(level, c)| as real
  }

  function ScoredAt(level: Level): CaseResult -> bool {
    (c: CaseResult) => Scored(level, c)
  }

  function ScoredCases(level: Level, results: seq<CaseResult>): (r: seq<CaseResult>)
    ensures AllScored(level, r)
  {
    FilterHolds(ScoredAt(level), results);
    Filter(ScoredAt(level), results)
  }

  function Total(m: Metric, level: Level, cases: seq<CaseResult>): real
    requires AllScored(level, cases)
  {
    if cases == [] then 0.0
    else
      var last := |cases| - 1;
      Total(m, level, cases[..last]) + Score(m, level, cases[last])
  }

  /** What the last case adds to the scored population and to its total. */
  lemma ScoredNext(m: Metric, level: Level, results: seq<CaseResult>)
    requires results != []
    ensures var front, last := results[..|results| - 1], results[|results| - 1];
            && |ScoredCases(level, results)| == |ScoredCases(level, front)| + (if Scored(level, last) then 1 else 0)
            && Total(m, level, ScoredCases(level, results))
               == Total(m, level, ScoredCases(level, front)) + if Scored(level, last) then Score(m, level, last) else 0.0
  {
    var front, last := results[..|results| - 1], results[|results| - 1];
    if Scored(level, last) {
      var scored := ScoredCases(level, results);
      assert scored == ScoredCases(level, front) + [last];
      assert scored[..|scored| - 1] == ScoredCases(level, front);
    } else {
      assert ScoredCases(level, results) == ScoredCases(level, front);
    }
  }

  /** `hit_at_k`, `mean_reciprocal_rank` and `recall_at_k`; an empty population scores 0. */
  function Mean(m: Metric, level: Level, results: seq<CaseResult>): real {
    var scored := ScoredCases(level, results);
    Average(Total(m, level, scored), |scored|)
  }

  function Average(total: real, count: nat): real {
    if count == 0 then 0.0 else total / count as real
  }

  lemma RealDivisionMonotone(x: real, y: real, n: real)
    requires n > 0.0 && x <= y
    ensures x / n <= y / n
  {
  }

  /** Means over populations of one size compare as their totals do. */
  lemma MeanMonotone(m: Metric, results: seq<CaseResult>, m': Metric, results': seq<CaseResult>, level: Level)
    requires |ScoredCases(level, results)| == |ScoredCases(level, results')|
    requires Total(m, level, ScoredCases(level, results)) <= Total(m', level, ScoredCases(level, results'))
    ensures Mean(m, level, results) <= Mean(m', level, results')
  {
    var n := |ScoredCases(level, results)| as real;
    if n > 0.0 {
      RealDivisionMonotone(Total(m, level, ScoredCases(level, results)), Total(m', level, ScoredCases(level, results')), n);
    }
  }

  // ---- bounds within one report ----

  lemma CaseScoreBounds(level: Level, c: CaseResult)
    requires Scored(level, c)
    ensures var h1, h3, rr := Score(HitAt(1), level, c), Score(HitAt(3), level, c), Score(ReciprocalRank, level, c);
            && h1 + (h3 - h1) / 3.0 <= rr
            && rr <= h1 + (h3 - h1) / 2.0 + (1.0 - h3) / 4.0
  {
    RankFromIsFirst(level, c, 0);
    var rank := RankOfFirstRelevant(level, c);
    if rank.Some? && rank.value > 3 {
      assert rank.value as real >= 4.0;
      ReciprocalAtMost(rank.value as real);
    }
  }

  lemma ReciprocalAtMost(x: real)
    requires x >= 4.0
    ensures 0.0 <= 1.0 / x <= 0.25
  {
    RealDivisionMonotone(0.0, 1.0, x);
    RealDivisionMonotone(4.0, x, x);
  }

  lemma {:induction false} TotalRankBounds(level: Level, cases: seq<CaseResult>)
    requires AllScored(level, cases)
    ensures var h1, h3, rr := Total(HitAt(1), level, cases), Total(HitAt(3), level, cases), Total(ReciprocalRank, level, cases);
            && h1 + (h3 - h1) / 3.0 <= rr
            && rr <= h1 + (h3 - h1) / 2.0 + (|cases| as real - h3) / 4.0
  {
    if cases != [] {
      var last := |cases| - 1;
      CaseScoreBounds(level, cases[last]);
      TotalRankBounds(level, cases[..last]);
    }
  }

  lemma DividedRankBounds(h1: real, h3: real, rr: real, n: real)
    requires n > 0.0
    requires h1 + (h3 - h1) / 3.0 <= rr
    requires rr <= h1 + (h3 - h1) / 2.0 + (n - h3) / 4.0
    ensures h1 / n + (h3 / n - h1 / n) / 3.0 <= rr / n
    ensures rr / n <= h1 / n + (h3 / n - h1 / n) / 2.0 + (1.0 - h3 / n) / 4.0
  {
    var p, q, r := h1 / n, h3 / n, rr / n;
    assert h1 == p * n && h3 == q * n && rr == r * n;
    CancelFactor(2.0 * p + q, 3.0 * r, n);
    CancelFactor(4.0 * r, 2.0 * p + q + 1.0, n);
  }

  lemma CancelFactor(x: real, y: real, n: real)
    requires n > 0.0 && x * n <= y * n
    ensures x <= y
  {
    assert (y - x) * n >= 0.0;
  }

  /** What any reported (hit@1, hit@3, MRR) triple must satisfy, at either level. */
  lemma RankMetricBounds(level: Level, results: seq<CaseResult>)
    ensures var h1, h3, mrr := Mean(HitAt(1), level, results), Mean(HitAt(3), level, results), Mean(ReciprocalRank, level, results);
            && h1 + (h3 - h1) / 3.0 <= mrr
            && mrr <= h1 + (h3 - h1) / 2.0 + (1.0 - h3) / 4.0
  {
    var scored := ScoredCases(level, results);
    if scored != [] {
      TotalRankBounds(level, scored);
      DividedRankBounds(Total(HitAt(1), level, scored), Total(HitAt(3), level, scored),
                        Total(ReciprocalRank, level, scored), |scored| as real);
    }
  }

  lemma CaseRecallBelowHit(level: Level, c: CaseResult, k: nat)
    requires Scored(level, c)
    ensures 0.0 <= Score(RecallAt(k), level, c) <= Score(HitAt(k), level, c) <= 1.0
    ensures Score(RecallAt(k), level, c) > 0.0 <==>
            RankOfFirstRelevant(level, c).Some? && RankOfFirstRelevant(level, c).value <= k
  {
    FoundLabelsAreExpected(level, c, k);
    RankWithinIff(level, c, k);
    ShareWithinUnit(|FoundLabels(level, c, k)| as real, |ExpectedLabels(level, c)| as real);
  }

  lemma ShareWithinUnit(part: real, whole: real)
    requires 0.0 <= part <= whole && whole > 0.0
    ensures 0.0 <= part / whole <= 1.0
    ensures part / whole > 0.0 <==> part > 0.0
  {
    RealDivisionMonotone(part, whole, whole);
    RealDivisionMonotone(0.0, part, whole);
    assert whole / whole == 1.0;
    if part > 0.0 {
      assert part == (part / whole) * whole;
    }
  }

  lemma CaseScoreMonotoneInK(level: Level, c: CaseResult, j: nat, k: nat)
    requires Scored(level, c) && j <= k
    ensures Score(HitAt(j), level, c) <= Score(HitAt(k), level, c)
    ensures Score(RecallAt(j), level, c) <= Score(RecallAt(k), level, c)
  {
    assert FoundLabels(level, c, j) <= FoundLabels(level, c, k);
    SubsetSize(FoundLabels(level, c, j), FoundLabels(level, c, k));
    RealDivisionMonotone(|FoundLabels(level, c, j)| as real, |FoundLabels(level, c, k)| as real,
                         |ExpectedLabels(level, c)| as real);
  }

  lemma {:induction false} TotalRecallBounds(level: Level, cases: seq<CaseResult>, j: nat, k: nat)
    requires AllScored(level, cases) && j <= k
    ensures 0.0 <= Total(RecallAt(j), level, cases) <= Total(RecallAt(k), level, cases)
                <= Total(HitAt(k), level, cases) <= |cases| as real
    ensures Total(HitAt(j), level, cases) <= Total(HitAt(k), level, cases)
  {
    if cases != [] {
      var last := |cases| - 1;
      CaseRecallBelowHit(level, cases[last], j);
      CaseRecallBelowHit(level, cases[last], k);
      CaseScoreMonotoneInK(level, cases[last], j, k);
      TotalRecallBounds(level, cases[..last], j, k);
    }
  }

  /** Recall@k never exceeds hit@k, and both only grow with k. */
  lemma RecallMetricBounds(level: Level, results: seq<CaseResult>, j: nat, k: nat)
    requires j <= k
    ensures 0.0 <= Mean(RecallAt(j), level, results) <= Mean(RecallAt(k), level, results)
                <= Mean(HitAt(k), level, results) <= 1.0
    ensures Mean(HitAt(j), level, results) <= Mean(HitAt(k), level, results)
  {
    var scored := ScoredCases(level, results);
    TotalRecallBounds(level, scored, j, k);
    MeanMonotone(RecallAt(j), results, RecallAt(k), results, level);
    MeanMonotone(RecallAt(k), results, HitAt(k), results, level);
    MeanMonotone(HitAt(j), results, HitAt(k), results, level);
    MeanWithinUnit(RecallAt(j), level, results);
    MeanWithinUnit(HitAt(k), level, results);
  }

  lemma MeanWithinUnit(m: Metric, level: Level, results: seq<CaseResult>)
    requires 0.0 <= Total(m, level, ScoredCases(level, results)) <= |ScoredCases(level, results)| as real
    ensures 0.0 <= Mean(m, level, results) <= 1.0
  {
    var n := |ScoredCases(level, results)| as real;
    if n > 0.0 {
      QuotientWithinUnit(Total(m, level, ScoredCases(level, results)), n);
    }
  }

  lemma QuotientWithinUnit(x: real, n: real)
    requires 0.0 <= x <= n && n > 0.0
    ensures 0.0 <= x / n <= 1.0
  {
  }

  // ---- the effect of a gate ----

  lemma WithheldScoresNothing(m: Metric, level: Level, c: CaseResult)
    requires Scored(level, c)
    ensures Score(m, level, Withhold(c)) == 0.0 <= Score(m, level, c)
  {
    RankFromIsFirst(level, c, 0);
    match m
    case HitAt(k) =>
    case ReciprocalRank =>
      var rank := RankOfFirstRelevant(level, c);
      if rank.Some? {
        assert 1.0 == (1.0 / rank.value as real) * rank.value as real;
      }
    case RecallAt(k) =>
      CaseRecallBelowHit(level, c, k);
      assert FoundLabels(level, Withhold(c), k) == {};
  }

  /** Tightening a gate case by case: the populations stay, and no case gains. */
  ghost predicate Weakened(before: seq<CaseResult>, after: seq<CaseResult>) {
    && |before| == |after|
    && forall i | 0 <= i < |before| :: after[i] == before[i] || after[i] == Withhold(before[i])
  }

  lemma {:induction false} WeakenedTotals(m: Metric, level: Level, before: seq<CaseResult>, after: seq<CaseResult>)
    requires Weakened(before, after)
    ensures |ScoredCases(level, after)| == |ScoredCases(level, before)|
    ensures Total(m, level, ScoredCases(level, after)) <= Total(m, level, ScoredCases(level, before))
  {
    if before != [] {
      var last := |before| - 1;
      WeakenedTotals(m, level, before[..last], after[..last]);
      assert after[last] == before[last] || after[last] == Withhold(before[last]);
      assert Scored(level, before[last]) == Scored(level, after[last]);
      ScoredNext(m, level, before);
      ScoredNext(m, level, after);
      if Scored(level, before[last]) {
        WithheldScoresNothing(m, level, before[last]);
      }
    }
  }

  lemma GateMetricsMonotone(a: Arithmetic, m: Metric, level: Level, low: Gate, high: Gate, results: seq<CaseResult>)
    requires low == high.(threshold := low.threshold) && low.threshold <= high.threshold
    ensures |ScoredCases(level, ApplyGate(a, low, results))| == |ScoredCases(level, ApplyGate(a, high, results))|
            == |ScoredCases(level, results)|
    ensures Mean(m, level, ApplyGate(a, high, results)) <= Mean(m, level, ApplyGate(a, low, results))
            <= Mean(m, level, results)
  {
    var atLow, atHigh := ApplyGate(a, low, results), ApplyGate(a, high, results);
    forall i | 0 <= i < |results| ensures atHigh[i] == atLow[i] || atHigh[i] == Withhold(atLow[i]) {
    }
    WeakenedTotals(m, level, results, atLow);
    WeakenedTotals(m, level, atLow, atHigh);
    MeanMonotone(m, ApplyGate(a, high, results), m, ApplyGate(a, low, results), level);
    MeanMonotone(m, ApplyGate(a, low, results), m, results, level);
  }
}
