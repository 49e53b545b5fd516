/** The calibration sweep of the retrieval evaluator. */
module RetrievalSweep {
  import opened Wrappers
  import opened RetrievalGate
  import opened RetrievalMetrics
  import opened RetrievalSlices
  import opened RetrievalThresholds
  import opened Filtering
  import Ordering

  // ---- what the sweep observes ----

  function Observed(scoreKind: ScoreKind): CaseResult -> bool {
    (c: CaseResult) => c.observedScoreKind == Some(scoreKind)
  }

  function Gated(a: Arithmetic, kind: GateKind): CaseResult -> Option<Double> {
    (c: CaseResult) => GatedValue(a, kind, c)
  }

  function Matching(scoreKind: ScoreKind, results: seq<CaseResult>): seq<CaseResult> {
    Filter(Observed(scoreKind), results)
  }

  function DefinedValues(a: Arithmetic, kind: GateKind, cases: seq<CaseResult>): seq<Double> {
    Collect(Gated(a, kind), cases)
  }

  function ObservedValues(a: Arithmetic, scoreKind: ScoreKind, kind: GateKind, results: seq<CaseResult>): seq<Double> {
    DefinedValues(a, kind, Matching(scoreKind, results))
  }

  lemma ObservedValuesHoldEveryGatedValue(a: Arithmetic, scoreKind: ScoreKind, kind: GateKind, results: seq<CaseResult>)
    ensures forall v :: v in ObservedValues(a, scoreKind, kind, results)
                        <==> exists c | c in results :: c.observedScoreKind == Some(scoreKind) && GatedValue(a, kind, c) == Some(v)
  {
    var matching := Matching(scoreKind, results);
    forall c ensures c in matching <==> c in results && c.observedScoreKind == Some(scoreKind) {
      FilterMembers(Observed(scoreKind), results, c);
    }
    forall v ensures v in ObservedValues(a, scoreKind, kind, results) <==> exists c | c in matching :: GatedValue(a, kind, c) == Some(v) {
      CollectMembers(Gated(a, kind), matching, v);
    }
  }

  /** The case carries the gated quantity, and v is it: the first score, or the lead of the first over the second. */
  predicate Carries(a: Arithmetic, kind: GateKind, c: CaseResult, v: Double) {
    && (kind == AbsoluteScore ==> |c.returnedScores| > 0 && v == c.returnedScores[0])
    && (kind == Margin ==> |c.returnedScores| > 1 && v == a.difference(c.returnedScores[0], c.returnedScores[1]))
  }

  /** Candidates are derived from the quantity of every case scored in this space, and from nothing else. */
  lemma ObservedValueIff(a: Arithmetic, scoreKind: ScoreKind, kind: GateKind, results: seq<CaseResult>, v: Double)
    ensures v in ObservedValues(a, scoreKind, kind, results)
            <==> exists i | 0 <= i < |results| ::
                   results[i].observedScoreKind == Some(scoreKind) && Carries(a, kind, results[i], v)
  {
    ObservedValuesHoldEveryGatedValue(a, scoreKind, kind, results);
    if c :| c in results && c.observedScoreKind == Some(scoreKind) && GatedValue(a, kind, c) == Some(v) {
      var i :| 0 <= i < |results| && results[i] == c;
      assert Carries(a, kind, results[i], v);
    }
    if i :| 0 <= i < |results| && results[i].observedScoreKind == Some(scoreKind) && Carries(a, kind, results[i], v) {
      assert results[i] in results && GatedValue(a, kind, results[i]) == Some(v);
    }
  }

  lemma GatedValueIsObserved(a: Arithmetic, scoreKind: ScoreKind, kind: GateKind, results: seq<CaseResult>, i: nat)
    requires i < |results| && results[i].observedScoreKind == Some(scoreKind) && GatedValue(a, kind, results[i]).Some?
    ensures GatedValue(a, kind, results[i]).value in ObservedValues(a, scoreKind, kind, results)
  {
    FilterMembers(Observed(scoreKind), results, results[i]);
    assert results[i] in Matching(scoreKind, results);
    CollectMembers(Gated(a, kind), Matching(scoreKind, results), GatedValue(a, kind, results[i]).value);
  }

  lemma ObservedValuesAreFinite(a: Arithmetic, scoreKind: ScoreKind, kind: GateKind, results: seq<CaseResult>)
    requires AllWellFormed(a, results)
    ensures forall v | v in ObservedValues(a, scoreKind, kind, results) :: Finite(v)
  {
    ObservedValuesHoldEveryGatedValue(a, scoreKind, kind, results);
    forall v | v in ObservedValues(a, scoreKind, kind, results) ensures Finite(v) {
      var c :| c in results && c.observedScoreKind == Some(scoreKind) && GatedValue(a, kind, c) == Some(v);
      var i :| 0 <= i < |results| && results[i] == c;
      assert WellFormed(a, results[i]);
    }
  }

  lemma SameSplitSameGate(a: Arithmetic, g: Gate, h: Gate, results: seq<CaseResult>)
    requires g == h.(threshold := g.threshold)
    requires forall v | v in ObservedValues(a, g.scoreKind, g.kind, results) :: v < g.threshold <==> v < h.threshold
    ensures ApplyGate(a, g, results) == ApplyGate(a, h, results)
  {
    ObservedValuesHoldEveryGatedValue(a, g.scoreKind, g.kind, results);
    forall i | 0 <= i < |results| ensures GateCase(a, g, results[i]) == GateCase(a, h, results[i]) {
      var value := GatedValue(a, g.kind, results[i]);
      if results[i].observedScoreKind == Some(g.scoreKind) && value.Some? {
        GatedValueIsObserved(a, g.scoreKind, g.kind, results, i);
      }
    }
  }

  /** The sweep's candidates on a well-formed result list. */
  lemma CandidatesOfResults(a: Arithmetic, scoreKind: ScoreKind, kind: GateKind, results: seq<CaseResult>)
    requires AllWellFormed(a, results)
    ensures var values := ObservedValues(a, scoreKind, kind, results);
            var r := Candidates(a, values);
            && (r == Ok([]) <==> values == [])
            && (r.Err? <==> LARGEST in values)
            && (r.Ok? && values != [] ==>
                  && |r.value| == |set v | v in values| + 1
                  && Increasing(r.value)
                  && forall i | 0 <= i < |r.value| :: Finite(r.value[i]))
  {
    ObservedValuesAreFinite(a, scoreKind, kind, results);
    var values := ObservedValues(a, scoreKind, kind, results);
    CandidatesExistWhen(a, values);
    if values != [] && LARGEST !in values {
      CandidateCount(a, values);
    }
  }

  /** Sweep completeness: no threshold behaves differently from every candidate. */
  lemma SweepComplete(a: Arithmetic, scoreKind: ScoreKind, kind: GateKind, results: seq<CaseResult>, t: Double)
    requires Candidates(a, ObservedValues(a, scoreKind, kind, results)).Ok?
    requires ObservedValues(a, scoreKind, kind, results) != []
    ensures exists c | c in Candidates(a, ObservedValues(a, scoreKind, kind, results)).value ::
              ApplyGate(a, Gate(scoreKind, kind, t), results) == ApplyGate(a, Gate(scoreKind, kind, c), results)
  {
    var values := ObservedValues(a, scoreKind, kind, results);
    var unique := SortedValues(values);
    SortedValuesProperties(values);
    var k := CandidateForThreshold(a, unique, t);
    var c := Boundaries(a, unique)[k];
    forall v | v in values ensures v < t <==> v < c {
      assert v in unique;
    }
    SameSplitSameGate(a, Gate(scoreKind, kind, t), Gate(scoreKind, kind, c), results);
    assert c in Candidates(a, values).value;
  }

  /** With no value to observe there is no candidate, and no threshold does anything. */
  lemma NothingObservedNothingGated(a: Arithmetic, scoreKind: ScoreKind, kind: GateKind, results: seq<CaseResult>, t: Double)
    requires ObservedValues(a, scoreKind, kind, results) == []
    ensures Candidates(a, ObservedValues(a, scoreKind, kind, results)) == Ok([])
    ensures ApplyGate(a, Gate(scoreKind, kind, t), results) == results
  {
    SortedValuesProperties([]);
    ObservedValuesHoldEveryGatedValue(a, scoreKind, kind, results);
    forall i | 0 <= i < |results| ensures GateCase(a, Gate(scoreKind, kind, t), results[i]) == results[i] {
      var value := GatedValue(a, kind, results[i]);
      if results[i].observedScoreKind == Some(scoreKind) && value.Some? {
        GatedValueIsObserved(a, scoreKind, kind, results, i);
      }
    }
  }

  // ---- the rows of a sweep ----

  predicate IsAnswerable(c: CaseResult) {
    c.expectedDocumentIds != []
  }

  predicate IsUnanswerable(c: CaseResult) {
    !IsAnswerable(c)
  }

  predicate Answered(c: CaseResult) {
    !Abstained(c)
  }

  function NoMargin(a: Arithmetic): CaseResult -> bool {
    (c: CaseResult) => Summarize(a, c).delta.None?
  }

  function Unanswerable(results: seq<CaseResult>): seq<CaseResult> {
    Filter(IsUnanswerable, results)
  }

  function Answerable(results: seq<CaseResult>): seq<CaseResult> {
    Filter(IsAnswerable, results)
  }

  function AbstainedCases(results: seq<CaseResult>): seq<CaseResult> {
    Filter(Abstained, results)
  }

  function AnsweredCases(results: seq<CaseResult>): seq<CaseResult> {
    Filter(Answered, results)
  }

  function UndefinedMargins(a: Arithmetic, cases: seq<CaseResult>): seq<CaseResult> {
    Filter(NoMargin(a), cases)
  }

  predicate IsNewlyAffected(before: CaseResult, after: CaseResult) {
    IsAnswerable(before) && !Abstained(before) && Abstained(after)
  }

  function NewlyAffected(before: seq<CaseResult>, after: seq<CaseResult>): seq<CaseResult>
    requires |before| == |after|
  {
    if before == [] then []
    else
      var last := |before| - 1;
      NewlyAffected(before[..last], after[..last]) + if IsNewlyAffected(before[last], after[last]) then [after[last]] else []
  }

  function CaseIdOf(c: CaseResult): string {
    c.caseId
  }

  /** `sorted(case.case_id for case in cases)` */
  function SortedIds(cases: seq<CaseResult>): (r: seq<string>)
    ensures |r| == |cases|
  {
    Ordering.Sort(Ordering.StringLe, Map(CaseIdOf, cases))
  }

  function Rate(count: nat, total: nat): Option<real> {
    if total == 0 then None else Some(count as real / total as real)
  }

  datatype SweepRow = SweepRow(
    gate: Gate,
    affectedPopulationCount: nat,
    inheritedAbstentionCaseIds: seq<string>,
    undefinedMarginCaseIds: seq<string>,
    unanswerableCount: nat,
    abstentionCount: nat,
    abstentionRate: Option<real>,
    falseAnswerCaseIds: seq<string>,
    answerableCount: nat,
    falseAbstentionCount: nat,
    falseAbstentionRate: Option<real>,
    affectedCaseIds: seq<string>,
    metrics: Aggregated)

  function RowOf(a: Arithmetic, g: Gate, results: seq<CaseResult>): SweepRow {
    var simulated := ApplyGate(a, g, results);
    var matching := Matching(g.scoreKind, results);
    var unanswerable, answerable := Unanswerable(simulated), Answerable(simulated);
    SweepRow(
      g,
      |matching|,
      SortedIds(AbstainedCases(results)),
      if g.kind == Margin then SortedIds(UndefinedMargins(a, matching)) else [],
      |unanswerable|,
      |AbstainedCases(unanswerable)|,
      Rate(|AbstainedCases(unanswerable)|, |unanswerable|),
      SortedIds(AnsweredCases(unanswerable)),
      |answerable|,
      |AbstainedCases(answerable)|,
      Rate(|AbstainedCases(answerable)|, |answerable|),
      SortedIds(NewlyAffected(results, simulated)),
      AggregateReport(simulated))
  }

  datatype SweepError = BadCandidates(error: CandidateError) | BadThreshold

  function Thresholds(a: Arithmetic, scoreKind: ScoreKind, kind: GateKind, candidates: Option<seq<Double>>,
                      results: seq<CaseResult>): Result<seq<Double>, CandidateError>
  {
    if candidates.Some? then Ok(candidates.value) else Candidates(a, ObservedValues(a, scoreKind, kind, results))
  }

  predicate AllFinite(thresholds: seq<Double>) {
    forall i | 0 <= i < |thresholds| :: Finite(thresholds[i])
  }

  function RowAt(a: Arithmetic, scoreKind: ScoreKind, kind: GateKind, results: seq<CaseResult>): Double -> SweepRow {
    (threshold: Double) => RowOf(a, Gate(scoreKind, kind, threshold), results)
  }

  /** One row per threshold, in order. */
  function RowsOf(a: Arithmetic, scoreKind: ScoreKind, kind: GateKind, thresholds: seq<Double>,
                  results: seq<CaseResult>): seq<SweepRow>
  {
    Map(RowAt(a, scoreKind, kind, results), thresholds)
  }

  lemma AllFiniteNext(thresholds: seq<Double>, i: nat)
    requires i < |thresholds| && AllFinite(thresholds[..i]) && Finite(thresholds[i])
    ensures AllFinite(thresholds[..i + 1])
  {
  }

  lemma RowsOfNext(a: Arithmetic, scoreKind: ScoreKind, kind: GateKind, thresholds: seq<Double>,
                   results: seq<CaseResult>, i: nat)
    requires i < |thresholds|
    ensures RowsOf(a, scoreKind, kind, thresholds[..i + 1], results)
            == RowsOf(a, scoreKind, kind, thresholds[..i], results) + [RowOf(a, Gate(scoreKind, kind, thresholds[i]), results)]
  {
    MapNext(RowAt(a, scoreKind, kind, results), thresholds, i);
  }

  // ---- accounting within a row ----

  predicate FalseAbstention(c: CaseResult) {
    IsAnswerable(c) && Abstained(c)
  }

  predicate TrueAbstention(c: CaseResult) {
    IsUnanswerable(c) && Abstained(c)
  }

  lemma AbstentionCounts(results: seq<CaseResult>)
    ensures |AbstainedCases(Answerable(results))| == Count(FalseAbstention, results)
    ensures |AbstainedCases(Unanswerable(results))| == Count(TrueAbstention, results)
    ensures |AbstainedCases(results)| == Count(FalseAbstention, results) + Count(TrueAbstention, results)
  {
    CountNested(IsAnswerable, Abstained, FalseAbstention, results);
    CountNested(IsUnanswerable, Abstained, TrueAbstention, results);
    CountUnion(FalseAbstention, TrueAbstention, Abstained, results);
  }

  lemma AbstainedPlusAnswered(cases: seq<CaseResult>)
    ensures |AbstainedCases(cases)| + |AnsweredCases(cases)| == |cases|
  {
    var all := (c: CaseResult) => true;
    CountUnion(Abstained, Answered, all, cases);
    CountAll(all, cases);
  }

  /** Withholding cases moves none between the populations and adds abstentions only. */
  lemma {:induction false} WithholdingCounts(before: seq<CaseResult>, after: seq<CaseResult>)
    requires Weakened(before, after)
    ensures Count(IsAnswerable, after) == Count(IsAnswerable, before)
    ensures Count(IsUnanswerable, after) == Count(IsUnanswerable, before)
    ensures Count(FalseAbstention, after) == Count(FalseAbstention, before) + |NewlyAffected(before, after)|
    ensures Count(TrueAbstention, after) >= Count(TrueAbstention, before)
  {
    if before != [] {
      var last := |before| - 1;
      assert after[last] == before[last] || after[last] == Withhold(before[last]);
      WithholdingCounts(before[..last], after[..last]);
    }
  }

  /** In every row the two populations are the ungated ones, and each splits without remainder. */
  lemma RowAccounting(a: Arithmetic, g: Gate, results: seq<CaseResult>)
    ensures var row := RowOf(a, g, results);
            && row.unanswerableCount == |Unanswerable(results)|
            && row.answerableCount == |Answerable(results)|
            && row.abstentionCount + |row.falseAnswerCaseIds| == row.unanswerableCount
            && row.falseAbstentionCount == |AbstainedCases(Answerable(results))| + |row.affectedCaseIds|
            && |row.inheritedAbstentionCaseIds| == |AbstainedCases(Answerable(results))| + |AbstainedCases(Unanswerable(results))|
  {
    var simulated := ApplyGate(a, g, results);
    WithholdingCounts(results, simulated);
    AbstentionCounts(results);
    AbstentionCounts(simulated);
    AbstainedPlusAnswered(Unanswerable(simulated));
  }

  // ---- trade-off between rows ----

  /**
   Raising the threshold: who abstains only grows, both abstention counts only grow, and every metric at
   either level only falls, over scored populations that do not change.
   */
  lemma TradeOffIsMonotone(a: Arithmetic, scoreKind: ScoreKind, kind: GateKind, s: Double, t: Double,
                           results: seq<CaseResult>, m: Metric, level: Level)
    requires s <= t
    ensures var low, high := Gate(scoreKind, kind, s), Gate(scoreKind, kind, t);
            var atLow, atHigh := ApplyGate(a, low, results), ApplyGate(a, high, results);
            && (forall i | 0 <= i < |results| :: Abstained(atLow[i]) ==> Abstained(atHigh[i]))
            && RowOf(a, low, results).abstentionCount <= RowOf(a, high, results).abstentionCount
            && RowOf(a, low, results).falseAbstentionCount <= RowOf(a, high, results).falseAbstentionCount
            && |ScoredCases(level, atLow)| == |ScoredCases(level, atHigh)| == |ScoredCases(level, results)|
            && Mean(m, level, atHigh) <= Mean(m, level, atLow) <= Mean(m, level, results)
  {
    var low, high := Gate(scoreKind, kind, s), Gate(scoreKind, kind, t);
    GateMetricsMonotone(a, m, level, low, high, results);
    var atLow, atHigh := ApplyGate(a, low, results), ApplyGate(a, high, results);
    forall i | 0 <= i < |results| ensures atHigh[i] == atLow[i] || atHigh[i] == Withhold(atLow[i]) {
    }
    WithholdingCounts(atLow, atHigh);
    AbstentionCounts(atLow);
    AbstentionCounts(atHigh);
  }

  /** The default sweep therefore already holds, but for the threshold it names, the row of any threshold. */
  lemma SweepReportsEveryThreshold(a: Arithmetic, scoreKind: ScoreKind, kind: GateKind, results: seq<CaseResult>, t: Double)
    requires Candidates(a, ObservedValues(a, scoreKind, kind, results)).Ok?
    requires ObservedValues(a, scoreKind, kind, results) != []
    ensures var ts := Candidates(a, ObservedValues(a, scoreKind, kind, results)).value;
            exists i | 0 <= i < |ts| ::
              RowsOf(a, scoreKind, kind, ts, results)[i]
              == RowOf(a, Gate(scoreKind, kind, t), results).(gate := Gate(scoreKind, kind, ts[i]))
  {
    var ts := Candidates(a, ObservedValues(a, scoreKind, kind, results)).value;
    SweepComplete(a, scoreKind, kind, results, t);
    var c :| c in ts && ApplyGate(a, Gate(scoreKind, kind, t), results) == ApplyGate(a, Gate(scoreKind, kind, c), results);
    var i :| 0 <= i < |ts| && ts[i] == c;
    RowDependsOnOutcome(a, scoreKind, kind, ts, i, t, results);
  }

  lemma RowDependsOnOutcome(a: Arithmetic, scoreKind: ScoreKind, kind: GateKind, ts: seq<Double>, i: nat, t: Double,
                            results: seq<CaseResult>)
    requires i < |ts|
    requires ApplyGate(a, Gate(scoreKind, kind, t), results) == ApplyGate(a, Gate(scoreKind, kind, ts[i]), results)
    ensures RowsOf(a, scoreKind, kind, ts, results)[i]
            == RowOf(a, Gate(scoreKind, kind, t), results).(gate := Gate(scoreKind, kind, ts[i]))
  {
    RowsOfAt(a, scoreKind, kind, ts, i, results);
    assert RowOf(a, Gate(scoreKind, kind, ts[i]), results)
           == RowOf(a, Gate(scoreKind, kind, t), results).(gate := Gate(scoreKind, kind, ts[i]));
  }

  lemma RowsOfAt(a: Arithmetic, scoreKind: ScoreKind, kind: GateKind, ts: seq<Double>, i: nat, results: seq<CaseResult>)
    requires i < |ts|
    ensures RowsOf(a, scoreKind, kind, ts, results)[i] == RowOf(a, Gate(scoreKind, kind, ts[i]), results)
  {
  }
}
