/** The rows of a calibration sweep, stated by the fields of the case results. */
module SweepRows {
  import opened Wrappers
  import opened Filtering
  import opened RetrievalGate
  import opened RetrievalMetrics
  import opened RetrievalSlices
  import opened RetrievalThresholds
  import opened RetrievalSweep
  import opened RetrievalValues
  import Ordering

  // ---- what a row holds ----

  predicate Silent(c: CaseResult) {
    c.retrievalStatus == "no_results" || c.returnedDocumentIds == []
  }

  /** The case was scored in the gate's space, and what the gate looks at lies below the threshold. */
  predicate Below(a: Arithmetic, g: Gate, c: CaseResult) {
    && c.observedScoreKind == Some(g.scoreKind)
    && (g.kind == AbsoluteScore ==> |c.returnedScores| > 0 && c.returnedScores[0] < g.threshold)
    && (g.kind == Margin ==>
          |c.returnedScores| > 1 && a.difference(c.returnedScores[0], c.returnedScores[1]) < g.threshold)
  }

  predicate SilentAfter(a: Arithmetic, g: Gate, c: CaseResult) {
    Silent(c) || Below(a, g, c)
  }

  function Expects(c: CaseResult): bool {
    c.expectedDocumentIds != []
  }

  function FalselyAnswered(a: Arithmetic, g: Gate): CaseResult -> bool {
    (c: CaseResult) => !Expects(c) && !SilentAfter(a, g, c)
  }

  function RightlySilent(a: Arithmetic, g: Gate): CaseResult -> bool {
    (c: CaseResult) => !Expects(c) && SilentAfter(a, g, c)
  }

  function WronglySilent(a: Arithmetic, g: Gate): CaseResult -> bool {
    (c: CaseResult) => Expects(c) && SilentAfter(a, g, c)
  }

  function NewlySilent(a: Arithmetic, g: Gate): CaseResult -> bool {
    (c: CaseResult) => Expects(c) && !Silent(c) && Below(a, g, c)
  }

  function ScoredIn(scoreKind: ScoreKind): CaseResult -> bool {
    (c: CaseResult) => c.observedScoreKind == Some(scoreKind)
  }

  function WithoutMargin(g: Gate): CaseResult -> bool {
    (c: CaseResult) => g.kind == Margin && c.observedScoreKind == Some(g.scoreKind) && |c.returnedScores| < 2
  }

  /** The positions of the cases listed under this id. */
  ghost function ListedAs(results: seq<CaseResult>, listed: CaseResult -> bool, id: string): set<int> {
    set i | 0 <= i < |results| && listed(results[i]) && results[i].caseId == id
  }

  /** The ids of the listed cases: every id as often as it is listed, in code-point order. */
  ghost predicate Lists(ids: seq<string>, results: seq<CaseResult>, listed: CaseResult -> bool) {
    && (forall i, j | 0 <= i < j < |ids| :: Ordering.CodePointLe(ids[i], ids[j]))
    && forall id :: multiset(ids)[id] == |ListedAs(results, listed, id)|
  }

  /** A rate over no case at all is absent. */
  predicate IsRate(rate: Option<real>, part: nat, whole: nat) {
    && (rate.None? <==> whole == 0)
    && (rate.Some? ==> rate.value * whole as real == part as real)
  }

  /** A withheld case keeps what was asked and loses what was returned. */
  predicate IsGated(a: Arithmetic, g: Gate, before: CaseResult, after: CaseResult) {
    if !Silent(before) && Below(a, g, before) then
      && after.returnedDocumentIds == [] && after.returnedSections == [] && after.returnedScores == []
      && after.observedScoreKind == None && !after.rerankerApplied && after.retrievalStatus == "no_results"
      && after.caseId == before.caseId && after.probe == before.probe
      && after.expectedDocumentIds == before.expectedDocumentIds && after.expectedSections == before.expectedSections
      && after.configuredScoreKind == before.configuredScoreKind
      && after.rerankerRequested == before.rerankerRequested && after.latencyMs == before.latencyMs
    else after == before
  }

  predicate GatedList(a: Arithmetic, g: Gate, results: seq<CaseResult>, gated: seq<CaseResult>) {
    && |gated| == |results|
    && forall i | 0 <= i < |results| :: IsGated(a, g, results[i], gated[i])
  }

  ghost predicate ListsState(a: Arithmetic, results: seq<CaseResult>, row: SweepRow) {
    && Lists(row.inheritedAbstentionCaseIds, results, Silent)
    && Lists(row.undefinedMarginCaseIds, results, WithoutMargin(row.gate))
    && Lists(row.falseAnswerCaseIds, results, FalselyAnswered(a, row.gate))
    && Lists(row.affectedCaseIds, results, NewlySilent(a, row.gate))
  }

  ghost predicate CountsState(a: Arithmetic, results: seq<CaseResult>, row: SweepRow) {
    && row.affectedPopulationCount == |Positions(ScoredIn(row.gate.scoreKind), results)|
    && row.unanswerableCount == |results| - |Positions(Expects, results)|
    && row.answerableCount == |Positions(Expects, results)|
    && row.abstentionCount == |Positions(RightlySilent(a, row.gate), results)|
    && row.falseAbstentionCount == |Positions(WronglySilent(a, row.gate), results)|
    && IsRate(row.abstentionRate, row.abstentionCount, row.unanswerableCount)
    && IsRate(row.falseAbstentionRate, row.falseAbstentionCount, row.answerableCount)
  }

  /** Every column of a row, in terms of the results the sweep was given. */
  ghost predicate RowStates(a: Arithmetic, results: seq<CaseResult>, row: SweepRow) {
    && ListsState(a, results, row)
    && CountsState(a, results, row)
    && exists gated :: GatedList(a, row.gate, results, gated) && ReportStates(gated, row.metrics)
  }

  /** One row for each threshold, in order. */
  ghost predicate RowsState(a: Arithmetic, scoreKind: ScoreKind, kind: GateKind, thresholds: seq<Double>,
                            results: seq<CaseResult>, rows: seq<SweepRow>)
  {
    && |rows| == |thresholds|
    && forall k | 0 <= k < |rows| ::
         rows[k].gate == Gate(scoreKind, kind, thresholds[k]) && RowStates(a, results, rows[k])
  }

  // ---- that the rows are so ----

  function HasId(id: string): CaseResult -> bool {
    (c: CaseResult) => c.caseId == id
  }

  lemma {:induction false} SameSelection<T>(p: T -> bool, q: T -> bool, s: seq<T>)
    requires forall x | x in s :: p(x) == q(x)
    ensures Filter(p, s) == Filter(q, s)
  {
    if s != [] {
      SameSelection(p, q, s[..|s| - 1]);
    }
  }

  lemma {:induction false} IdCount(cases: seq<CaseResult>, id: string)
    ensures multiset(Map(CaseIdOf, cases))[id] == Count(HasId(id), cases)
  {
    if cases != [] {
      var front, last := cases[..|cases| - 1], cases[|cases| - 1];
      IdCount(front, id);
      assert cases == front + [last];
      MapAppend(front, last);
    }
  }

  function ListedWithId(listed: CaseResult -> bool, id: string): CaseResult -> bool {
    (c: CaseResult) => listed(c) && c.caseId == id
  }

  lemma SelectedIdCount(results: seq<CaseResult>, listed: CaseResult -> bool, id: string)
    ensures multiset(Map(CaseIdOf, Filter(listed, results)))[id] == |ListedAs(results, listed, id)|
  {
    IdCount(Filter(listed, results), id);
    CountNested(listed, HasId(id), ListedWithId(listed, id), results);
    CountPositions(ListedWithId(listed, id), results);
    assert Positions(ListedWithId(listed, id), results) == ListedAs(results, listed, id);
  }

  lemma SortedIdsInOrder(cases: seq<CaseResult>)
    ensures var ids := SortedIds(cases);
            forall i, j | 0 <= i < j < |ids| :: Ordering.CodePointLe(ids[i], ids[j])
  {
    Ordering.StringLeTotalOrder();
    Ordering.SortSorted(Ordering.StringLe, Map(CaseIdOf, cases));
    var ids := SortedIds(cases);
    forall i, j | 0 <= i < j < |ids| ensures Ordering.CodePointLe(ids[i], ids[j]) {
      Ordering.StringLeIff(ids[i], ids[j]);
    }
  }

  /** A list of ids drawn from cases with the same ids as the selected ones. */
  lemma SelectionIsListed(results: seq<CaseResult>, listed: CaseResult -> bool, cases: seq<CaseResult>)
    requires Map(CaseIdOf, cases) == Map(CaseIdOf, Filter(listed, results))
    ensures Lists(SortedIds(cases), results, listed)
  {
    SortedIdsInOrder(cases);
    forall id ensures multiset(SortedIds(cases))[id] == |ListedAs(results, listed, id)| {
      SelectedIdCount(results, listed, id);
    }
  }

  lemma GateReads(a: Arithmetic, g: Gate, c: CaseResult)
    ensures Fires(a, g, c) <==> !Silent(c) && Below(a, g, c)
    ensures IsGated(a, g, c, GateCase(a, g, c))
    ensures Abstained(GateCase(a, g, c)) <==> SilentAfter(a, g, c)
  {
  }

  /** Selecting after the gate by what the gate leaves is selecting before it by what it looks at. */
  lemma {:induction false} GatedSelection(a: Arithmetic, g: Gate, results: seq<CaseResult>,
                                          after: CaseResult -> bool, before: CaseResult -> bool)
    requires forall c :: after(GateCase(a, g, c)) == before(c)
    ensures Map(CaseIdOf, Filter(after, ApplyGate(a, g, results))) == Map(CaseIdOf, Filter(before, results))
    ensures Count(after, ApplyGate(a, g, results)) == Count(before, results)
  {
    if results != [] {
      var front, last := results[..|results| - 1], results[|results| - 1];
      GatedSelection(a, g, front, after, before);
      assert ApplyGate(a, g, results)[..|front|] == ApplyGate(a, g, front);
      MapAppend(Filter(before, front), last);
      MapAppend(Filter(after, ApplyGate(a, g, front)), GateCase(a, g, last));
    }
  }

  lemma MapAppend(cases: seq<CaseResult>, c: CaseResult)
    ensures Map(CaseIdOf, cases + [c]) == Map(CaseIdOf, cases) + [c.caseId]
    ensures cases + [] == cases
  {
    assert CaseIdOf(c) == c.caseId;
    assert (cases + [c])[..|cases|] == cases && (cases + [c])[..|cases| + 1] == cases + [c];
    MapNext(CaseIdOf, cases + [c], |cases|);
  }

  lemma {:induction false} NewlyAffectedIds(a: Arithmetic, g: Gate, results: seq<CaseResult>)
    ensures Map(CaseIdOf, NewlyAffected(results, ApplyGate(a, g, results)))
            == Map(CaseIdOf, Filter(NewlySilent(a, g), results))
  {
    if results != [] {
      var front, last := results[..|results| - 1], results[|results| - 1];
      NewlyAffectedIds(a, g, front);
      assert ApplyGate(a, g, results)[..|front|] == ApplyGate(a, g, front);
      GateReads(a, g, last);
      MapAppend(Filter(NewlySilent(a, g), front), last);
      MapAppend(NewlyAffected(front, ApplyGate(a, g, front)), GateCase(a, g, last));
    }
  }

  function UnansweredAfter(c: CaseResult): bool {
    IsUnanswerable(c) && Answered(c)
  }

  lemma FalseAnswersListed(a: Arithmetic, g: Gate, results: seq<CaseResult>)
    ensures Lists(SortedIds(AnsweredCases(Unanswerable(ApplyGate(a, g, results)))), results, FalselyAnswered(a, g))
  {
    var simulated := ApplyGate(a, g, results);
    CountNested(IsUnanswerable, Answered, UnansweredAfter, simulated);
    forall c ensures UnansweredAfter(GateCase(a, g, c)) == FalselyAnswered(a, g)(c) {
      GateReads(a, g, c);
    }
    GatedSelection(a, g, results, UnansweredAfter, FalselyAnswered(a, g));
    SelectionIsListed(results, FalselyAnswered(a, g), AnsweredCases(Unanswerable(simulated)));
  }

  lemma InheritedListed(results: seq<CaseResult>)
    ensures Lists(SortedIds(AbstainedCases(results)), results, Silent)
  {
    SameSelection(Abstained, Silent, results);
    SelectionIsListed(results, Silent, AbstainedCases(results));
  }

  lemma UndefinedMarginsListed(a: Arithmetic, g: Gate, results: seq<CaseResult>)
    requires g.kind == Margin
    ensures Lists(SortedIds(UndefinedMargins(a, Matching(g.scoreKind, results))), results, WithoutMargin(g))
  {
    CountNested(Observed(g.scoreKind), NoMargin(a), WithoutMargin(g), results);
    SelectionIsListed(results, WithoutMargin(g), UndefinedMargins(a, Matching(g.scoreKind, results)));
  }

  lemma NoneListed(results: seq<CaseResult>, listed: CaseResult -> bool)
    requires forall c :: !listed(c)
    ensures Lists([], results, listed)
  {
    forall id ensures |ListedAs(results, listed, id)| == 0 {
      assert ListedAs(results, listed, id) == {};
    }
  }

  lemma AffectedListed(a: Arithmetic, g: Gate, results: seq<CaseResult>)
    ensures Lists(SortedIds(NewlyAffected(results, ApplyGate(a, g, results))), results, NewlySilent(a, g))
  {
    NewlyAffectedIds(a, g, results);
    SelectionIsListed(results, NewlySilent(a, g), NewlyAffected(results, ApplyGate(a, g, results)));
  }

  lemma ListsAreStated(a: Arithmetic, g: Gate, results: seq<CaseResult>)
    ensures ListsState(a, results, RowOf(a, g, results))
  {
    InheritedListed(results);
    FalseAnswersListed(a, g, results);
    AffectedListed(a, g, results);
    if g.kind == Margin {
      UndefinedMarginsListed(a, g, results);
    } else {
      NoneListed(results, WithoutMargin(g));
    }
  }

  lemma RateIs(part: nat, whole: nat)
    ensures IsRate(Rate(part, whole), part, whole)
  {
    if whole > 0 {
      ShareTimesWhole(part as real, whole as real);
    }
  }

  lemma MatchingCount(scoreKind: ScoreKind, results: seq<CaseResult>)
    ensures |Matching(scoreKind, results)| == |Positions(ScoredIn(scoreKind), results)|
  {
    SameSelection(Observed(scoreKind), ScoredIn(scoreKind), results);
    CountPositions(ScoredIn(scoreKind), results);
  }

  lemma AnswerableCount(a: Arithmetic, g: Gate, results: seq<CaseResult>)
    ensures |Answerable(ApplyGate(a, g, results))| == |Positions(Expects, results)|
  {
    GatedSelection(a, g, results, IsAnswerable, Expects);
    CountPositions(Expects, results);
  }

  lemma UnanswerableCount(a: Arithmetic, g: Gate, results: seq<CaseResult>)
    ensures |Unanswerable(ApplyGate(a, g, results))| == |results| - |Positions(Expects, results)|
  {
    var all := (c: CaseResult) => true;
    CountUnion(Expects, IsUnanswerable, all, results);
    CountAll(all, results);
    GatedSelection(a, g, results, IsUnanswerable, IsUnanswerable);
    CountPositions(Expects, results);
  }

  lemma PopulationsAre(a: Arithmetic, g: Gate, results: seq<CaseResult>)
    ensures var row := RowOf(a, g, results);
            && row.affectedPopulationCount == |Positions(ScoredIn(g.scoreKind), results)|
            && row.answerableCount == |Positions(Expects, results)|
            && row.unanswerableCount == |results| - |Positions(Expects, results)|
  {
    MatchingCount(g.scoreKind, results);
    AnswerableCount(a, g, results);
    UnanswerableCount(a, g, results);
  }

  lemma AbstentionsAre(a: Arithmetic, g: Gate, results: seq<CaseResult>)
    ensures var row := RowOf(a, g, results);
            && row.abstentionCount == |Positions(RightlySilent(a, g), results)|
            && row.falseAbstentionCount == |Positions(WronglySilent(a, g), results)|
  {
    forall c
      ensures TrueAbstention(GateCase(a, g, c)) == RightlySilent(a, g)(c)
      ensures FalseAbstention(GateCase(a, g, c)) == WronglySilent(a, g)(c)
    {
      GateReads(a, g, c);
    }
    AbstentionCounts(ApplyGate(a, g, results));
    GatedSelection(a, g, results, TrueAbstention, RightlySilent(a, g));
    GatedSelection(a, g, results, FalseAbstention, WronglySilent(a, g));
    CountPositions(RightlySilent(a, g), results);
    CountPositions(WronglySilent(a, g), results);
  }

  lemma CountsAreStated(a: Arithmetic, g: Gate, results: seq<CaseResult>)
    ensures CountsState(a, results, RowOf(a, g, results))
  {
    PopulationsAre(a, g, results);
    AbstentionsAre(a, g, results);
    var row := RowOf(a, g, results);
    RateIs(row.abstentionCount, row.unanswerableCount);
    RateIs(row.falseAbstentionCount, row.answerableCount);
  }

  lemma RowIsStated(a: Arithmetic, g: Gate, results: seq<CaseResult>)
    ensures RowOf(a, g, results).gate == g
    ensures RowStates(a, results, RowOf(a, g, results))
  {
    var row, gated := RowOf(a, g, results), ApplyGate(a, g, results);
    assert ListsState(a, results, row) by {
      ListsAreStated(a, g, results);
    }
    assert CountsState(a, results, row) by {
      CountsAreStated(a, g, results);
    }
    assert GatedList(a, g, results, gated) && ReportStates(gated, row.metrics) by {
      GateIsStated(a, g, results);
      ReportStated(gated);
    }
  }

  lemma GateIsStated(a: Arithmetic, g: Gate, results: seq<CaseResult>)
    ensures GatedList(a, g, results, ApplyGate(a, g, results))
  {
    forall i | 0 <= i < |results| ensures IsGated(a, g, results[i], ApplyGate(a, g, results)[i]) {
      GateReads(a, g, results[i]);
    }
  }

  lemma RowsAreStated(a: Arithmetic, scoreKind: ScoreKind, kind: GateKind, thresholds: seq<Double>,
                      results: seq<CaseResult>)
    ensures RowsState(a, scoreKind, kind, thresholds, results, RowsOf(a, scoreKind, kind, thresholds, results))
  {
    forall k | 0 <= k < |thresholds| ensures
        RowsOf(a, scoreKind, kind, thresholds, results)[k].gate == Gate(scoreKind, kind, thresholds[k])
        && RowStates(a, results, RowsOf(a, scoreKind, kind, thresholds, results)[k])
    {
      RowIsStated(a, Gate(scoreKind, kind, thresholds[k]), results);
    }
  }

  // ---- the sweep ----

  method CalibrationSweep(a: Arithmetic, results: seq<CaseResult>, scoreKind: ScoreKind, kind: GateKind,
                          candidates: Option<seq<Double>>)
    returns (output: Result<seq<SweepRow>, SweepError>)
    ensures var thresholds := Thresholds(a, scoreKind, kind, candidates, results);
            && (thresholds.Err? ==> output == Err(BadCandidates(thresholds.error)))
            && (thresholds.Ok? && !AllFinite(thresholds.value) ==> output == Err(BadThreshold))
            && (thresholds.Ok? && AllFinite(thresholds.value) ==>
                  && output == Ok(RowsOf(a, scoreKind, kind, thresholds.value, results))
                  && RowsState(a, scoreKind, kind, thresholds.value, results, output.value))
  {
    var matching := Matching(scoreKind, results);
    var ts: seq<Double>;
    if candidates.Some? {
      ts := candidates.value;
    } else {
      var derived := CandidateThresholds(a, DefinedValues(a, kind, matching));
      if derived.Err? {
        return Err(BadCandidates(derived.error));
      }
      ts := derived.value;
    }
    RowsAreStated(a, scoreKind, kind, ts, results);
    output := CollectRows(a, results, scoreKind, kind, ts, matching);
  }

  method CollectRows(a: Arithmetic, results: seq<CaseResult>, scoreKind: ScoreKind, kind: GateKind,
                     ts: seq<Double>, matching: seq<CaseResult>)
    returns (output: Result<seq<SweepRow>, SweepError>)
    requires matching == Matching(scoreKind, results)
    ensures output == if AllFinite(ts) then Ok(RowsOf(a, scoreKind, kind, ts, results))
                      else Err(BadThreshold)
  {
    var inherited := SortedIds(AbstainedCases(results));
    var undefinedMargins := SortedIds(UndefinedMargins(a, matching));
    var rows: seq<SweepRow> := [];
    for i := 0 to |ts|
      invariant AllFinite(ts[..i])
      invariant rows == RowsOf(a, scoreKind, kind, ts[..i], results)
    {
      var row := RowFor(a, Gate(scoreKind, kind, ts[i]), results, |matching|, inherited, undefinedMargins);
      if row.Err? {
        assert !Finite(ts[i]);
        return Err(row.error);
      }
      AllFiniteNext(ts, i);
      RowsOfNext(a, scoreKind, kind, ts, results, i);
      rows := rows + [row.value];
    }
    assert ts[..|ts|] == ts;
    return Ok(rows);
  }

  method RowFor(a: Arithmetic, g: Gate, results: seq<CaseResult>, affected: nat,
                inherited: seq<string>, undefinedMargins: seq<string>)
    returns (row: Result<SweepRow, SweepError>)
    requires affected == |Matching(g.scoreKind, results)|
    requires inherited == SortedIds(AbstainedCases(results))
    requires undefinedMargins == SortedIds(UndefinedMargins(a, Matching(g.scoreKind, results)))
    ensures row == if Finite(g.threshold) then Ok(RowOf(a, g, results)) else Err(BadThreshold)
  {
    var gated := SimulateGate(a, results, g);
    if gated.Err? {
      return Err(BadThreshold);
    }
    var simulated := gated.value;
    var unanswerable, answerable := Unanswerable(simulated), Answerable(simulated);
    var abstained, falseAbstentions := AbstainedCases(unanswerable), AbstainedCases(answerable);
    var aggregated := Aggregate(simulated);
    row := Ok(SweepRow(
      g, affected, inherited, if g.kind == Margin then undefinedMargins else [],
      |unanswerable|, |abstained|, Rate(|abstained|, |unanswerable|), SortedIds(AnsweredCases(unanswerable)),
      |answerable|, |falseAbstentions|, Rate(|falseAbstentions|, |answerable|),
      SortedIds(NewlyAffected(results, simulated)), aggregated));
  }
}
