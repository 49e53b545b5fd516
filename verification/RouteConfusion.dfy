/** Confusion-matrix accounting of the routing evaluator; rates are exact, before `round(..., 4)`. */
module RouteConfusion {
  import opened Wrappers
  import opened Filtering

  /** A route name: one of the three in the vocabulary, or any other string. */
  datatype RouteName = NoAction | DirectPlan | RetrieveRag | Other(name: string)

  const ROUTE_NAMES: seq<RouteName> := [NoAction, DirectPlan, RetrieveRag]

  const MISSING_ROUTE := Other("MISSING")
  const MISSING_ACTIONABILITY := "missing"

  datatype CaseResult = CaseResult(
    caseId: string,
    expectedActionability: string,
    predictedActionability: string,
    expectedRoute: RouteName,
    predictedRoute: RouteName)

  type Matrix = map<RouteName, map<RouteName, nat>>

  predicate Known(route: RouteName) {
    !route.Other?
  }

  // ---- results per case ----

  datatype FixtureCase = FixtureCase(id: string, actionability: string, route: RouteName)

  /** A classified message with its resolved route. */
  datatype Decision = Decision(messageId: string, actionability: string, route: RouteName)

  function DecisionById(decisions: seq<Decision>): map<string, Decision> {
    if decisions == [] then map[]
    else
      var last := decisions[|decisions| - 1];
      DecisionById(decisions[..|decisions| - 1])[last.messageId := last]
  }

  function ResultFor(c: FixtureCase, byId: map<string, Decision>): CaseResult {
    if c.id in byId
    then CaseResult(c.id, c.actionability, byId[c.id].actionability, c.route, byId[c.id].route)
    else CaseResult(c.id, c.actionability, MISSING_ACTIONABILITY, c.route, MISSING_ROUTE)
  }

  function ResultsFor(cases: seq<FixtureCase>, decisions: seq<Decision>): seq<CaseResult> {
    seq(|cases|, i requires 0 <= i < |cases| => ResultFor(cases[i], DecisionById(decisions)))
  }

  method Evaluate(cases: seq<FixtureCase>, decisions: seq<Decision>) returns (results: seq<CaseResult>)
    ensures results == ResultsFor(cases, decisions)
    ensures forall i | 0 <= i < |cases| :: ResultStates(cases[i], decisions, results[i])
  {
    var byId := DecisionById(decisions);
    results := [];
    for i := 0 to |cases|
      invariant results == ResultsFor(cases[..i], decisions)
    {
      var c := cases[i];
      if c.id !in byId {
        results := results + [CaseResult(c.id, c.actionability, MISSING_ACTIONABILITY, c.route, MISSING_ROUTE)];
      } else {
        var decision := byId[c.id];
        results := results + [CaseResult(c.id, c.actionability, decision.actionability, c.route, decision.route)];
      }
    }
    assert cases[..|cases|] == cases;
    forall i | 0 <= i < |cases| ensures ResultStates(cases[i], decisions, results[i]) {
      ResultIs(cases[i], decisions);
    }
  }

  ghost predicate LastFor(decisions: seq<Decision>, k: int, id: string) {
    && 0 <= k < |decisions| && decisions[k].messageId == id
    && forall j | k < j < |decisions| :: decisions[j].messageId != id
  }

  /** The case's labels beside what the last decision about it said, or beside the two words for no decision. */
  ghost predicate ResultStates(c: FixtureCase, decisions: seq<Decision>, r: CaseResult) {
    && r.caseId == c.id && r.expectedActionability == c.actionability && r.expectedRoute == c.route
    && (forall k | LastFor(decisions, k, c.id) ::
          r.predictedActionability == decisions[k].actionability && r.predictedRoute == decisions[k].route)
    && ((forall d | d in decisions :: d.messageId != c.id) ==>
          r.predictedActionability == "missing" && r.predictedRoute == Other("MISSING"))
  }

  lemma ResultIs(c: FixtureCase, decisions: seq<Decision>)
    ensures ResultStates(c, decisions, ResultFor(c, DecisionById(decisions)))
  {
    DecisionByIdMembers(decisions, c.id);
    forall k | LastFor(decisions, k, c.id) ensures c.id in DecisionById(decisions) && DecisionById(decisions)[c.id] == decisions[k] {
      assert decisions[k] in decisions;
      LastDecisionStands(decisions, c.id);
    }
  }

  lemma {:induction false} DecisionByIdMembers(decisions: seq<Decision>, id: string)
    ensures id in DecisionById(decisions) <==> exists d | d in decisions :: d.messageId == id
    ensures id in DecisionById(decisions) ==> DecisionById(decisions)[id] in decisions
  {
    if decisions != [] {
      var front, last := decisions[..|decisions| - 1], decisions[|decisions| - 1];
      DecisionByIdMembers(front, id);
      assert decisions == front + [last] && last in decisions;
    }
  }

  /** Of several decisions for one message the last one stands. */
  lemma {:induction false} LastDecisionStands(decisions: seq<Decision>, id: string)
    requires id in DecisionById(decisions)
    ensures exists k | 0 <= k < |decisions| ::
              && decisions[k].messageId == id && DecisionById(decisions)[id] == decisions[k]
              && forall j | k < j < |decisions| :: decisions[j].messageId != id
  {
    var last := |decisions| - 1;
    if decisions[last].messageId == id {
      assert DecisionById(decisions)[id] == decisions[last];
    } else {
      LastDecisionStands(decisions[..last], id);
      var k :| 0 <= k < last && decisions[..last][k].messageId == id
               && DecisionById(decisions[..last])[id] == decisions[..last][k]
               && forall j | k < j < last :: decisions[..last][j].messageId != id;
      assert decisions[k] == decisions[..last][k];
      forall j | k < j < |decisions| ensures decisions[j].messageId != id {
        assert j < last ==> decisions[..last][j] == decisions[j];
      }
    }
  }

  // ---- counting by selection ----

  function Cell(expected: RouteName, predicted: RouteName): CaseResult -> bool {
    (c: CaseResult) => c.expectedRoute == expected && c.predictedRoute == predicted
  }

  /** Expected as this route, predicted as any known one: the cases of the route's row. */
  function InRow(route: RouteName): CaseResult -> bool {
    (c: CaseResult) => c.expectedRoute == route && Known(c.predictedRoute)
  }

  function InColumn(route: RouteName): CaseResult -> bool {
    (c: CaseResult) => Known(c.expectedRoute) && c.predictedRoute == route
  }

  predicate InVocabulary(c: CaseResult) {
    Known(c.expectedRoute) && Known(c.predictedRoute)
  }

  predicate OutOfVocabulary(c: CaseResult) {
    !InVocabulary(c)
  }

  predicate ExpectsRetrieval(c: CaseResult) {
    c.expectedRoute == RetrieveRag
  }

  /** Labelled for retrieval, routed elsewhere. */
  predicate Missed(c: CaseResult) {
    c.expectedRoute == RetrieveRag && c.predictedRoute != RetrieveRag
  }

  /** Labelled for retrieval, routed to no known route. */
  predicate LostRetrieval(c: CaseResult) {
    c.expectedRoute == RetrieveRag && !Known(c.predictedRoute)
  }

  /** Exactly the known routes index the matrix, rows and columns alike. */
  ghost predicate Square(m: Matrix) {
    forall e, p :: (e in m <==> Known(e)) && (e in m ==> (p in m[e] <==> Known(p)))
  }

  function At(m: Matrix, expected: RouteName, predicted: RouteName): nat {
    if expected in m && predicted in m[expected] then m[expected][predicted] else 0
  }

  /** Every cell counts the cases with its label and its prediction. */
  ghost predicate Confusion(m: Matrix, results: seq<CaseResult>) {
    Square(m) && forall e, p | Known(e) && Known(p) :: At(m, e, p) == Count(Cell(e, p), results)
  }

  method ConfusionMatrix(results: seq<CaseResult>) returns (counts: Matrix)
    ensures Confusion(counts, results)
  {
    counts := ZeroMatrix();
    for i := 0 to |results|
      invariant Confusion(counts, results[..i])
    {
      var c := results[i];
      ghost var before := counts;
      if c.expectedRoute in counts && c.predictedRoute in counts[c.expectedRoute] {
        var row := counts[c.expectedRoute];
        counts := counts[c.expectedRoute := row[c.predictedRoute := row[c.predictedRoute] + 1]];
      }
      ghost var prefix := results[..i + 1];
      forall e, p | Known(e) && Known(p) ensures At(counts, e, p) == Count(Cell(e, p), prefix) {
        FilterNext(Cell(e, p), results, i);
        assert At(before, e, p) == Count(Cell(e, p), results[..i]);
      }
    }
    assert results[..|results|] == results;
  }

  method ZeroMatrix() returns (counts: Matrix)
    ensures Confusion(counts, [])
  {
    var zeros := map[NoAction := 0, DirectPlan := 0, RetrieveRag := 0];
    counts := map[NoAction := zeros, DirectPlan := zeros, RetrieveRag := zeros];
  }

  // ---- precision and recall ----

  function RowTotal(m: Matrix, route: RouteName): nat {
    At(m, route, NoAction) + At(m, route, DirectPlan) + At(m, route, RetrieveRag)
  }

  function ColumnTotal(m: Matrix, route: RouteName): nat {
    At(m, NoAction, route) + At(m, DirectPlan, route) + At(m, RetrieveRag, route)
  }

  function Ratio(part: nat, whole: nat): Option<real> {
    if whole == 0 then None else Some(part as real / whole as real)
  }

  function Recall(m: Matrix, route: RouteName): Option<real> {
    Ratio(At(m, route, route), RowTotal(m, route))
  }

  function Precision(m: Matrix, route: RouteName): Option<real> {
    Ratio(At(m, route, route), ColumnTotal(m, route))
  }

  method PrecisionRecall(m: Matrix) returns (precision: map<RouteName, Option<real>>, recall: map<RouteName, Option<real>>)
    requires Square(m)
    ensures forall r :: (r in precision <==> Known(r)) && (r in precision ==> precision[r] == Precision(m, r))
    ensures forall r :: (r in recall <==> Known(r)) && (r in recall ==> recall[r] == Recall(m, r))
    ensures forall r | Known(r) :: RatesState(m, r, precision[r], recall[r])
  {
    precision, recall := map[], map[];
    for i := 0 to |ROUTE_NAMES|
      invariant forall r :: (r in precision <==> r in ROUTE_NAMES[..i]) && (r in precision ==> precision[r] == Precision(m, r))
      invariant forall r :: (r in recall <==> r in ROUTE_NAMES[..i]) && (r in recall ==> recall[r] == Recall(m, r))
    {
      var route := ROUTE_NAMES[i];
      var predictedTotal, expectedTotal, correct := ColumnTotal(m, route), RowTotal(m, route), At(m, route, route);
      precision := precision[route := Ratio(correct, predictedTotal)];
      recall := recall[route := Ratio(correct, expectedTotal)];
    }
    VocabularyIsKnown();
    forall r | Known(r) ensures RatesState(m, r, Precision(m, r), Recall(m, r)) {
      RatesAre(m, r);
    }
  }

  /** The diagonal over the column, and over the row. */
  ghost predicate RatesState(m: Matrix, r: RouteName, precision: Option<real>, recall: Option<real>)
    requires Square(m) && Known(r)
  {
    && IsRatio(precision, m[r][r], m[NoAction][r] + m[DirectPlan][r] + m[RetrieveRag][r])
    && IsRatio(recall, m[r][r], m[r][NoAction] + m[r][DirectPlan] + m[r][RetrieveRag])
  }

  lemma RatesAre(m: Matrix, r: RouteName)
    requires Square(m) && Known(r)
    ensures RatesState(m, r, Precision(m, r), Recall(m, r))
  {
    RatioIs(At(m, r, r), ColumnTotal(m, r));
    RatioIs(At(m, r, r), RowTotal(m, r));
  }

  /** Absent without a case to divide by; otherwise what times `whole` gives `part`. */
  predicate IsRatio(rate: Option<real>, part: nat, whole: nat) {
    && (rate.None? <==> whole == 0)
    && (rate.Some? ==> rate.value * whole as real == part as real)
  }

  lemma RatioIs(part: nat, whole: nat)
    ensures IsRatio(Ratio(part, whole), part, whole)
  {
    if whole > 0 {
      QuotientTimes(part as real, whole as real);
    }
  }

  lemma QuotientTimes(part: real, whole: real)
    requires whole != 0.0
    ensures part / whole * whole == part
  {
  }

  /** Precision and recall of a route, over the cases themselves. */
  lemma RatesOfCases(m: Matrix, results: seq<CaseResult>, route: RouteName)
    requires Confusion(m, results) && Known(route)
    ensures IsRatio(Precision(m, route), |Positions(Cell(route, route), results)|, |Positions(InColumn(route), results)|)
    ensures IsRatio(Recall(m, route), |Positions(Cell(route, route), results)|, |Positions(InRow(route), results)|)
  {
    RowsAndColumns(m, results, route);
    CountPositions(Cell(route, route), results);
    CountPositions(InColumn(route), results);
    CountPositions(InRow(route), results);
    RatioIs(At(m, route, route), ColumnTotal(m, route));
    RatioIs(At(m, route, route), RowTotal(m, route));
  }

  lemma VocabularyIsKnown()
    ensures forall r :: r in ROUTE_NAMES[..|ROUTE_NAMES|] <==> Known(r)
  {
    assert ROUTE_NAMES[..|ROUTE_NAMES|] == ROUTE_NAMES;
    assert ROUTE_NAMES[0] == NoAction && ROUTE_NAMES[1] == DirectPlan && ROUTE_NAMES[2] == RetrieveRag;
  }

  // ---- accounting ----

  /** A row counts the cases with that label and a known prediction; a column likewise. */
  lemma RowsAndColumns(m: Matrix, results: seq<CaseResult>, route: RouteName)
    requires Confusion(m, results) && Known(route)
    ensures RowTotal(m, route) == Count(InRow(route), results)
    ensures ColumnTotal(m, route) == Count(InColumn(route), results)
  {
    CountThree(Cell(route, NoAction), Cell(route, DirectPlan), Cell(route, RetrieveRag), InRow(route), results);
    CountThree(Cell(NoAction, route), Cell(DirectPlan, route), Cell(RetrieveRag, route), InColumn(route), results);
  }

  lemma CountThree<T>(p: T -> bool, q: T -> bool, r: T -> bool, any: T -> bool, s: seq<T>)
    requires forall x | x in s :: any(x) <==> p(x) || q(x) || r(x)
    requires forall x | x in s :: !(p(x) && q(x)) && !(p(x) && r(x)) && !(q(x) && r(x))
    ensures Count(p, s) + Count(q, s) + Count(r, s) == Count(any, s)
  {
    var either := (x: T) => p(x) || q(x);
    CountUnion(p, q, either, s);
    CountUnion(either, r, any, s);
  }

  function MatrixTotal(m: Matrix): nat {
    RowTotal(m, NoAction) + RowTotal(m, DirectPlan) + RowTotal(m, RetrieveRag)
  }

  /** What the matrix holds and what it cannot place make up all results. */
  lemma MatrixTotalPlusUnknown(m: Matrix, results: seq<CaseResult>)
    requires Confusion(m, results)
    ensures MatrixTotal(m) + Count(OutOfVocabulary, results) == |results|
  {
    RowsAndColumns(m, results, NoAction);
    RowsAndColumns(m, results, DirectPlan);
    RowsAndColumns(m, results, RetrieveRag);
    CountThree(InRow(NoAction), InRow(DirectPlan), InRow(RetrieveRag), InVocabulary, results);
    var all := (c: CaseResult) => true;
    CountUnion(InVocabulary, OutOfVocabulary, all, results);
    CountAll(all, results);
  }

  // ---- missed retrievals ----

  datatype FalseNegatives = FalseNegatives(count: nat, rate: Option<real>, caseIds: seq<string>)

  function Ids(results: seq<CaseResult>): seq<string> {
    seq(|results|, i requires 0 <= i < |results| => results[i].caseId)
  }

  predicate NotRouted(c: CaseResult) {
    c.predictedRoute != RetrieveRag
  }

  function FalseNegativeRetrieval(results: seq<CaseResult>): FalseNegatives {
    var expected := Filter(ExpectsRetrieval, results);
    var missed := Ids(Filter(NotRouted, expected));
    FalseNegatives(|missed|, Ratio(|missed|, |expected|), missed)
  }

  /** The case ids at these positions of the results. */
  predicate IdsAt(ids: seq<string>, results: seq<CaseResult>, at: seq<int>) {
    |ids| == |at| && forall k | 0 <= k < |at| :: 0 <= at[k] < |results| && ids[k] == results[at[k]].caseId
  }

  ghost predicate MissedStated(fn: FalseNegatives, results: seq<CaseResult>) {
    && (exists at :: Selects(at, Missed, results) && IdsAt(fn.caseIds, results, at))
    && fn.count == |Positions(Missed, results)|
    && IsRatio(fn.rate, |Positions(Missed, results)|, |Positions(ExpectsRetrieval, results)|)
  }

  /** The missed retrievals: each case labelled for retrieval and routed elsewhere, by id and in the order of the results. */
  lemma MissedAre(results: seq<CaseResult>)
    ensures MissedStated(FalseNegativeRetrieval(results), results)
  {
    CountNested(ExpectsRetrieval, NotRouted, Missed, results);
    var at := FilterSelects(Missed, results);
    assert IdsAt(FalseNegativeRetrieval(results).caseIds, results, at);
    CountPositions(Missed, results);
    CountPositions(ExpectsRetrieval, results);
    RatioIs(Count(Missed, results), Count(ExpectsRetrieval, results));
  }

  /** Missed retrievals are what the matrix shows off its diagonal plus what it does not show at all. */
  lemma MissedAccounting(m: Matrix, results: seq<CaseResult>)
    requires Confusion(m, results)
    ensures var fn := FalseNegativeRetrieval(results);
            && fn.caseIds == Ids(Filter(Missed, results))
            && fn.count == RowTotal(m, RetrieveRag) - At(m, RetrieveRag, RetrieveRag) + Count(LostRetrieval, results)
            && Count(ExpectsRetrieval, results) == RowTotal(m, RetrieveRag) + Count(LostRetrieval, results)
  {
    CountNested(ExpectsRetrieval, NotRouted, Missed, results);
    RowsAndColumns(m, results, RetrieveRag);
    CountUnion(InRow(RetrieveRag), LostRetrieval, ExpectsRetrieval, results);
    CountUnion(Missed, Cell(RetrieveRag, RetrieveRag), ExpectsRetrieval, results);
  }

  /**
   The miss rate is at least the recall's complement. The two agree exactly when no retrieval case left the
   vocabulary, or none was routed correctly.
   */
  lemma MissRateVersusRecall(m: Matrix, results: seq<CaseResult>)
    requires Confusion(m, results) && RowTotal(m, RetrieveRag) > 0
    ensures var rate, recall := FalseNegativeRetrieval(results).rate, Recall(m, RetrieveRag);
            && rate.Some? && recall.Some?
            && rate.value >= 1.0 - recall.value
            && (rate.value == 1.0 - recall.value <==> Count(LostRetrieval, results) == 0 || At(m, RetrieveRag, RetrieveRag) == 0)
  {
    MissedAccounting(m, results);
    var fn := FalseNegativeRetrieval(results);
    var correct, row, lost := At(m, RetrieveRag, RetrieveRag), RowTotal(m, RetrieveRag), Count(LostRetrieval, results);
    RatesCompared(correct, row, lost, fn.rate, Recall(m, RetrieveRag));
  }

  lemma RatesCompared(correct: nat, row: nat, lost: nat, rate: Option<real>, recall: Option<real>)
    requires row > 0 && correct <= row
    requires rate == Ratio(row - correct + lost, row + lost) && recall == Ratio(correct, row)
    ensures rate.Some? && recall.Some? && rate.value >= 1.0 - recall.value
    ensures rate.value == 1.0 - recall.value <==> lost == 0 || correct == 0
  {
    var d, r, n := correct as real, row as real, (row + lost) as real;
    ComplementShare(d, n);
    assert (row - correct + lost) as real == n - d;
    if correct > 0 && lost > 0 {
      SmallerShare(d, r, n);
    }
  }

  lemma ComplementShare(part: real, whole: real)
    requires whole > 0.0
    ensures (whole - part) / whole == 1.0 - part / whole
  {
    assert whole / whole == 1.0;
    assert (whole - part) / whole == whole / whole - part / whole;
  }

  lemma SmallerShare(part: real, small: real, large: real)
    requires part > 0.0 && 0.0 < small < large
    ensures part / large < part / small
  {
    var q := part / large;
    assert q * large == part;
    assert q > 0.0;
    assert q * small < q * large;
    assert q * small / small == q;
  }

  /** A row without a single known prediction has no recall, yet counts as missed altogether. */
  lemma EmptyRowIsAllMissed(m: Matrix, results: seq<CaseResult>)
    requires Confusion(m, results) && RowTotal(m, RetrieveRag) == 0 && Count(ExpectsRetrieval, results) > 0
    ensures Recall(m, RetrieveRag).None?
    ensures FalseNegativeRetrieval(results).rate == Some(1.0)
  {
    var fn := FalseNegativeRetrieval(results);
    assert fn.count == Count(ExpectsRetrieval, results) by {
      MissedAccounting(m, results);
    }
    WholeShare(fn.count);
  }

  lemma WholeShare(n: nat)
    requires n > 0
    ensures Ratio(n, n) == Some(1.0)
  {
    var whole := n as real;
    assert whole / whole == 1.0;
  }

  // ---- what falls outside the matrix ----

  function Undecided(decisions: seq<Decision>): FixtureCase -> bool {
    (c: FixtureCase) => forall d | d in decisions :: d.messageId != c.id
  }

  /** When labels and resolved routes are all known, the matrix misses exactly the cases without a decision. */
  lemma {:induction false} OnlyMissingDecisionsFallOutside(cases: seq<FixtureCase>, decisions: seq<Decision>)
    requires forall c | c in cases :: Known(c.route)
    requires forall d | d in decisions :: Known(d.route)
    ensures Count(OutOfVocabulary, ResultsFor(cases, decisions)) == Count(Undecided(decisions), cases)
  {
    if cases != [] {
      var front, last := cases[..|cases| - 1], cases[|cases| - 1];
      OnlyMissingDecisionsFallOutside(front, decisions);
      DecisionByIdMembers(decisions, last.id);
      assert ResultsFor(cases, decisions)[..|cases| - 1] == ResultsFor(front, decisions);
      assert last in cases;
      assert OutOfVocabulary(ResultFor(last, DecisionById(decisions))) <==> Undecided(decisions)(last);
    }
  }
}
