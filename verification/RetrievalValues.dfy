/** The retrieval report read off the cases alone: what each of its numbers amounts to. */
module RetrievalValues {
  import opened Wrappers
  import opened Filtering
  import opened RetrievalGate
  import opened RetrievalMetrics
  import opened RetrievalSlices

  // ---- in terms of a case's fields ----

  /** The result at 0-based position j is one of the expected, at section level under an expected section. */
  predicate Relevant(level: Level, c: CaseResult, j: nat) {
    && j < |c.returnedDocumentIds| && j < |c.returnedSections|
    && c.returnedDocumentIds[j] in c.expectedDocumentIds
    && (level == Section ==> c.returnedSections[j].Some? && c.returnedSections[j].value in c.expectedSections)
  }

  predicate InPopulation(level: Level, c: CaseResult) {
    c.expectedDocumentIds != [] && (level == Section ==> c.expectedSections != [])
  }

  ghost predicate FirstRelevant(level: Level, c: CaseResult, j: nat) {
    Relevant(level, c, j) && forall i: nat | i < j :: !Relevant(level, c, i)
  }

  /** The distinct expected labels carried by the first k results. */
  ghost function Found(level: Level, c: CaseResult, k: nat): set<string> {
    set j: nat | j < k && Relevant(level, c, j) ::
      if level == Section then c.returnedSections[j].value else c.returnedDocumentIds[j]
  }

  function Labels(level: Level, c: CaseResult): seq<string> {
    match level
    case Document => c.expectedDocumentIds
    case Section => c.expectedSections
  }

  lemma RelevantIsRelevantAt(level: Level, c: CaseResult, j: nat)
    ensures Relevant(level, c, j) <==> RelevantAt(level, c, j)
  {
  }

  /** hit@k of a case: 1 when one of its first k results is relevant, 0 otherwise. */
  lemma HitScoreIs(level: Level, c: CaseResult, k: nat)
    requires Scored(level, c)
    ensures InPopulation(level, c)
    ensures Score(HitAt(k), level, c) == if exists j: nat | j < k :: Relevant(level, c, j) then 1.0 else 0.0
  {
    RankWithinIff(level, c, k);
    forall j: nat ensures Relevant(level, c, j) <==> RelevantAt(level, c, j) {
      RelevantIsRelevantAt(level, c, j);
    }
    assert (exists j: nat | j < k :: Relevant(level, c, j)) <==> exists j: nat :: j < k && RelevantAt(level, c, j);
  }

  /** rr times the rank of the first relevant result is 1; without one it is 0. */
  ghost predicate ReciprocalOf(level: Level, c: CaseResult, rr: real) {
    && (forall j: nat | FirstRelevant(level, c, j) :: rr * (j + 1) as real == 1.0)
    && ((forall j: nat :: !Relevant(level, c, j)) ==> rr == 0.0)
  }

  /** share times the number of expected labels is the number of distinct ones among the first k results. */
  ghost predicate RecallOf(level: Level, c: CaseResult, k: nat, share: real) {
    share * |Labels(level, c)| as real == |Found(level, c, k)| as real
  }

  /** The reciprocal rank of a case: 1 / (j + 1) for its first relevant position j, 0 when there is none. */
  lemma RankScoreIs(level: Level, c: CaseResult)
    requires Scored(level, c)
    ensures ReciprocalOf(level, c, Score(ReciprocalRank, level, c))
  {
    RankFromIsFirst(level, c, 0);
    forall j: nat ensures Relevant(level, c, j) <==> RelevantAt(level, c, j) {
      RelevantIsRelevantAt(level, c, j);
    }
    forall j: nat | FirstRelevant(level, c, j) ensures Score(ReciprocalRank, level, c) * (j + 1) as real == 1.0 {
      assert RankOfFirstRelevant(level, c) == Some(j + 1) by {
        RankOfFirst(level, c, j);
      }
      Inverse((j + 1) as real);
    }
  }

  lemma RankOfFirst(level: Level, c: CaseResult, j: nat)
    requires FirstRelevant(level, c, j)
    ensures RankOfFirstRelevant(level, c) == Some(j + 1)
  {
    RankFromIsFirst(level, c, 0);
    RelevantIsRelevantAt(level, c, j);
    var rank := RankOfFirstRelevant(level, c).value;
    RelevantIsRelevantAt(level, c, rank - 1);
  }

  lemma Inverse(x: real)
    requires x > 0.0
    ensures 1.0 / x * x == 1.0
  {
  }

  lemma FoundAreFoundLabels(level: Level, c: CaseResult, k: nat)
    ensures Found(level, c, k) == FoundLabels(level, c, k)
  {
    forall x | x in Found(level, c, k) ensures x in FoundLabels(level, c, k) {
      var j: nat :| j < k && Relevant(level, c, j)
                    && x == if level == Section then c.returnedSections[j].value else c.returnedDocumentIds[j];
      assert RelevantAt(level, c, j) && LabelAt(level, c, j) == x;
    }
    forall x | x in FoundLabels(level, c, k) ensures x in Found(level, c, k) {
      var j: nat :| j < |RankedPairs(c)| && j < k && RelevantAt(level, c, j) && x == LabelAt(level, c, j);
      assert Relevant(level, c, j);
    }
  }

  /** recall@k of a case: the distinct labels among its first k results, as a share of the expected ones. */
  lemma RecallScoreIs(level: Level, c: CaseResult, k: nat)
    requires Scored(level, c)
    ensures RecallOf(level, c, k, Score(RecallAt(k), level, c))
  {
    FoundAreFoundLabels(level, c, k);
    ShareTimesWhole(|Found(level, c, k)| as real, |Labels(level, c)| as real);
  }

  lemma ShareTimesWhole(part: real, whole: real)
    requires whole > 0.0
    ensures part / whole * whole == part
  {
  }

  // ---- a level of the report ----

  function RealSum(values: seq<real>): real {
    if values == [] then 0.0 else RealSum(values[..|values| - 1]) + values[|values| - 1]
  }

  /** The four scores of a scored case; a case outside the population scores nothing. */
  ghost predicate CaseScores(level: Level, c: CaseResult, hit1: real, hit3: real, rr: real, recall5: real) {
    if !InPopulation(level, c) then hit1 == hit3 == rr == recall5 == 0.0
    else
      && hit1 == (if Relevant(level, c, 0) then 1.0 else 0.0)
      && hit3 == (if Relevant(level, c, 0) || Relevant(level, c, 1) || Relevant(level, c, 2) then 1.0 else 0.0)
      && ReciprocalOf(level, c, rr)
      && RecallOf(level, c, 5, recall5)
  }

  datatype Scores = Scores(hit1: seq<real>, hit3: seq<real>, rr: seq<real>, recall5: seq<real>)

  ghost predicate ScoresOf(level: Level, cases: seq<CaseResult>, x: Scores) {
    && |x.hit1| == |x.hit3| == |x.rr| == |x.recall5| == |cases|
    && forall i | 0 <= i < |cases| :: CaseScores(level, cases[i], x.hit1[i], x.hit3[i], x.rr[i], x.recall5[i])
  }

  ghost function Population(level: Level, cases: seq<CaseResult>): nat {
    |Populated(level, cases)|
  }

  /** The positions of the cases that count at this level. */
  ghost function Populated(level: Level, cases: seq<CaseResult>): set<int> {
    set i | 0 <= i < |cases| && InPopulation(level, cases[i])
  }

  /** Each metric is the mean of its scores over the population, and 0 on an empty one. */
  ghost predicate LevelStates(level: Level, cases: seq<CaseResult>, m: LevelMetrics) {
    var n := Population(level, cases);
    && (exists x :: ScoresOf(level, cases, x) && MeansOf(n, x, m))
    && m.excludedCaseCount ==
         if level == Section then Some(Population(Document, cases) - Population(Section, cases)) else None
  }

  ghost predicate MeansOf(n: nat, x: Scores, m: LevelMetrics) {
    && IsMean(m.hitAt1, n, RealSum(x.hit1))
    && IsMean(m.hitAt3, n, RealSum(x.hit3))
    && IsMean(m.mrr, n, RealSum(x.rr))
    && IsMean(m.recallAt5, n, RealSum(x.recall5))
  }

  predicate IsMean(mean: real, n: nat, sum: real) {
    mean * n as real == sum && (n == 0 ==> mean == 0.0)
  }

  // ---- that the report is so ----

  function ScoreOr0(m: Metric, level: Level): CaseResult -> real {
    (c: CaseResult) => if Scored(level, c) then Score(m, level, c) else 0.0
  }

  lemma PopulationIsScored(level: Level, cases: seq<CaseResult>)
    ensures Population(level, cases) == |ScoredCases(level, cases)|
  {
    CountPositions(ScoredAt(level), cases);
    assert Populated(level, cases) == Positions(ScoredAt(level), cases);
  }

  lemma {:induction false} TotalIsSum(m: Metric, level: Level, cases: seq<CaseResult>)
    ensures RealSum(Map(ScoreOr0(m, level), cases)) == Total(m, level, ScoredCases(level, cases))
  {
    if cases != [] {
      var last := |cases| - 1;
      TotalIsSum(m, level, cases[..last]);
      ScoredNext(m, level, cases);
      MapNext(ScoreOr0(m, level), cases, last);
      assert cases[..last + 1] == cases;
    }
  }

  lemma MeanTimesPopulation(m: Metric, level: Level, cases: seq<CaseResult>)
    ensures IsMean(Mean(m, level, cases), Population(level, cases), RealSum(Map(ScoreOr0(m, level), cases)))
  {
    PopulationIsScored(level, cases);
    TotalIsSum(m, level, cases);
    AverageIsMean(Total(m, level, ScoredCases(level, cases)), |ScoredCases(level, cases)|);
  }

  lemma AverageIsMean(total: real, n: nat)
    requires n == 0 ==> total == 0.0
    ensures IsMean(Average(total, n), n, total)
  {
    if n > 0 {
      ShareTimesWhole(total, n as real);
    }
  }

  lemma HitOne(level: Level, c: CaseResult)
    requires Scored(level, c)
    ensures Score(HitAt(1), level, c) == if Relevant(level, c, 0) then 1.0 else 0.0
  {
    HitScoreIs(level, c, 1);
  }

  lemma HitThree(level: Level, c: CaseResult)
    requires Scored(level, c)
    ensures Score(HitAt(3), level, c)
            == if Relevant(level, c, 0) || Relevant(level, c, 1) || Relevant(level, c, 2) then 1.0 else 0.0
  {
    HitScoreIs(level, c, 3);
    assert (exists j: nat | j < 3 :: Relevant(level, c, j))
           <==> Relevant(level, c, 0) || Relevant(level, c, 1) || Relevant(level, c, 2);
  }

  lemma CaseScoresAre(level: Level, c: CaseResult)
    ensures CaseScores(level, c, ScoreOr0(HitAt(1), level)(c), ScoreOr0(HitAt(3), level)(c),
                       ScoreOr0(ReciprocalRank, level)(c), ScoreOr0(RecallAt(5), level)(c))
  {
    if Scored(level, c) {
      HitOne(level, c);
      HitThree(level, c);
      RankScoreIs(level, c);
      RecallScoreIs(level, c, 5);
    }
  }

  function LevelScores(level: Level, cases: seq<CaseResult>): Scores {
    Scores(Map(ScoreOr0(HitAt(1), level), cases), Map(ScoreOr0(HitAt(3), level), cases),
           Map(ScoreOr0(ReciprocalRank, level), cases), Map(ScoreOr0(RecallAt(5), level), cases))
  }

  lemma LevelScoresAre(level: Level, cases: seq<CaseResult>)
    ensures ScoresOf(level, cases, LevelScores(level, cases))
  {
    var x := LevelScores(level, cases);
    forall i | 0 <= i < |cases|
      ensures CaseScores(level, cases[i], x.hit1[i], x.hit3[i], x.rr[i], x.recall5[i])
    {
      CaseScoresAre(level, cases[i]);
    }
  }

  lemma LevelMeansAre(level: Level, cases: seq<CaseResult>)
    ensures MeansOf(Population(level, cases), LevelScores(level, cases), MetricsAt(level, cases))
  {
    MeanTimesPopulation(HitAt(1), level, cases);
    MeanTimesPopulation(HitAt(3), level, cases);
    MeanTimesPopulation(ReciprocalRank, level, cases);
    MeanTimesPopulation(RecallAt(5), level, cases);
  }

  lemma ExclusionsAre(level: Level, cases: seq<CaseResult>)
    ensures MetricsAt(level, cases).excludedCaseCount
            == if level == Section then Some(Population(Document, cases) - Population(Section, cases)) else None
  {
    PopulationIsScored(Document, cases);
    PopulationIsScored(Section, cases);
  }

  /** Every number of a level of the report, in terms of the cases. */
  lemma LevelStated(level: Level, cases: seq<CaseResult>)
    ensures LevelStates(level, cases, MetricsAt(level, cases))
  {
    var x, m, n := LevelScores(level, cases), MetricsAt(level, cases), Population(level, cases);
    assert ScoresOf(level, cases, x) && MeansOf(n, x, m) by {
      LevelScoresAre(level, cases);
      LevelMeansAre(level, cases);
    }
    ExclusionsAre(level, cases);
  }

  // ---- the whole report ----

  function AsksAnswerably(probe: string): CaseResult -> bool {
    (c: CaseResult) => c.expectedDocumentIds != [] && c.probe == probe
  }

  /** Overall numbers from all cases; one slice for each probe of an answerable case, from its answerable cases. */
  ghost predicate ReportStates(results: seq<CaseResult>, report: Aggregated) {
    && LevelStates(Document, results, report.documentLevel)
    && LevelStates(Section, results, report.sectionLevel)
    && forall p :: SliceStates(results, report, p)
  }

  /** The positions of the answerable cases of this probe. */
  ghost function Asking(results: seq<CaseResult>, p: string): set<int> {
    set i | 0 <= i < |results| && results[i].expectedDocumentIds != [] && results[i].probe == p
  }

  ghost predicate SliceStates(results: seq<CaseResult>, report: Aggregated, p: string) {
    var cases := Filter(AsksAnswerably(p), results);
    && (p in report.byProbe <==> Asking(results, p) != {})
    && (p in report.byProbe ==>
          && report.byProbe[p].caseCount == |Asking(results, p)|
          && LevelStates(Document, cases, report.byProbe[p].documentLevel)
          && LevelStates(Section, cases, report.byProbe[p].sectionLevel))
  }

  /** The aggregated report, number by number. */
  lemma ReportStated(results: seq<CaseResult>)
    ensures ReportStates(results, AggregateReport(results))
  {
    LevelStated(Document, results);
    LevelStated(Section, results);
    forall p ensures SliceStates(results, AggregateReport(results), p) {
      SliceStated(results, p);
    }
  }

  lemma SliceStated(results: seq<CaseResult>, p: string)
    ensures SliceStates(results, AggregateReport(results), p)
  {
    var cases := Filter(AsksAnswerably(p), results);
    SliceNames(results, p);
    SliceIs(results, p);
    AskingCount(results, p);
    LevelStated(Document, cases);
    LevelStated(Section, cases);
  }

  lemma SliceIs(results: seq<CaseResult>, p: string)
    ensures p in AggregateReport(results).byProbe ==>
              AggregateReport(results).byProbe[p] == SliceOf(Filter(AsksAnswerably(p), results))
  {
    CountNested(ScoredAt(Document), Asks(p), AsksAnswerably(p), results);
    TabulateAt(ProbeNames(results), SliceFor(ScoredCases(Document, results)), p);
  }

  lemma TabulateAt<V>(names: seq<string>, f: string -> V, name: string)
    ensures name in Tabulate(names, f) <==> name in names
    ensures name in names ==> Tabulate(names, f)[name] == f(name)
  {
  }

  lemma AskingCount(results: seq<CaseResult>, p: string)
    ensures |Filter(AsksAnswerably(p), results)| == |Asking(results, p)|
  {
    CountPositions(AsksAnswerably(p), results);
    assert Asking(results, p) == Positions(AsksAnswerably(p), results);
  }

  lemma ScoredAsksAnswerably(results: seq<CaseResult>, p: string)
    ensures (exists c | c in ScoredCases(Document, results) :: c.probe == p)
            <==> exists c | c in results :: AsksAnswerably(p)(c)
  {
    forall c ensures c in ScoredCases(Document, results) <==> c in results && c.expectedDocumentIds != [] {
      FilterMembers(ScoredAt(Document), results, c);
    }
  }

  lemma MemberPosition(results: seq<CaseResult>, p: string)
    ensures (exists c | c in results :: AsksAnswerably(p)(c)) <==> Asking(results, p) != {}
  {
    if c :| c in results && AsksAnswerably(p)(c) {
      var i :| 0 <= i < |results| && results[i] == c;
      assert i in Asking(results, p);
    }
    if i :| i in Asking(results, p) {
      assert results[i] in results && AsksAnswerably(p)(results[i]);
    }
  }

  lemma NamesAreProbes(results: seq<CaseResult>, p: string)
    ensures p in ProbeNames(results) <==> exists c | c in ScoredCases(Document, results) :: c.probe == p
  {
    ProbeNamesCover(results);
  }

  lemma SliceNames(results: seq<CaseResult>, p: string)
    ensures p in AggregateReport(results).byProbe <==> Asking(results, p) != {}
  {
    assert p in AggregateReport(results).byProbe <==> p in ProbeNames(results) by {
      TabulateAt(ProbeNames(results), SliceFor(ScoredCases(Document, results)), p);
    }
    assert p in ProbeNames(results) <==> Asking(results, p) != {} by {
      NamesAreProbes(results, p);
      ScoredAsksAnswerably(results, p);
      MemberPosition(results, p);
    }
  }

  method Aggregate(results: seq<CaseResult>) returns (report: Aggregated)
    ensures report == AggregateReport(results)
    ensures ReportStates(results, report)
  {
    var byProbe := SliceByProbe(ScoredCases(Document, results), ProbeNames(results));
    ReportStated(results);
    report := Aggregated(MetricsAt(Document, results), MetricsAt(Section, results), byProbe);
  }
}
