/** The aggregate retrieval report and its slices by probe type. */
module RetrievalSlices {
  import opened Wrappers
  import opened RetrievalGate
  import opened RetrievalMetrics
  import opened Filtering
  import Ordering

  datatype LevelMetrics = LevelMetrics(
    hitAt1: real,
    hitAt3: real,
    mrr: real,
    recallAt5: real,
    excludedCaseCount: Option<int>)

  datatype Slice = Slice(caseCount: nat, documentLevel: LevelMetrics, sectionLevel: LevelMetrics)

  datatype Aggregated = Aggregated(documentLevel: LevelMetrics, sectionLevel: LevelMetrics, byProbe: map<string, Slice>)

  function ExcludedCaseCount(results: seq<CaseResult>): int {
    |ScoredCases(Document, results)| - |ScoredCases(Section, results)|
  }

  function MetricsAt(level: Level, results: seq<CaseResult>): LevelMetrics {
    LevelMetrics(
      Mean(HitAt(1), level, results),
      Mean(HitAt(3), level, results),
      Mean(ReciprocalRank, level, results),
      Mean(RecallAt(5), level, results),
      if level == Section then Some(ExcludedCaseCount(results)) else None)
  }

  function Asks(probe: string): CaseResult -> bool {
    (c: CaseResult) => c.probe == probe
  }

  function OfProbe(probe: string, cases: seq<CaseResult>): seq<CaseResult> {
    Filter(Asks(probe), cases)
  }

  function SliceOf(subset: seq<CaseResult>): Slice {
    Slice(|subset|, MetricsAt(Document, subset), MetricsAt(Section, subset))
  }

  /** The probe types of the answerable cases, in report order. */
  function ProbeNames(results: seq<CaseResult>): seq<string> {
    Ordering.SortedSet(Ordering.StringLe, ProbesOf(ScoredCases(Document, results)))
  }

  function ProbesOf(cases: seq<CaseResult>): seq<string> {
    seq(|cases|, i requires 0 <= i < |cases| => cases[i].probe)
  }

  function AggregateReport(results: seq<CaseResult>): Aggregated {
    Aggregated(
      MetricsAt(Document, results),
      MetricsAt(Section, results),
      Tabulate(ProbeNames(results), SliceFor(ScoredCases(Document, results))))
  }

  function SliceFor(answerable: seq<CaseResult>): string -> Slice {
    (probe: string) => SliceOf(OfProbe(probe, answerable))
  }

  /** `{name: f(name) for name in names}` */
  function Tabulate<V>(names: seq<string>, f: string -> V): map<string, V> {
    map name | name in names :: f(name)
  }

  lemma TabulateNext<V>(names: seq<string>, f: string -> V, i: nat)
    requires i < |names|
    ensures Tabulate(names[..i + 1], f) == Tabulate(names[..i], f)[names[i] := f(names[i])]
  {
  }

  method SliceByProbe(answerable: seq<CaseResult>, names: seq<string>) returns (byProbe: map<string, Slice>)
    ensures byProbe == Tabulate(names, SliceFor(answerable))
  {
    byProbe := map[];
    for i := 0 to |names|
      invariant byProbe == Tabulate(names[..i], SliceFor(answerable))
    {
      var subset := OfProbe(names[i], answerable);
      TabulateNext(names, SliceFor(answerable), i);
      byProbe := byProbe[names[i] := SliceOf(subset)];
    }
    assert names[..|names|] == names;
  }

  // ---- additive quantities over cases ----

  datatype Measure = MetricTotal(m: Metric, level: Level) | ScoredCount(level: Level)

  function Contribution(q: Measure, c: CaseResult): real {
    if !Scored(q.level, c) then 0.0
    else match q
      case MetricTotal(m, level) => Score(m, level, c)
      case ScoredCount(_) => 1.0
  }

  function Sum(q: Measure, cases: seq<CaseResult>): real {
    if cases == [] then 0.0 else Sum(q, cases[..|cases| - 1]) + Contribution(q, cases[|cases| - 1])
  }

  function SumOverSlices(q: Measure, cases: seq<CaseResult>, names: seq<string>): real {
    if names == [] then 0.0 else Sum(q, OfProbe(names[0], cases)) + SumOverSlices(q, cases, names[1..])
  }

  ghost predicate Distinct(names: seq<string>) {
    forall i, j :: 0 <= i < j < |names| ==> names[i] != names[j]
  }

  lemma SumNext(q: Measure, cases: seq<CaseResult>, c: CaseResult)
    ensures Sum(q, cases + [c]) == Sum(q, cases) + Contribution(q, c)
  {
    assert (cases + [c])[..|cases|] == cases;
  }

  /** One more case adds its contribution to exactly the slice of its probe. */
  lemma {:induction false} SlicesAfterOneCase(q: Measure, cases: seq<CaseResult>, names: seq<string>)
    requires cases != [] && Distinct(names)
    ensures SumOverSlices(q, cases, names)
            == SumOverSlices(q, cases[..|cases| - 1], names)
               + if cases[|cases| - 1].probe in names then Contribution(q, cases[|cases| - 1]) else 0.0
    decreases |names|
  {
    if names != [] {
      SlicesAfterOneCase(q, cases, names[1..]);
      var front, last := cases[..|cases| - 1], cases[|cases| - 1];
      if last.probe == names[0] {
        assert last.probe !in names[1..];
        SumNext(q, OfProbe(names[0], front), last);
      } else {
        assert OfProbe(names[0], cases) == OfProbe(names[0], front);
      }
    }
  }

  lemma {:induction false} SlicesSumToWhole(q: Measure, cases: seq<CaseResult>, names: seq<string>)
    requires Distinct(names) && forall c | c in cases :: c.probe in names
    ensures SumOverSlices(q, cases, names) == Sum(q, cases)
    decreases |cases|
  {
    if cases == [] {
      NoCasesNoSums(q, names);
    } else {
      SlicesSumToWhole(q, cases[..|cases| - 1], names);
      SlicesAfterOneCase(q, cases, names);
    }
  }

  lemma {:induction false} NoCasesNoSums(q: Measure, names: seq<string>)
    ensures SumOverSlices(q, [], names) == 0.0
  {
    if names != [] {
      NoCasesNoSums(q, names[1..]);
    }
  }

  lemma {:induction false} SumsOfScoredCases(m: Metric, level: Level, results: seq<CaseResult>)
    ensures Sum(MetricTotal(m, level), results) == Total(m, level, ScoredCases(level, results))
    ensures Sum(ScoredCount(level), results) == |ScoredCases(level, results)| as real
  {
    if results != [] {
      SumsOfScoredCases(m, level, results[..|results| - 1]);
      ScoredNext(m, level, results);
    }
  }

  /** Restricting to the answerable cases first changes no additive quantity. */
  lemma {:induction false} SumOverAnswerable(q: Measure, results: seq<CaseResult>)
    ensures Sum(q, ScoredCases(Document, results)) == Sum(q, results)
  {
    if results != [] {
      var front, last := results[..|results| - 1], results[|results| - 1];
      SumOverAnswerable(q, front);
      if Scored(Document, last) {
        SumNext(q, ScoredCases(Document, front), last);
      } else {
        assert ScoredCases(Document, results) == ScoredCases(Document, front);
      }
    }
  }

  /** x taken n times over. */
  function Times(n: int, x: real): real {
    if n <= 0 then 0.0 else x + Times(n - 1, x)
  }

  lemma {:induction false} TimesIsProduct(n: nat, x: real)
    ensures Times(n, x) == n as real * x
  {
    if n > 0 {
      TimesIsProduct(n - 1, x);
      assert n as real * x == (n - 1) as real * x + x;
    }
  }

  lemma TimesAverage(total: real, count: nat)
    requires count == 0 ==> total == 0.0
    ensures Times(count, Average(total, count)) == total
  {
    TimesIsProduct(count, Average(total, count));
  }

  lemma TimesMean(m: Metric, level: Level, results: seq<CaseResult>)
    ensures Times(|ScoredCases(level, results)|, Mean(m, level, results)) == Sum(MetricTotal(m, level), results)
  {
    SumsOfScoredCases(m, level, results);
    TimesAverage(Total(m, level, ScoredCases(level, results)), |ScoredCases(level, results)|);
  }

  // ---- the report reassembles ----

  ghost predicate ReportedMetric(m: Metric) {
    m == HitAt(1) || m == HitAt(3) || m == ReciprocalRank || m == RecallAt(5)
  }

  function Reported(m: Metric, metrics: LevelMetrics): real
    requires ReportedMetric(m)
  {
    if m == HitAt(1) then metrics.hitAt1
    else if m == HitAt(3) then metrics.hitAt3
    else if m == ReciprocalRank then metrics.mrr
    else metrics.recallAt5
  }

  function SliceMetrics(level: Level, s: Slice): LevelMetrics {
    if level == Section then s.sectionLevel else s.documentLevel
  }

  /** How many cases of the slice are scored at this level, read off the report itself. */
  function Weight(level: Level, s: Slice): int {
    if level == Section && s.sectionLevel.excludedCaseCount.Some? then s.caseCount - s.sectionLevel.excludedCaseCount.value
    else s.caseCount
  }

  function WeightedSum(m: Metric, level: Level, byProbe: map<string, Slice>, names: seq<string>): real
    requires ReportedMetric(m) && forall p | p in names :: p in byProbe
  {
    if names == [] then 0.0
    else Times(Weight(level, byProbe[names[0]]), Reported(m, SliceMetrics(level, byProbe[names[0]])))
         + WeightedSum(m, level, byProbe, names[1..])
  }

  function WeightSum(level: Level, byProbe: map<string, Slice>, names: seq<string>): int
    requires forall p | p in names :: p in byProbe
  {
    if names == [] then 0 else Weight(level, byProbe[names[0]]) + WeightSum(level, byProbe, names[1..])
  }

  lemma AnswerableIsFixed(cases: seq<CaseResult>)
    requires AllScored(Document, cases)
    ensures ScoredCases(Document, cases) == cases
  {
    CountAll(ScoredAt(Document), cases);
  }

  lemma OfProbeKeepsScored(probe: string, cases: seq<CaseResult>)
    requires AllScored(Document, cases)
    ensures AllScored(Document, OfProbe(probe, cases))
  {
    FilterHolds(Asks(probe), cases);
  }

  lemma SliceTerm(m: Metric, level: Level, subset: seq<CaseResult>)
    requires ReportedMetric(m) && AllScored(Document, subset)
    ensures Weight(level, SliceOf(subset)) as real == Sum(ScoredCount(level), subset)
    ensures Times(Weight(level, SliceOf(subset)), Reported(m, SliceMetrics(level, SliceOf(subset))))
            == Sum(MetricTotal(m, level), subset)
  {
    AnswerableIsFixed(subset);
    TimesMean(m, level, subset);
    SumsOfScoredCases(m, level, subset);
    assert Weight(level, SliceOf(subset)) == |ScoredCases(level, subset)|;
    assert Reported(m, SliceMetrics(level, SliceOf(subset))) == Mean(m, level, subset);
  }

  lemma {:induction false} ReportSums(m: Metric, level: Level, answerable: seq<CaseResult>, byProbe: map<string, Slice>,
                                      names: seq<string>)
    requires ReportedMetric(m) && AllScored(Document, answerable)
    requires forall p | p in names :: p in byProbe && byProbe[p] == SliceFor(answerable)(p)
    ensures WeightedSum(m, level, byProbe, names) == SumOverSlices(MetricTotal(m, level), answerable, names)
    ensures WeightSum(level, byProbe, names) as real == SumOverSlices(ScoredCount(level), answerable, names)
    decreases |names|
  {
    if names != [] {
      ReportSums(m, level, answerable, byProbe, names[1..]);
      OfProbeKeepsScored(names[0], answerable);
      assert byProbe[names[0]] == SliceOf(OfProbe(names[0], answerable));
      SliceTerm(m, level, OfProbe(names[0], answerable));
    }
  }

  lemma ProbeNamesCover(results: seq<CaseResult>)
    ensures Distinct(ProbeNames(results))
    ensures forall p :: p in ProbeNames(results) <==> exists c | c in ScoredCases(Document, results) :: c.probe == p
  {
    Ordering.StringLeTotalOrder();
    Ordering.SortedSetProperties(Ordering.StringLe, ProbesOf(ScoredCases(Document, results)));
    ProbesOfMembers(ScoredCases(Document, results));
  }

  lemma ProbesOfMembers(cases: seq<CaseResult>)
    ensures forall p :: p in ProbesOf(cases) <==> exists c | c in cases :: c.probe == p
  {
    forall c | c in cases ensures c.probe in ProbesOf(cases) {
      var i :| 0 <= i < |cases| && cases[i] == c;
      assert ProbesOf(cases)[i] == c.probe;
    }
  }

  /**
   Every answerable case is in the slice of exactly one named probe; at either level the slices' scored
   counts add up to the whole, and each overall metric is the mean of the slice metrics so weighted.
   */
  lemma SlicesReassemble(m: Metric, level: Level, results: seq<CaseResult>)
    requires ReportedMetric(m)
    ensures var report, names := AggregateReport(results), ProbeNames(results);
            && report.byProbe.Keys == (set p | p in names)
            && WeightSum(level, report.byProbe, names) == |ScoredCases(level, results)|
            && WeightedSum(m, level, report.byProbe, names)
               == Times(|ScoredCases(level, results)|, Reported(m, MetricsAt(level, results)))
  {
    var answerable, names := ScoredCases(Document, results), ProbeNames(results);
    ProbeNamesCover(results);
    ReportSums(m, level, answerable, AggregateReport(results).byProbe, names);
    SlicesSumToWhole(MetricTotal(m, level), answerable, names);
    SlicesSumToWhole(ScoredCount(level), answerable, names);
    SumOverAnswerable(MetricTotal(m, level), results);
    SumOverAnswerable(ScoredCount(level), results);
    SumsOfScoredCases(m, level, results);
    TimesMean(m, level, results);
  }
}
