/** The ingestion-latency report read off the samples alone. */
module ReportFields {
  import opened Wrappers
  import opened Filtering
  import opened IngestionSamples
  import opened IngestionReport
  import opened Ordering

  // ---- the counts ----

  predicate Measured(sample: Sample, key: MetricKey) {
    key in sample.metrics && sample.metrics[key].Some?
  }

  /** Ready and verified, with every measurement and every piece of metadata. */
  ghost predicate Finished(sample: Sample) {
    && sample.status == "ready" && sample.retrievalVerified
    && sample.databaseHostClass != None && sample.storageProvider != None && sample.embeddingProvider != None
    && forall key: MetricKey :: Measured(sample, key)
  }

  ghost function FinishedAt(samples: seq<Sample>): set<int> {
    set i | 0 <= i < |samples| && Finished(samples[i])
  }

  function FailedAt(fold: string -> string, samples: seq<Sample>): set<int> {
    set i | 0 <= i < |samples| && fold(samples[i].status) == "failed"
  }

  ghost function UnfinishedAt(fold: string -> string, samples: seq<Sample>): set<int> {
    set i | 0 <= i < |samples| && fold(samples[i].status) != "failed" && !Finished(samples[i])
  }

  function VerifiedAt(samples: seq<Sample>): set<int> {
    set i | 0 <= i < |samples| && samples[i].retrievalVerified
  }

  function StatusAt(samples: seq<Sample>, status: string): set<int> {
    set i | 0 <= i < |samples| && samples[i].status == status
  }

  ghost predicate CountsState(fold: string -> string, samples: seq<Sample>, r: Report) {
    && r.sampleCount == |samples|
    && r.completeCount == |FinishedAt(samples)|
    && r.failedCount == |FailedAt(fold, samples)|
    && r.incompleteCount == |UnfinishedAt(fold, samples)|
    && r.verifiedCount == |VerifiedAt(samples)|
    && (forall host :: host in r.hostClasses <==> exists i | 0 <= i < |samples| :: samples[i].databaseHostClass == Some(host))
    && forall status ::
         && (status in r.statusCounts <==> StatusAt(samples, status) != {})
         && (status in r.statusCounts ==> r.statusCounts[status] == |StatusAt(samples, status)|)
  }

  // ---- the statistics of a metric ----

  /** The samples that measured this metric, and those of them at most or below v. */
  function MeasuredAt(samples: seq<Sample>, key: MetricKey): set<int> {
    set i | 0 <= i < |samples| && Measured(samples[i], key)
  }

  function AtMostAt(samples: seq<Sample>, key: MetricKey, v: real): set<int> {
    set i | 0 <= i < |samples| && Measured(samples[i], key) && samples[i].metrics[key].value <= v
  }

  function BelowAt(samples: seq<Sample>, key: MetricKey, v: real): set<int> {
    set i | 0 <= i < |samples| && Measured(samples[i], key) && samples[i].metrics[key].value < v
  }

  ghost predicate IsValue(samples: seq<Sample>, key: MetricKey, v: real) {
    exists i | 0 <= i < |samples| :: Measured(samples[i], key) && samples[i].metrics[key] == Some(v)
  }

  /** v is the value whose rank is the smallest whole number not below p hundredths of the measurements. */
  ghost predicate IsPercentile(samples: seq<Sample>, key: MetricKey, p: int, v: real) {
    IsValue(samples, key, v)
    && exists rank: int :: IsCeiling(rank, p, |MeasuredAt(samples, key)|)
                           && |BelowAt(samples, key, v)| < rank <= |AtMostAt(samples, key, v)|
  }

  predicate IsCeiling(rank: int, p: int, n: nat) {
    100 * (rank - 1) < p * n <= 100 * rank
  }

  ghost predicate StatisticsState(samples: seq<Sample>, key: MetricKey, s: Summary) {
    && (s.NoValues? <==> MeasuredAt(samples, key) == {})
    && (s.Summary? ==>
          && s.count == |MeasuredAt(samples, key)|
          && IsValue(samples, key, s.min) && BelowAt(samples, key, s.min) == {}
          && IsValue(samples, key, s.max) && AtMostAt(samples, key, s.max) == MeasuredAt(samples, key)
          && IsPercentile(samples, key, 50, s.p50)
          && IsPercentile(samples, key, 95, s.p95))
  }

  // ---- the published samples ----

  ghost predicate PublishedState(sample: Sample, p: SafeMetadata) {
    && p.scenario == sample.scenario && p.fixtureId == sample.fixtureId && p.mediaType == sample.mediaType
    && p.bytes == sample.bytes && p.pages == sample.pages && p.chunks == sample.chunks
    && p.snapshotBytes == sample.snapshotBytes && p.databaseHostClass == sample.databaseHostClass
    && p.storageProvider == sample.storageProvider && p.embeddingProvider == sample.embeddingProvider
    && p.status == sample.status && p.retrievalVerified == sample.retrievalVerified
    && exists at :: MissingAt(at, sample, p.missingMetrics)
  }

  /** The metrics the sample did not measure, each once and in the report's order. */
  ghost predicate MissingAt(at: seq<int>, sample: Sample, missing: seq<MetricKey>) {
    && Selects(at, Unmeasured(sample), METRIC_ORDER)
    && |missing| == |at| && forall k | 0 <= k < |at| :: 0 <= at[k] < |METRIC_ORDER| && missing[k] == METRIC_ORDER[at[k]]
  }

  function Unmeasured(sample: Sample): MetricKey -> bool {
    (key: MetricKey) => !Measured(sample, key)
  }

  ghost predicate ReportStates(fold: string -> string, samples: seq<Sample>, r: Report) {
    && CountsState(fold, samples, r)
    && (forall key: MetricKey :: key in r.metrics && StatisticsState(samples, key, r.metrics[key]))
    && |r.samples| == |samples|
    && forall i | 0 <= i < |samples| :: PublishedState(samples[i], r.samples[i])
  }

  // ---- that the report is so ----

  lemma FinishedIff(sample: Sample)
    ensures IsCompleteSample(sample) <==> Finished(sample)
  {
    EveryKeyIsListed();
    forall key: MetricKey ensures MetricOf(key, sample).Some? <==> Measured(sample, key) {
    }
  }

  lemma FinishedCount(samples: seq<Sample>)
    ensures Count(IsCompleteSample, samples) == |FinishedAt(samples)|
  {
    CountPositions(IsCompleteSample, samples);
    forall i | 0 <= i < |samples| ensures IsCompleteSample(samples[i]) <==> Finished(samples[i]) {
      FinishedIff(samples[i]);
    }
    assert Positions(IsCompleteSample, samples) == FinishedAt(samples);
  }

  lemma FailedCount(fold: string -> string, samples: seq<Sample>)
    ensures Count(Failed(fold), samples) == |FailedAt(fold, samples)|
  {
    CountPositions(Failed(fold), samples);
    assert Positions(Failed(fold), samples) == FailedAt(fold, samples);
  }

  lemma VerifiedCount(samples: seq<Sample>)
    ensures Count(Verified(), samples) == |VerifiedAt(samples)|
  {
    CountPositions(Verified(), samples);
    assert Positions(Verified(), samples) == VerifiedAt(samples);
  }

  lemma IncompleteCount(fold: string -> string, samples: seq<Sample>)
    ensures Count(Incomplete(fold), samples) == |UnfinishedAt(fold, samples)|
  {
    CountPositions(Incomplete(fold), samples);
    forall i | 0 <= i < |samples| ensures IsCompleteSample(samples[i]) <==> Finished(samples[i]) {
      FinishedIff(samples[i]);
    }
    assert Positions(Incomplete(fold), samples) == UnfinishedAt(fold, samples);
  }

  lemma HostIn(samples: seq<Sample>, host: HostClass)
    ensures host in HostClasses(samples) <==> exists i | 0 <= i < |samples| :: samples[i].databaseHostClass == Some(host)
  {
    CollectMembers(HostClassOf, samples, host);
    if i :| 0 <= i < |samples| && samples[i].databaseHostClass == Some(host) {
      assert samples[i] in samples && HostClassOf(samples[i]) == Some(host);
    }
    if s :| s in samples && HostClassOf(s) == Some(host) {
      var i :| 0 <= i < |samples| && samples[i] == s;
      assert samples[i].databaseHostClass == Some(host);
    }
  }

  lemma StatusCountIs(samples: seq<Sample>, status: string)
    ensures status in StatusCounts(samples) <==> StatusAt(samples, status) != {}
    ensures status in StatusCounts(samples) ==> StatusCounts(samples)[status] == |StatusAt(samples, status)|
  {
    CountPositions(HasStatus(status), samples);
    assert Positions(HasStatus(status), samples) == StatusAt(samples, status);
    if i :| i in StatusAt(samples, status) {
      assert samples[i] in samples;
    }
    if s :| s in samples && s.status == status {
      var i :| 0 <= i < |samples| && samples[i] == s;
      assert i in StatusAt(samples, status);
    }
  }

  lemma CountsAre(fold: string -> string, samples: seq<Sample>)
    ensures CountsState(fold, samples, ReportOf(fold, samples))
  {
    FinishedCount(samples);
    FailedCount(fold, samples);
    VerifiedCount(samples);
    IncompleteCount(fold, samples);
    forall host
      ensures host in HostClasses(samples) <==> exists i | 0 <= i < |samples| :: samples[i].databaseHostClass == Some(host)
    {
      HostIn(samples, host);
    }
    forall status
      ensures status in StatusCounts(samples) <==> StatusAt(samples, status) != {}
      ensures status in StatusCounts(samples) ==> StatusCounts(samples)[status] == |StatusAt(samples, status)|
    {
      StatusCountIs(samples, status);
    }
  }

  lemma ReadingsCount(samples: seq<Sample>, key: MetricKey)
    ensures |Collect(Reading(key), samples)| == |MeasuredAt(samples, key)|
  {
    CollectSize(Reading(key), samples);
    CountPositions(Defined(Reading(key)), samples);
    assert Positions(Defined(Reading(key)), samples) == MeasuredAt(samples, key);
  }

  lemma ReadingIn(samples: seq<Sample>, key: MetricKey, v: real)
    ensures v in Collect(Reading(key), samples) <==> IsValue(samples, key, v)
  {
    CollectMembers(Reading(key), samples, v);
    if s :| s in samples && Reading(key)(s) == Some(v) {
      var i :| 0 <= i < |samples| && samples[i] == s;
      assert Measured(samples[i], key);
    }
    if i :| 0 <= i < |samples| && Measured(samples[i], key) && samples[i].metrics[key] == Some(v) {
      assert samples[i] in samples && Reading(key)(samples[i]) == Some(v);
    }
  }

  lemma ReadingsAre(samples: seq<Sample>, key: MetricKey)
    ensures var values := Collect(Reading(key), samples);
            && |values| == |MeasuredAt(samples, key)|
            && forall v :: v in values <==> IsValue(samples, key, v)
  {
    ReadingsCount(samples, key);
    forall v ensures v in Collect(Reading(key), samples) <==> IsValue(samples, key, v) {
      ReadingIn(samples, key, v);
    }
  }

  lemma RanksAre(samples: seq<Sample>, key: MetricKey, v: real)
    ensures Count(Below(v), Collect(Reading(key), samples)) == |BelowAt(samples, key, v)|
    ensures Count(AtMost(v), Collect(Reading(key), samples)) == |AtMostAt(samples, key, v)|
  {
    CountCollected(Reading(key), Below(v), samples);
    CountCollected(Reading(key), AtMost(v), samples);
    assert Positions(Then(Reading(key), Below(v)), samples) == BelowAt(samples, key, v);
    assert Positions(Then(Reading(key), AtMost(v)), samples) == AtMostAt(samples, key, v);
  }

  lemma RankIsCeiling(p: int, n: nat)
    ensures IsCeiling(RankOf(p, n), p, n)
  {
  }

  lemma PercentileIs(samples: seq<Sample>, key: MetricKey, p: int, v: real)
    requires 1 <= p <= 100 && Collect(Reading(key), samples) != []
    requires v == Percentile(Sort(Le, Collect(Reading(key), samples)), p)
    ensures IsPercentile(samples, key, p, v)
  {
    var values := Collect(Reading(key), samples);
    ReadingsAre(samples, key);
    RanksAre(samples, key, v);
    PercentileIsNearestRank(values, p, v);
    RankIsCeiling(p, |values|);
  }

  lemma BoundsAre(samples: seq<Sample>, key: MetricKey, s: Summary)
    requires s == Statistics(key, samples) && MeasuredAt(samples, key) != {}
    ensures s.Summary? && s.count == |MeasuredAt(samples, key)|
    ensures IsValue(samples, key, s.min) && BelowAt(samples, key, s.min) == {}
    ensures IsValue(samples, key, s.max) && AtMostAt(samples, key, s.max) == MeasuredAt(samples, key)
  {
    var values := Collect(Reading(key), samples);
    ReadingsAre(samples, key);
    SummaryIsOrdered(values);
    forall i | i in MeasuredAt(samples, key) ensures s.min <= samples[i].metrics[key].value <= s.max {
      assert IsValue(samples, key, samples[i].metrics[key].value);
    }
  }

  lemma StatisticsAre(samples: seq<Sample>, key: MetricKey)
    ensures StatisticsState(samples, key, Statistics(key, samples))
  {
    var s := Statistics(key, samples);
    ReadingsAre(samples, key);
    if MeasuredAt(samples, key) != {} {
      BoundsAre(samples, key, s);
      PercentileIs(samples, key, 50, s.p50);
      PercentileIs(samples, key, 95, s.p95);
    }
  }

  lemma PublishedIs(sample: Sample)
    ensures PublishedState(sample, Published(sample))
  {
    var at := FilterSelects(Missing(sample), METRIC_ORDER);
    assert MissingAt(at, sample, Published(sample).missingMetrics);
  }

  /** The report, field by field. */
  lemma ReportIs(fold: string -> string, samples: seq<Sample>)
    ensures ReportStates(fold, samples, ReportOf(fold, samples))
  {
    CountsAre(fold, samples);
    EveryKeyIsListed();
    forall key: MetricKey
      ensures key in ReportOf(fold, samples).metrics
      ensures StatisticsState(samples, key, ReportOf(fold, samples).metrics[key])
    {
      StatisticsAre(samples, key);
    }
    forall i | 0 <= i < |samples| ensures PublishedState(samples[i], ReportOf(fold, samples).samples[i]) {
      PublishedIs(samples[i]);
    }
  }

  /** The fixtures of the remote samples, in order. */
  ghost predicate RemoteFixtures(fixtures: seq<string>, samples: seq<Sample>) {
    exists at :: Selects(at, IsRemote, samples) && FixturesAt(at, fixtures, samples)
  }

  predicate FixturesAt(at: seq<int>, fixtures: seq<string>, samples: seq<Sample>) {
    |fixtures| == |at| && forall k | 0 <= k < |at| :: 0 <= at[k] < |samples| && fixtures[k] == samples[at[k]].fixtureId
  }

  /** The report or its refusal: hosts of both classes, or in a local run the fixtures that ran remotely. */
  lemma ComputedIs(fold: string -> string, samples: seq<Sample>, expectLocal: bool)
    ensures var r := ComputeReport(fold, samples, expectLocal);
            && (r.Ok? ==> ReportStates(fold, samples, r.value))
            && (r == Err(MixedHosts) <==>
                  && (exists i | 0 <= i < |samples| :: samples[i].databaseHostClass == Some(Loopback))
                  && (exists i | 0 <= i < |samples| :: samples[i].databaseHostClass == Some(Remote)))
            && (r.Err? && r.error.RemoteSamples? ==> expectLocal && RemoteFixtures(r.error.fixtures, samples))
  {
    ReportIs(fold, samples);
    MixedIff(HostClasses(samples));
    HostIn(samples, Loopback);
    HostIn(samples, Remote);
    var at := FilterSelects(IsRemote, samples);
    assert FixturesAt(at, Fixtures(Filter(IsRemote, samples)), samples);
  }
}
