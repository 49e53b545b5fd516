/** Nearest-rank statistics and the aggregate report over ingestion-latency samples. */
module IngestionReport {
  import opened Wrappers
  import opened Filtering
  import opened IngestionSamples
  import opened Ordering

  // ---- nearest rank ----

  predicate Le(a: real, b: real) {
    a <= b
  }

  /** `math.ceil(percentile / 100 * n)`, with the product taken exactly. */
  function RankOf(percentile: int, n: nat): int {
    -((-(percentile * n)) / 100)
  }

  function Percentile(sortedValues: seq<real>, percentile: int): real
    requires sortedValues != []
  {
    sortedValues[Position(percentile, |sortedValues|)]
  }

  function Position(percentile: int, n: nat): (position: int)
    requires n > 0
    ensures 0 <= position < n
  {
    var position := RankOf(percentile, n) - 1;
    var clamped := if position < 0 then 0 else position;
    if clamped <= n - 1 then clamped else n - 1
  }

  function AtMost(v: real): real -> bool {
    x => x <= v
  }

  function Below(v: real): real -> bool {
    x => x < v
  }

  /** v is a member that at least `rank` values do not exceed and fewer than `rank` values undercut. */
  predicate HasRank(values: seq<real>, rank: int, v: real) {
    v in values && Count(Below(v), values) < rank <= Count(AtMost(v), values)
  }

  lemma {:induction false} CountPrefix<T>(p: T -> bool, s: seq<T>, k: nat)
    requires k <= |s|
    requires forall i | 0 <= i < k :: p(s[i])
    ensures k <= Count(p, s)
  {
    if s != [] {
      CountPrefix(p, s[..|s| - 1], if k == |s| then k - 1 else k);
    }
  }

  lemma {:induction false} CountSuffix<T>(p: T -> bool, s: seq<T>, k: nat)
    requires k <= |s|
    requires forall i | k <= i < |s| :: !p(s[i])
    ensures Count(p, s) <= k
  {
    if s != [] {
      CountSuffix(p, s[..|s| - 1], if k == |s| then k - 1 else k);
    }
  }

  lemma SortedReals(values: seq<real>)
    ensures SortedBy(Le, Sort(Le, values))
    ensures forall v :: v in Sort(Le, values) <==> v in values
  {
    SortSorted(Le, values);
    forall v ensures v in Sort(Le, values) <==> v in values {
      assert v in Sort(Le, values) <==> v in multiset(Sort(Le, values));
      assert v in values <==> v in multiset(values);
    }
  }

  /** The element at index k of the sorted list is one of rank k + 1. */
  lemma SortedIndexHasRank(values: seq<real>, k: nat)
    requires k < |values|
    ensures HasRank(values, k + 1, Sort(Le, values)[k])
  {
    SortedReals(values);
    var s := Sort(Le, values);
    var v := s[k];
    forall i | 0 <= i < k + 1 ensures AtMost(v)(s[i]) {
      assert Le(s[i], s[k]);
    }
    forall i | k <= i < |s| ensures !Below(v)(s[i]) {
      assert Le(s[k], s[i]);
    }
    CountPrefix(AtMost(v), s, k + 1);
    CountSuffix(Below(v), s, k);
    FilterPermuted(AtMost(v), s, values);
    FilterPermuted(Below(v), s, values);
    assert v in s;
  }

  lemma RankIsUnique(values: seq<real>, rank: int, v: real, w: real)
    requires HasRank(values, rank, v) && HasRank(values, rank, w)
    ensures v == w
  {
    if v < w {
      CountMonotone(AtMost(v), Below(w), values);
    } else if w < v {
      CountMonotone(AtMost(w), Below(v), values);
    }
  }

  lemma RankInRange(percentile: int, n: nat)
    requires 1 <= percentile <= 100 && n > 0
    ensures 1 <= RankOf(percentile, n) <= n
  {
    assert 1 <= percentile * n <= 100 * n;
  }

  lemma RankPicksSortedElement(values: seq<real>, rank: nat, v: real)
    requires 1 <= rank <= |values|
    ensures HasRank(values, rank, v) <==> v == Sort(Le, values)[rank - 1]
  {
    var k: nat := rank - 1;
    var picked := Sort(Le, values)[k];
    assert HasRank(values, rank, picked) by {
      SortedIndexHasRank(values, k);
    }
    if HasRank(values, rank, v) {
      RankIsUnique(values, rank, v, picked);
    }
  }

  lemma RankPicks(values: seq<real>, rank: int, picked: real, v: real)
    requires 1 <= rank <= |values| && picked == Sort(Le, values)[rank - 1]
    ensures HasRank(values, rank, v) <==> v == picked
  {
    RankPicksSortedElement(values, rank, v);
  }

  lemma PercentileInRange(sortedValues: seq<real>, percentile: int)
    requires sortedValues != [] && 1 <= percentile <= 100
    ensures 1 <= RankOf(percentile, |sortedValues|) <= |sortedValues|
    ensures Percentile(sortedValues, percentile) == sortedValues[RankOf(percentile, |sortedValues|) - 1]
  {
    RankInRange(percentile, |sortedValues|);
  }

  /** The p-th percentile is the one and only value of rank ceil(p * n / 100). */
  lemma PercentileIsNearestRank(values: seq<real>, percentile: int, v: real)
    requires values != [] && 1 <= percentile <= 100
    ensures HasRank(values, RankOf(percentile, |values|), v) <==> v == Percentile(Sort(Le, values), percentile)
  {
    PercentileInRange(Sort(Le, values), percentile);
    RankPicks(values, RankOf(percentile, |values|), Percentile(Sort(Le, values), percentile), v);
  }

  lemma RankMonotone(p: int, q: int, n: nat)
    requires p <= q
    ensures RankOf(p, n) <= RankOf(q, n)
  {
    assert p * n <= q * n;
  }

  lemma PercentileMonotone(values: seq<real>, p: int, q: int)
    requires values != [] && p <= q
    ensures Percentile(Sort(Le, values), p) <= Percentile(Sort(Le, values), q)
  {
    SortedReals(values);
    PositionMonotone(p, q, |values|);
    assert Le(Sort(Le, values)[Position(p, |values|)], Sort(Le, values)[Position(q, |values|)]);
  }

  lemma PositionMonotone(p: int, q: int, n: nat)
    requires n > 0 && p <= q
    ensures Position(p, n) <= Position(q, n)
  {
    RankMonotone(p, q, n);
  }

  // Evaluating the product in floating point moves the rank only if it leaves this tolerance.
  lemma ProductTolerance(percentile: int, n: nat, product: real)
    requires var exact := (percentile * n) as real / 100.0;
             && exact - 0.01 < product < exact + 0.01
             && ((percentile * n) % 100 == 0 ==> product <= exact)
    ensures -((-product).Floor) == RankOf(percentile, n)
  {
    var m := percentile * n;
    var q, r := m / 100, m % 100;
    assert m == 100 * q + r;
    assert m as real / 100.0 == q as real + r as real / 100.0;
  }

  /** What is assumed of rounding to the nearest double, for numbers from 0.5 to 2^53. */
  ghost predicate Rounds(fl: real -> real) {
    && (forall x, y | 0.5 <= x <= y <= LARGEST_EXACT :: fl(x) <= fl(y))
    && (forall x | 0.5 <= x <= LARGEST_EXACT && x == x.Floor as real :: fl(x) == x)
    && (forall x | 0.5 <= x <= LARGEST_EXACT :: x - x * ROUNDING_ERROR <= fl(x) <= x + x * ROUNDING_ERROR)
  }

  const LARGEST_EXACT := 9007199254740992.0
  const ROUNDING_ERROR := 0.000000000000001

  // The double written 0.95 lies just below it; 0.5 is a double.
  const NINETY_FIVE_HUNDREDTHS: real := 4278419646001971.0 / 4503599627370496.0

  lemma MedianInDoubles(fl: real -> real, n: nat)
    requires Rounds(fl) && 1 <= n <= 1_000_000_000
    ensures -((-fl(0.5 * n as real)).Floor) == RankOf(50, n)
  {
    var product := 0.5 * n as real;
    if (50 * n) % 100 == 0 {
      var exact := (50 * n / 100) as real;
      assert product <= exact == (50 * n) as real / 100.0;
      assert fl(product) <= fl(exact) == exact;
    }
    ProductTolerance(50, n, fl(product));
  }

  lemma NinetyFifthInDoubles(fl: real -> real, n: nat)
    requires Rounds(fl) && 1 <= n <= 1_000_000_000
    ensures -((-fl(NINETY_FIVE_HUNDREDTHS * n as real)).Floor) == RankOf(95, n)
  {
    var product := NINETY_FIVE_HUNDREDTHS * n as real;
    if (95 * n) % 100 == 0 {
      var exact := (95 * n / 100) as real;
      assert product <= exact == (95 * n) as real / 100.0;
      assert fl(product) <= fl(exact) == exact;
    }
    ProductTolerance(95, n, fl(product));
  }

  /** For the two percentiles the reports use, double arithmetic gives the exact rank on every list of up to 10^9 values. */
  lemma ReportedPercentilesInDoubles(fl: real -> real, n: nat)
    requires Rounds(fl) && 1 <= n <= 1_000_000_000
    ensures -((-fl(0.5 * n as real)).Floor) == RankOf(50, n)
    ensures -((-fl(NINETY_FIVE_HUNDREDTHS * n as real)).Floor) == RankOf(95, n)
  {
    MedianInDoubles(fl, n);
    NinetyFifthInDoubles(fl, n);
  }

  datatype Summary = NoValues | Summary(count: nat, min: real, p50: real, p95: real, max: real)

  function MetricSummary(values: seq<real>): Summary {
    SummaryOf(Sort(Le, values))
  }

  function SummaryOf(ordered: seq<real>): Summary {
    if ordered == [] then NoValues
    else Summary(|ordered|, ordered[0], Percentile(ordered, 50), Percentile(ordered, 95), ordered[|ordered| - 1])
  }

  lemma SummaryIsOrdered(values: seq<real>)
    ensures MetricSummary(values).NoValues? <==> values == []
    ensures values != [] ==>
              var s := MetricSummary(values);
              && s.count == |values|
              && s.min in values && s.max in values
              && (forall v | v in values :: s.min <= v <= s.max)
              && s.min <= s.p50 <= s.p95 <= s.max
              && HasRank(values, (|values| + 1) / 2, s.p50)
              && HasRank(values, RankOf(95, |values|), s.p95)
  {
    if values != [] {
      SortedReals(values);
      var s := Sort(Le, values);
      forall v | v in values ensures s[0] <= v <= s[|s| - 1] {
        var i :| 0 <= i < |s| && s[i] == v;
        assert Le(s[0], s[i]) && Le(s[i], s[|s| - 1]);
      }
      assert s[0] in s && s[|s| - 1] in s;
      PercentileMonotone(values, 50, 95);
      PercentileIsNearestRank(values, 50, Percentile(s, 50));
      PercentileIsNearestRank(values, 95, Percentile(s, 95));
      assert RankOf(50, |values|) == (|values| + 1) / 2;
    }
  }

  // ---- the report ----

  datatype ReportError = MixedHosts | RemoteSamples(fixtures: seq<string>)

  datatype Report = Report(
    sampleCount: nat,
    hostClasses: set<HostClass>,
    completeCount: nat,
    incompleteCount: nat,
    failedCount: nat,
    verifiedCount: nat,
    statusCounts: map<string, nat>,
    metrics: map<MetricKey, Summary>,
    samples: seq<SafeMetadata>)

  /** What the report repeats of one sample. */
  datatype SafeMetadata = SafeMetadata(
    scenario: string,
    fixtureId: string,
    mediaType: string,
    bytes: nat,
    pages: nat,
    chunks: nat,
    snapshotBytes: Option<nat>,
    databaseHostClass: Option<HostClass>,
    storageProvider: Option<string>,
    embeddingProvider: Option<string>,
    status: string,
    retrievalVerified: bool,
    missingMetrics: seq<MetricKey>)

  function Missing(sample: Sample): MetricKey -> bool {
    (key: MetricKey) => MetricOf(key, sample).None?
  }

  function Published(sample: Sample): SafeMetadata {
    SafeMetadata(
      sample.scenario, sample.fixtureId, sample.mediaType, sample.bytes, sample.pages, sample.chunks, sample.snapshotBytes,
      sample.databaseHostClass, sample.storageProvider, sample.embeddingProvider, sample.status, sample.retrievalVerified,
      Filter(Missing(sample), METRIC_ORDER))
  }

  predicate IsCompleteSample(sample: Sample) {
    && sample.status == "ready"
    && sample.retrievalVerified
    && (forall key | key in METRIC_KEYS :: MetricOf(key, sample).Some?)
    && sample.databaseHostClass.Some?
    && sample.storageProvider.Some?
    && sample.embeddingProvider.Some?
  }

  /** The status case-folds to "failed"; folding itself is a parameter. */
  function Failed(fold: string -> string): Sample -> bool {
    (sample: Sample) => fold(sample.status) == "failed"
  }

  function Incomplete(fold: string -> string): Sample -> bool {
    (sample: Sample) => fold(sample.status) != "failed" && !IsCompleteSample(sample)
  }

  function Settled(fold: string -> string): Sample -> bool {
    (sample: Sample) => fold(sample.status) != "failed"
  }

  function Verified(): Sample -> bool {
    (sample: Sample) => sample.retrievalVerified
  }

  function HasStatus(status: string): Sample -> bool {
    (sample: Sample) => sample.status == status
  }

  predicate IsRemote(sample: Sample) {
    sample.databaseHostClass == Some(Remote)
  }

  function HostClassOf(sample: Sample): Option<HostClass> {
    sample.databaseHostClass
  }

  function Reading(key: MetricKey): Sample -> Option<real> {
    (sample: Sample) => MetricOf(key, sample)
  }

  function HostClasses(samples: seq<Sample>): set<HostClass> {
    set host | host in Collect(HostClassOf, samples)
  }

  function Fixtures(samples: seq<Sample>): seq<string> {
    seq(|samples|, i requires 0 <= i < |samples| => samples[i].fixtureId)
  }

  function StatusCounts(samples: seq<Sample>): map<string, nat> {
    map sample | sample in samples :: sample.status := Count(HasStatus(sample.status), samples)
  }

  function Statistics(key: MetricKey, samples: seq<Sample>): Summary {
    MetricSummary(Collect(Reading(key), samples))
  }

  function MetricSummaries(samples: seq<Sample>): map<MetricKey, Summary> {
    SummariesOver(METRIC_KEYS, samples)
  }

  function SummariesOver(keys: set<MetricKey>, samples: seq<Sample>): map<MetricKey, Summary> {
    map key | key in keys :: Statistics(key, samples)
  }

  function ReportOf(fold: string -> string, samples: seq<Sample>): Report {
    Report(
      |samples|, HostClasses(samples),
      Count(IsCompleteSample, samples), Count(Incomplete(fold), samples), Count(Failed(fold), samples),
      Count(Verified(), samples),
      StatusCounts(samples), MetricSummaries(samples), Map(Published, samples))
  }

  function ComputeReport(fold: string -> string, samples: seq<Sample>, expectLocal: bool): Result<Report, ReportError> {
    if |HostClasses(samples)| > 1 then Err(MixedHosts)
    else if expectLocal && Filter(IsRemote, samples) != [] then Err(RemoteSamples(Fixtures(Filter(IsRemote, samples))))
    else Ok(ReportOf(fold, samples))
  }

  /** Every sample is complete, incomplete or failed, and only one of them. */
  lemma ReportCountsAddUp(fold: string -> string, samples: seq<Sample>)
    requires fold("ready") != "failed"
    ensures var r := ReportOf(fold, samples);
            r.completeCount + r.incompleteCount + r.failedCount == r.sampleCount
  {
    var all := (sample: Sample) => true;
    forall sample | sample in samples
      ensures Settled(fold)(sample) <==> IsCompleteSample(sample) || Incomplete(fold)(sample)
    {
      if IsCompleteSample(sample) {
        assert sample.status == "ready";
      }
    }
    CountUnion(IsCompleteSample, Incomplete(fold), Settled(fold), samples);
    CountUnion(Settled(fold), Failed(fold), all, samples);
    CountAll(all, samples);
  }

  lemma MixedIff(hosts: set<HostClass>)
    ensures |hosts| > 1 <==> Loopback in hosts && Remote in hosts
  {
    forall host: HostClass | host in hosts ensures host in {Loopback, Remote} {
      match host
      case Loopback =>
      case Remote =>
    }
    assert hosts <= {Loopback, Remote};
    if Loopback in hosts && Remote in hosts {
      assert hosts == {Loopback, Remote};
    } else if Loopback in hosts {
      assert hosts == {Loopback};
    } else if Remote in hosts {
      assert hosts == {Remote};
    } else {
      assert hosts == {};
    }
  }

  /** A report is refused for exactly two reasons. */
  lemma ReportExistsIff(fold: string -> string, samples: seq<Sample>, expectLocal: bool)
    ensures ComputeReport(fold, samples, expectLocal).Ok? <==>
            && !((exists s | s in samples :: s.databaseHostClass == Some(Loopback)) && exists s | s in samples :: IsRemote(s))
            && (expectLocal ==> forall s | s in samples :: !IsRemote(s))
  {
    CollectMembers(HostClassOf, samples, Loopback);
    CollectMembers(HostClassOf, samples, Remote);
    MixedIff(HostClasses(samples));
    forall s | s in samples && IsRemote(s) ensures Filter(IsRemote, samples) != [] {
      FilterMembers(IsRemote, samples, s);
    }
    if Filter(IsRemote, samples) != [] {
      FilterMembers(IsRemote, samples, Filter(IsRemote, samples)[0]);
    }
  }

  lemma HostClassesPermuted(a: seq<Sample>, b: seq<Sample>)
    requires multiset(a) == multiset(b)
    ensures HostClasses(a) == HostClasses(b)
  {
    CollectPermuted(HostClassOf, a, b);
    forall host ensures host in HostClasses(a) <==> host in HostClasses(b) {
      assert host in Collect(HostClassOf, a) <==> host in multiset(Collect(HostClassOf, a));
      assert host in Collect(HostClassOf, b) <==> host in multiset(Collect(HostClassOf, b));
    }
  }

  lemma StatusCountsPermuted(a: seq<Sample>, b: seq<Sample>)
    requires multiset(a) == multiset(b)
    ensures StatusCounts(a) == StatusCounts(b)
  {
    forall sample ensures sample in a <==> sample in b {
      assert sample in a <==> sample in multiset(a);
      assert sample in b <==> sample in multiset(b);
    }
    forall sample | sample in a ensures Count(HasStatus(sample.status), a) == Count(HasStatus(sample.status), b) {
      FilterPermuted(HasStatus(sample.status), a, b);
    }
  }

  lemma StatisticsPermuted(key: MetricKey, a: seq<Sample>, b: seq<Sample>)
    requires multiset(a) == multiset(b)
    ensures Statistics(key, a) == Statistics(key, b)
  {
    CollectPermuted(Reading(key), a, b);
    SummaryPermuted(Collect(Reading(key), a), Collect(Reading(key), b));
  }

  lemma SummaryPermuted(values: seq<real>, others: seq<real>)
    requires multiset(values) == multiset(others)
    ensures MetricSummary(values) == MetricSummary(others)
  {
    assert Sort(Le, values) == Sort(Le, others) by {
      SortEqualIffPermutation(Le, values, others);
    }
  }

  lemma MetricsPermuted(keys: set<MetricKey>, a: seq<Sample>, b: seq<Sample>)
    requires multiset(a) == multiset(b)
    ensures SummariesOver(keys, a) == SummariesOver(keys, b)
  {
    forall key ensures Statistics(key, a) == Statistics(key, b) {
      StatisticsPermuted(key, a, b);
    }
  }

  lemma CountsPermuted(fold: string -> string, a: seq<Sample>, b: seq<Sample>)
    requires multiset(a) == multiset(b)
    ensures |a| == |b|
    ensures Count(IsCompleteSample, a) == Count(IsCompleteSample, b)
    ensures Count(Incomplete(fold), a) == Count(Incomplete(fold), b)
    ensures Count(Failed(fold), a) == Count(Failed(fold), b)
    ensures Count(Verified(), a) == Count(Verified(), b)
    ensures Count(IsRemote, a) == Count(IsRemote, b)
  {
    assert |multiset(a)| == |a| && |multiset(b)| == |b|;
    FilterPermuted(IsCompleteSample, a, b);
    FilterPermuted(Incomplete(fold), a, b);
    FilterPermuted(Failed(fold), a, b);
    FilterPermuted(Verified(), a, b);
    FilterPermuted(IsRemote, a, b);
  }

  /** Of the order of the samples the report keeps only the order of its per-sample list; whether there is one does not depend on it. */
  lemma ReportIgnoresOrder(fold: string -> string, a: seq<Sample>, b: seq<Sample>, expectLocal: bool)
    requires multiset(a) == multiset(b)
    ensures ComputeReport(fold, a, expectLocal).Ok? <==> ComputeReport(fold, b, expectLocal).Ok?
    ensures ReportOf(fold, a).(samples := []) == ReportOf(fold, b).(samples := [])
    ensures multiset(ReportOf(fold, a).samples) == multiset(ReportOf(fold, b).samples)
  {
    MapPermuted(Published, a, b);
    HostClassesPermuted(a, b);
    CountsPermuted(fold, a, b);
    StatusCountsPermuted(a, b);
    MetricsPermuted(METRIC_KEYS, a, b);
  }
}
