/** What a join of timing events promises: completeness of its samples and independence of the log's order. */
module TimingProperties {
  import opened Wrappers
  import opened Filtering
  import opened IngestionSamples
  import opened TimingJoin
  import IngestionReport

  // ---- one sample ----

  /** A stage metric is present exactly when the document has exactly one event for the stage. */
  lemma StageMetricIff(events: seq<Event>, run: RunMetadata, o: Observation, stage: Stage)
    ensures var metric := MetricOf(Backend(stage), Joined(events, run, o));
            && (metric.Some? <==> Truthy(o.documentId) && |Reports(events, o.documentId.value, stage)| == 1)
            && (metric.Some? ==> metric.value == Reports(events, o.documentId.value, stage)[0].durationMs as real)
  {
    EveryStageIsListed(stage);
    var backend := BackendMetrics(EventsOf(events, o.documentId));
    assert Backend(stage) in backend && backend[Backend(stage)] == DurationOf(TheEvent(events, o.documentId, stage));
  }

  lemma ClientMetricKept(events: seq<Event>, run: RunMetadata, o: Observation, timing: ClientTiming)
    ensures MetricOf(Client(timing), Joined(events, run, o)) == if timing in o.timings then o.timings[timing] else None
  {
    assert Client(timing) !in BackendMetrics(EventsOf(events, o.documentId));
  }

  /** The join is the only thing between an observed `ready` and a reported one. */
  lemma ReadyIff(events: seq<Event>, run: RunMetadata, o: Observation)
    ensures Joined(events, run, o).status == "ready" <==> o.status == "ready" && BackendComplete(events, o.documentId)
    ensures Joined(events, run, o).status != o.status ==> o.status == "ready" && Joined(events, run, o).status == "incomplete"
    ensures BackendComplete(events, o.documentId) ==> !HasDuplicates(events, o.documentId)
  {
    if BackendComplete(events, o.documentId) {
      forall stage: Stage ensures !Duplicated(events, o.documentId, stage) {
        assert TheEvent(events, o.documentId, stage).Some?;
      }
    }
  }

  /** The latency evaluator counts a joined sample as complete exactly when both sides delivered everything. */
  lemma CompleteIff(events: seq<Event>, run: RunMetadata, o: Observation)
    ensures IngestionReport.IsCompleteSample(Joined(events, run, o)) <==>
            && o.status == "ready" && o.retrievalVerified
            && BackendComplete(events, o.documentId)
            && forall timing: ClientTiming :: timing in o.timings && o.timings[timing].Some?
  {
    var sample := Joined(events, run, o);
    ReadyIff(events, run, o);
    forall timing: ClientTiming
      ensures MetricOf(Client(timing), sample).Some? <==> timing in o.timings && o.timings[timing].Some?
    {
      ClientMetricKept(events, run, o, timing);
    }
    forall stage: Stage ensures MetricOf(Backend(stage), sample).Some? <==> TheEvent(events, o.documentId, stage).Some? {
      StageMetricIff(events, run, o, stage);
    }
    EveryKeyIsListed();
    if IngestionReport.IsCompleteSample(sample) {
      forall timing: ClientTiming ensures MetricOf(Client(timing), sample).Some? {
        assert Client(timing) in METRIC_KEYS;
      }
    }
    if BackendComplete(events, o.documentId) && forall timing: ClientTiming :: timing in o.timings && o.timings[timing].Some? {
      forall key | key in METRIC_KEYS ensures MetricOf(key, sample).Some? {
        match key
        case Client(timing) => assert timing in o.timings;
        case Backend(stage) => assert TheEvent(events, o.documentId, stage).Some?;
      }
    }
  }

  // ---- order of the log ----

  lemma TheEventPermuted(a: seq<Event>, b: seq<Event>, documentId: Option<string>, stage: Stage)
    requires multiset(a) == multiset(b)
    ensures TheEvent(a, documentId, stage) == TheEvent(b, documentId, stage)
    ensures Duplicated(a, documentId, stage) == Duplicated(b, documentId, stage)
  {
    if Truthy(documentId) {
      var inA, inB := Reports(a, documentId.value, stage), Reports(b, documentId.value, stage);
      FilterPermuted(For(documentId.value, stage), a, b);
      if |inA| == 1 {
        assert inA[0] in multiset(inB);
      }
    }
  }

  /** Nothing but a sample's fallback metadata can depend on the order of the events. */
  lemma OnlyFallbacksDependOnOrder(a: seq<Event>, b: seq<Event>, run: RunMetadata, o: Observation)
    requires multiset(a) == multiset(b)
    ensures Joined(a, run, o) == Joined(b, run, o)
    ensures HasDuplicates(a, o.documentId) == HasDuplicates(b, o.documentId)
    ensures BackendComplete(a, o.documentId) == BackendComplete(b, o.documentId)
  {
    forall stage: Stage
      ensures TheEvent(a, o.documentId, stage) == TheEvent(b, o.documentId, stage)
      ensures Duplicated(a, o.documentId, stage) == Duplicated(b, o.documentId, stage)
    {
      TheEventPermuted(a, b, o.documentId, stage);
    }
    SameMetrics(EventsOf(a, o.documentId), EventsOf(b, o.documentId));
  }

  lemma LastSettled<T(!new), U(!new)>(f: T -> Option<U>, a: seq<T>, b: seq<T>)
    requires multiset(a) == multiset(b)
    ensures Mixes(Collect(f, a)) <==> Mixes(Collect(f, b))
    ensures !Mixes(Collect(f, a)) ==> Last(Collect(f, a)) == Last(Collect(f, b))
  {
    CollectPermuted(f, a, b);
    var va, vb := Collect(f, a), Collect(f, b);
    forall v ensures v in va <==> v in vb {
      assert v in va <==> v in multiset(va);
      assert v in vb <==> v in multiset(vb);
    }
    assert (set v | v in va) == (set v | v in vb);
    if !Mixes(va) && va != [] {
      MixesIff(va);
      var x, y := va[|va| - 1], vb[|vb| - 1];
      assert x in va && y in vb;
    }
    assert va == [] <==> vb == [] by {
      if va != [] { assert va[0] in vb; }
      if vb != [] { assert vb[0] in va; }
    }
  }

  /** Without a mixing complaint, the whole outcome of the join is the same for every order of the log. */
  lemma JoinIgnoresOrder(messages: seq<string>, a: seq<Event>, b: seq<Event>, expectLocal: bool, observations: seq<Observation>)
    requires multiset(a) == multiset(b)
    requires var errors := ProtocolErrors(messages, a, expectLocal, observations);
             MixedHosts !in errors && MixedStorage !in errors && MixedEmbedding !in errors
    ensures JoinedAll(a, observations) == JoinedAll(b, observations)
    ensures ProtocolErrors(messages, a, expectLocal, observations) == ProtocolErrors(messages, b, expectLocal, observations)
  {
    UnmixedWithoutComplaint(messages, a, expectLocal, observations);
    RunMetadataPermuted(a, b);
    forall o ensures Joined(a, RunMetadataOf(a), o) == Joined(b, RunMetadataOf(b), o) {
      OnlyFallbacksDependOnOrder(a, b, RunMetadataOf(a), o);
    }
    SampleErrorsPermuted(a, b, expectLocal, observations);
  }

  predicate Unmixed(events: seq<Event>) {
    && !Mixes(Collect(QueueHost, events))
    && !Mixes(Collect(StorageProvider, events))
    && !Mixes(Collect(EmbeddingProvider, events))
  }

  lemma UnmixedWithoutComplaint(messages: seq<string>, events: seq<Event>, expectLocal: bool, observations: seq<Observation>)
    requires var errors := ProtocolErrors(messages, events, expectLocal, observations);
             MixedHosts !in errors && MixedStorage !in errors && MixedEmbedding !in errors
    ensures Unmixed(events)
  {
    var errors := RunErrors(events, expectLocal);
    assert forall e :: e in errors ==> e in ProtocolErrors(messages, events, expectLocal, observations);
    assert Mixes(Collect(QueueHost, events)) ==> MixedHosts in errors;
    assert Mixes(Collect(StorageProvider, events)) ==> MixedStorage in errors;
    assert Mixes(Collect(EmbeddingProvider, events)) ==> MixedEmbedding in errors;
  }

  lemma RunMetadataPermuted(a: seq<Event>, b: seq<Event>)
    requires multiset(a) == multiset(b) && Unmixed(a)
    ensures RunMetadataOf(a) == RunMetadataOf(b) && Unmixed(b)
  {
    LastSettled(QueueHost, a, b);
    LastSettled(StorageProvider, a, b);
    LastSettled(EmbeddingProvider, a, b);
  }

  lemma {:induction false} SampleErrorsPermuted(a: seq<Event>, b: seq<Event>, expectLocal: bool, observations: seq<Observation>)
    requires multiset(a) == multiset(b) && RunMetadataOf(a) == RunMetadataOf(b)
    ensures AllSampleErrors(a, expectLocal, observations) == AllSampleErrors(b, expectLocal, observations)
  {
    if observations != [] {
      OnlyFallbacksDependOnOrder(a, b, RunMetadataOf(a), observations[|observations| - 1]);
      SampleErrorsPermuted(a, b, expectLocal, observations[..|observations| - 1]);
    }
  }

  // ---- exactly when the order matters ----

  lemma MixedValuesMoveLast<T(!new), U(!new)>(f: T -> Option<U>, s: seq<T>) returns (b: seq<T>)
    requires Mixes(Collect(f, s))
    ensures multiset(b) == multiset(s)
    ensures Last(Collect(f, b)) != Last(Collect(f, s))
  {
    var values := Collect(f, s);
    MixesIff(values);
    var v, w :| v in values && w in values && v != w;
    var moved := if Last(values) == Some(v) then w else v;
    CollectMembers(f, s, moved);
    var i :| 0 <= i < |s| && f(s[i]) == Some(moved);
    b := MovedLast(s, i);
    assert Collect(f, b) == Collect(f, b[..|b| - 1]) + [moved];
  }

  lemma MovedLast<T>(s: seq<T>, i: nat) returns (b: seq<T>)
    requires i < |s|
    ensures multiset(b) == multiset(s) && b != [] && b[|b| - 1] == s[i]
  {
    b := s[..i] + s[i + 1..] + [s[i]];
    assert s == s[..i] + [s[i]] + s[i + 1..];
  }

  predicate OwnHost(events: seq<Event>, o: Observation) {
    HostOf(TheEvent(events, o.documentId, QueueDelay)).Some?
  }

  predicate OwnStorage(events: seq<Event>, o: Observation) {
    ProviderOf(TheEvent(events, o.documentId, SourceDownload)).Some?
  }

  predicate OwnEmbedding(events: seq<Event>, o: Observation) {
    ProviderOf(TheEvent(events, o.documentId, Embedding)).Some?
  }

  /** Every kind of metadata the run mixes is carried by each observed document's own events. */
  predicate NeedsNoMixedFallback(events: seq<Event>, observations: seq<Observation>) {
    forall o | o in observations ::
      && (Mixes(Collect(QueueHost, events)) ==> OwnHost(events, o))
      && (Mixes(Collect(StorageProvider, events)) ==> OwnStorage(events, o))
      && (Mixes(Collect(EmbeddingProvider, events)) ==> OwnEmbedding(events, o))
  }

  lemma OwnMetadataSettles(a: seq<Event>, b: seq<Event>, o: Observation)
    requires multiset(a) == multiset(b) && NeedsNoMixedFallback(a, [o])
    ensures Joined(a, RunMetadataOf(a), o) == Joined(b, RunMetadataOf(b), o)
  {
    assert o in [o];
    LastSettled(QueueHost, a, b);
    LastSettled(StorageProvider, a, b);
    LastSettled(EmbeddingProvider, a, b);
    OnlyFallbacksDependOnOrder(a, b, RunMetadataOf(b), o);
  }

  lemma MixedFallbackUnsettles(events: seq<Event>, o: Observation) returns (b: seq<Event>)
    requires !NeedsNoMixedFallback(events, [o])
    ensures multiset(b) == multiset(events)
    ensures Joined(b, RunMetadataOf(b), o) != Joined(events, RunMetadataOf(events), o)
  {
    if Mixes(Collect(QueueHost, events)) && !OwnHost(events, o) {
      b := MixedValuesMoveLast(QueueHost, events);
      TheEventPermuted(events, b, o.documentId, QueueDelay);
    } else if Mixes(Collect(StorageProvider, events)) && !OwnStorage(events, o) {
      b := MixedValuesMoveLast(StorageProvider, events);
      TheEventPermuted(events, b, o.documentId, SourceDownload);
    } else {
      b := MixedValuesMoveLast(EmbeddingProvider, events);
      TheEventPermuted(events, b, o.documentId, Embedding);
    }
  }

  /** The samples survive every reordering of the log if and only if none of them falls back on mixed metadata. */
  lemma SamplesIgnoreOrderIff(events: seq<Event>, observations: seq<Observation>)
    ensures (forall b | multiset(b) == multiset(events) :: JoinedAll(b, observations) == JoinedAll(events, observations))
            <==> NeedsNoMixedFallback(events, observations)
  {
    if NeedsNoMixedFallback(events, observations) {
      forall b | multiset(b) == multiset(events) ensures JoinedAll(b, observations) == JoinedAll(events, observations) {
        forall i | 0 <= i < |observations|
          ensures Joined(b, RunMetadataOf(b), observations[i]) == Joined(events, RunMetadataOf(events), observations[i])
        {
          OwnMetadataSettles(events, b, observations[i]);
        }
      }
    } else {
      var i :| 0 <= i < |observations| && !NeedsNoMixedFallback(events, [observations[i]]);
      var b := MixedFallbackUnsettles(events, observations[i]);
      assert JoinedAll(b, observations)[i] != JoinedAll(events, observations)[i];
    }
  }

  // ---- from the join to the report ----

  /** A join without complaint is one the latency evaluator accepts, local expectation included. */
  lemma CleanJoinIsReported(messages: seq<string>, events: seq<Event>, expectLocal: bool, observations: seq<Observation>,
                            fold: string -> string)
    requires ProtocolErrors(messages, events, expectLocal, observations) == []
    ensures IngestionReport.ComputeReport(fold, JoinedAll(events, observations), expectLocal).Ok?
    ensures forall i | 0 <= i < |observations| :: JoinedAll(events, observations)[i].status == observations[i].status
  {
    var samples := JoinedAll(events, observations);
    UnmixedWithoutComplaint(messages, events, expectLocal, observations);
    CleanSamples(events, expectLocal, observations);
    NoRunErrors(events, expectLocal);
    var host := RunMetadataOf(events).host;
    assert forall s | s in samples :: s.databaseHostClass == host;
    IngestionReport.ReportExistsIff(fold, samples, expectLocal);
  }

  lemma CleanSamples(events: seq<Event>, expectLocal: bool, observations: seq<Observation>)
    requires AllSampleErrors(events, expectLocal, observations) == [] && Unmixed(events)
    ensures forall i | 0 <= i < |observations| ::
              && JoinedAll(events, observations)[i].status == observations[i].status
              && JoinedAll(events, observations)[i].databaseHostClass == RunMetadataOf(events).host
  {
    forall i | 0 <= i < |observations|
      ensures JoinedAll(events, observations)[i].status == observations[i].status
      ensures JoinedAll(events, observations)[i].databaseHostClass == RunMetadataOf(events).host
    {
      CleanObservation(events, expectLocal, observations, i);
      HostsAgree(events, observations[i]);
    }
  }

  lemma NoRunErrors(events: seq<Event>, expectLocal: bool)
    requires RunErrors(events, expectLocal) == []
    ensures expectLocal ==> RunMetadataOf(events).host == Some(Loopback)
  {
    RemoteRunComplains(events, expectLocal);
  }

  lemma RemoteRunComplains(events: seq<Event>, expectLocal: bool)
    ensures expectLocal && RunMetadataOf(events).host != Some(Loopback) ==> ExpectedLocal in RunErrors(events, expectLocal)
  {
  }

  lemma {:induction false} CleanObservation(events: seq<Event>, expectLocal: bool, observations: seq<Observation>, i: nat)
    requires AllSampleErrors(events, expectLocal, observations) == [] && i < |observations|
    ensures observations[i].status == "ready" ==> BackendComplete(events, observations[i].documentId)
    ensures !HasDuplicates(events, observations[i].documentId)
  {
    var last := |observations| - 1;
    CleanLast(events, expectLocal, observations);
    if i < last {
      CleanObservation(events, expectLocal, observations[..last], i);
      assert observations[..last][i] == observations[i];
    } else {
      NoSampleErrors(events, expectLocal, observations[last]);
    }
  }

  lemma CleanLast(events: seq<Event>, expectLocal: bool, observations: seq<Observation>)
    requires observations != [] && AllSampleErrors(events, expectLocal, observations) == []
    ensures AllSampleErrors(events, expectLocal, observations[..|observations| - 1]) == []
    ensures SampleErrors(events, expectLocal, observations[|observations| - 1]) == []
  {
  }

  lemma NoSampleErrors(events: seq<Event>, expectLocal: bool, o: Observation)
    requires SampleErrors(events, expectLocal, o) == []
    ensures o.status == "ready" ==> BackendComplete(events, o.documentId)
    ensures !HasDuplicates(events, o.documentId)
  {
  }

  /** In an unmixed run a sample's own host class can only be the run's. */
  lemma HostsAgree(events: seq<Event>, o: Observation)
    requires Unmixed(events)
    ensures Joined(events, RunMetadataOf(events), o).databaseHostClass == RunMetadataOf(events).host
  {
    if OwnHost(events, o) {
      OwnHostAmongRuns(events, o);
      UnmixedLast(Collect(QueueHost, events), HostOf(TheEvent(events, o.documentId, QueueDelay)).value);
    }
  }

  lemma OwnHostAmongRuns(events: seq<Event>, o: Observation)
    requires OwnHost(events, o)
    ensures HostOf(TheEvent(events, o.documentId, QueueDelay)).value in Collect(QueueHost, events)
  {
    var own := TheEvent(events, o.documentId, QueueDelay).value;
    FilterMembers(For(o.documentId.value, QueueDelay), events, own);
    CollectMembers(QueueHost, events, own.hostClass.value);
  }

  lemma UnmixedLast<T(!new)>(values: seq<T>, v: T)
    requires !Mixes(values) && v in values
    ensures Last(values) == Some(v)
  {
    MixesIff(values);
    assert values[|values| - 1] in values;
  }
}
