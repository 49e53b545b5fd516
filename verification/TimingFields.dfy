/** Every field of a joined sample, and every complaint of the join, read off the events of the log. */
module TimingFields {
  import opened Wrappers
  import opened Filtering
  import opened IngestionSamples
  import opened TimingJoin

  // ---- events by position ----

  /** Event i reports this stage of the observed document; an observation without a document id has none. */
  predicate ReportAt(events: seq<Event>, documentId: Option<string>, stage: Stage, i: nat) {
    && i < |events| && documentId.Some? && documentId.value != ""
    && events[i].documentId == documentId.value && events[i].stage == stage
  }

  /** Event i is the document's one report of the stage. */
  ghost predicate LoneAt(events: seq<Event>, documentId: Option<string>, stage: Stage, i: nat) {
    ReportAt(events, documentId, stage, i) && forall j: nat | ReportAt(events, documentId, stage, j) :: j == i
  }

  function HostField(e: Event): Option<HostClass> {
    e.hostClass
  }

  function ProviderField(e: Event): Option<string> {
    e.provider
  }

  function SnapshotField(e: Event): Option<nat> {
    e.snapshotBytes
  }

  /** The document's one report of the stage carries this value in the field. */
  ghost predicate Owns<T(!new)>(events: seq<Event>, documentId: Option<string>, stage: Stage, field: Event -> Option<T>, v: T) {
    exists i: nat :: LoneAt(events, documentId, stage, i) && field(events[i]) == Some(v)
  }

  predicate CarriedAt<T>(events: seq<Event>, stage: Stage, field: Event -> Option<T>, i: nat) {
    i < |events| && events[i].stage == stage && field(events[i]).Some?
  }

  /** The last event of the log that reports the stage, of whatever document, with the field present has this value in it. */
  ghost predicate RunHas<T(!new)>(events: seq<Event>, stage: Stage, field: Event -> Option<T>, v: T) {
    exists i: nat :: LastCarrier(events, stage, field, i) && field(events[i]) == Some(v)
  }

  ghost predicate LastCarrier<T>(events: seq<Event>, stage: Stage, field: Event -> Option<T>, i: nat) {
    CarriedAt(events, stage, field, i) && forall j: nat | i < j :: !CarriedAt(events, stage, field, j)
  }

  // ---- a sample and the complaints, from the events ----

  /** The document's own value, else the last one of the run, else nothing. */
  ghost predicate OwnOrRun<T(!new)>(value: Option<T>, events: seq<Event>, documentId: Option<string>, stage: Stage,
                                    field: Event -> Option<T>)
  {
    forall v :: value == Some(v) <==>
      || Owns(events, documentId, stage, field, v)
      || ((forall w :: !Owns(events, documentId, stage, field, w)) && RunHas(events, stage, field, v))
  }

  ghost predicate SnapshotStates(value: Option<nat>, events: seq<Event>, documentId: Option<string>) {
    forall v: nat :: value == Some(v) <==>
      || Owns(events, documentId, SnapshotUpload, SnapshotField, v)
      || ((forall w: nat :: !Owns(events, documentId, SnapshotUpload, SnapshotField, w))
          && Owns(events, documentId, LocalIndexUpdate, SnapshotField, v))
  }

  /** One successful report of this stage, with the field that must come with it. */
  ghost predicate StageDone(events: seq<Event>, documentId: Option<string>, stage: Stage) {
    exists i: nat ::
      && LoneAt(events, documentId, stage, i) && events[i].succeeded
      && (stage == QueueDelay ==> events[i].hostClass.Some?)
      && (stage == SourceDownload || stage == Embedding ==> events[i].provider.Some?)
  }

  ghost predicate AllDone(events: seq<Event>, documentId: Option<string>) {
    forall stage: Stage :: StageDone(events, documentId, stage)
  }

  ghost predicate SampleStates(events: seq<Event>, o: Observation, sample: Sample) {
    && sample.scenario == o.scenario && sample.fixtureId == o.fixtureId && sample.mediaType == o.mediaType
    && sample.bytes == o.bytes && sample.pages == o.pages && sample.chunks == o.chunks
    && sample.retrievalVerified == o.retrievalVerified
    && SnapshotStates(sample.snapshotBytes, events, o.documentId)
    && OwnOrRun(sample.databaseHostClass, events, o.documentId, QueueDelay, HostField)
    && OwnOrRun(sample.storageProvider, events, o.documentId, SourceDownload, ProviderField)
    && OwnOrRun(sample.embeddingProvider, events, o.documentId, Embedding, ProviderField)
    && sample.status == (if o.status == "ready" && !AllDone(events, o.documentId) then "incomplete" else o.status)
    && MetricsState(events, o, sample.metrics)
  }

  /** The observed timings as they are, and the duration of each stage reported once. */
  ghost predicate MetricsState(events: seq<Event>, o: Observation, metrics: map<MetricKey, Option<real>>) {
    && (forall timing: ClientTiming :: Client(timing) in metrics <==> timing in o.timings)
    && (forall timing: ClientTiming | timing in o.timings :: metrics[Client(timing)] == o.timings[timing])
    && forall stage: Stage ::
         && Backend(stage) in metrics
         && forall v :: metrics[Backend(stage)] == Some(v) <==> Lasted(events, o.documentId, stage, v)
  }

  ghost predicate Lasted(events: seq<Event>, documentId: Option<string>, stage: Stage, v: real) {
    exists i: nat :: LoneAt(events, documentId, stage, i) && v == events[i].durationMs as real
  }

  ghost predicate SamplesState(events: seq<Event>, observations: seq<Observation>, samples: seq<Sample>) {
    && |samples| == |observations|
    && forall i | 0 <= i < |samples| :: SampleStates(events, observations[i], samples[i])
  }

  ghost predicate RunMixes<T(!new)>(events: seq<Event>, stage: Stage, field: Event -> Option<T>) {
    exists i: nat, j: nat :: CarriedAt(events, stage, field, i) && CarriedAt(events, stage, field, j)
                             && field(events[i]) != field(events[j])
  }

  /** Some stage of the document is reported twice. */
  ghost predicate ReportedTwice(events: seq<Event>, documentId: Option<string>) {
    exists stage: Stage, i: nat, j: nat ::
      ReportAt(events, documentId, stage, i) && ReportAt(events, documentId, stage, j) && i != j
  }

  /** A complaint about this sample. */
  ghost predicate SampleComplains(events: seq<Event>, expectLocal: bool, o: Observation, sample: Sample, e: ProtocolError) {
    || (e == MissingStages(o.fixtureId) && o.status == "ready" && !AllDone(events, o.documentId))
    || (e == DuplicateStages(o.fixtureId) && ReportedTwice(events, o.documentId))
    || (e == RemoteInLocalRun(o.fixtureId) && expectLocal && sample.databaseHostClass != Some(Loopback))
  }

  ghost predicate RunComplains(events: seq<Event>, expectLocal: bool, e: ProtocolError) {
    match e
    case MissingMetadata =>
      || (forall v :: !RunHas(events, QueueDelay, HostField, v))
      || (forall v :: RunHas(events, SourceDownload, ProviderField, v) ==> v == "")
      || (forall v :: RunHas(events, Embedding, ProviderField, v) ==> v == "")
    case MixedHosts => RunMixes(events, QueueDelay, HostField)
    case MixedStorage => RunMixes(events, SourceDownload, ProviderField)
    case MixedEmbedding => RunMixes(events, Embedding, ProviderField)
    case ExpectedLocal => expectLocal && !RunHas(events, QueueDelay, HostField, Loopback)
    case _ => false
  }

  /** The complaints of the join are those of the parser, of the run and of the samples. */
  ghost predicate ErrorsState(messages: seq<string>, events: seq<Event>, expectLocal: bool, observations: seq<Observation>,
                              samples: seq<Sample>, errors: seq<ProtocolError>)
    requires |samples| == |observations|
  {
    forall e :: e in errors <==>
      || (e.Unparsed? && e.message in messages)
      || RunComplains(events, expectLocal, e)
      || SomeComplains(events, expectLocal, observations, samples, e)
  }

  ghost predicate SomeComplains(events: seq<Event>, expectLocal: bool, observations: seq<Observation>, samples: seq<Sample>,
                                e: ProtocolError)
    requires |samples| == |observations|
  {
    exists i | 0 <= i < |observations| :: SampleComplains(events, expectLocal, observations[i], samples[i], e)
  }

  // ---- that the samples are so ----

  lemma ReportsAt(events: seq<Event>, documentId: Option<string>, stage: Stage, i: nat)
    requires documentId.Some? && documentId.value != ""
    ensures LoneAt(events, documentId, stage, i) <==> OnlyAt(For(documentId.value, stage), events, i)
  {
    forall j: nat
      ensures ReportAt(events, documentId, stage, j) <==> j < |events| && For(documentId.value, stage)(events[j])
    {
    }
  }

  /** The event the join works with is the document's one report, when there is one. */
  lemma TheEventIsLone(events: seq<Event>, documentId: Option<string>, stage: Stage)
    ensures TheEvent(events, documentId, stage).Some? <==> exists i: nat :: LoneAt(events, documentId, stage, i)
    ensures forall i: nat | LoneAt(events, documentId, stage, i) :: TheEvent(events, documentId, stage) == Some(events[i])
  {
    if Truthy(documentId) {
      FilterOnly(For(documentId.value, stage), events);
      forall i: nat ensures LoneAt(events, documentId, stage, i) <==> OnlyAt(For(documentId.value, stage), events, i) {
        ReportsAt(events, documentId, stage, i);
      }
    }
  }

  lemma OwnedIs<T(!new)>(events: seq<Event>, documentId: Option<string>, stage: Stage, field: Event -> Option<T>)
    ensures var own := TheEvent(events, documentId, stage);
            var value := if own.Some? then field(own.value) else None;
            forall v :: value == Some(v) <==> Owns(events, documentId, stage, field, v)
  {
    TheEventIsLone(events, documentId, stage);
  }

  lemma RunIs<T(!new)>(events: seq<Event>, stage: Stage, field: Event -> Option<T>, carried: Event -> Option<T>)
    requires forall e :: carried(e) == if e.stage == stage then field(e) else None
    ensures forall v :: Last(Collect(carried, events)) == Some(v) <==> RunHas(events, stage, field, v)
  {
    CollectNone(carried, events);
    forall i: nat ensures CarriedAt(events, stage, field, i) <==> i < |events| && carried(events[i]).Some? {
    }
    forall i: nat ensures LastCarrier(events, stage, field, i) <==> LastAt(carried, events, i) {
    }
    forall i: nat | LastAt(carried, events, i) ensures Last(Collect(carried, events)) == carried(events[i]) {
      CollectLast(carried, events, i);
    }
    if i: nat :| CarriedAt(events, stage, field, i) {
      var last := SomeLastCarrier(events, stage, field, i);
      assert LastAt(carried, events, last);
    }
  }

  lemma {:induction false} SomeLastCarrier<T>(events: seq<Event>, stage: Stage, field: Event -> Option<T>, i: nat)
    returns (last: nat)
    requires CarriedAt(events, stage, field, i)
    ensures LastCarrier(events, stage, field, last)
    decreases |events| - i
  {
    last := i;
    if j: nat :| i < j && CarriedAt(events, stage, field, j) {
      last := SomeLastCarrier(events, stage, field, j);
    }
  }

  lemma HostIs(events: seq<Event>, documentId: Option<string>)
    ensures OwnOrRun(OrElse(HostOf(TheEvent(events, documentId, QueueDelay)), RunMetadataOf(events).host),
                     events, documentId, QueueDelay, HostField)
  {
    OwnedIs(events, documentId, QueueDelay, HostField);
    RunIs(events, QueueDelay, HostField, QueueHost);
  }

  lemma StorageIs(events: seq<Event>, documentId: Option<string>)
    ensures OwnOrRun(OrElse(ProviderOf(TheEvent(events, documentId, SourceDownload)), RunMetadataOf(events).storage),
                     events, documentId, SourceDownload, ProviderField)
  {
    OwnedIs(events, documentId, SourceDownload, ProviderField);
    RunIs(events, SourceDownload, ProviderField, StorageProvider);
  }

  lemma EmbedderIs(events: seq<Event>, documentId: Option<string>)
    ensures OwnOrRun(OrElse(ProviderOf(TheEvent(events, documentId, Embedding)), RunMetadataOf(events).embedding),
                     events, documentId, Embedding, ProviderField)
  {
    OwnedIs(events, documentId, Embedding, ProviderField);
    RunIs(events, Embedding, ProviderField, EmbeddingProvider);
  }

  lemma SnapshotIs(events: seq<Event>, documentId: Option<string>)
    ensures SnapshotStates(OrElse(SnapshotOf(TheEvent(events, documentId, SnapshotUpload)),
                                  SnapshotOf(TheEvent(events, documentId, LocalIndexUpdate))),
                           events, documentId)
  {
    OwnedIs(events, documentId, SnapshotUpload, SnapshotField);
    OwnedIs(events, documentId, LocalIndexUpdate, SnapshotField);
  }

  lemma CompleteIsAllDone(events: seq<Event>, documentId: Option<string>)
    ensures BackendComplete(events, documentId) <==> AllDone(events, documentId)
  {
    forall stage: Stage
      ensures StageDone(events, documentId, stage) <==>
                var own := TheEvent(events, documentId, stage);
                && own.Some? && own.value.succeeded
                && (stage == QueueDelay ==> own.value.hostClass.Some?)
                && (stage == SourceDownload || stage == Embedding ==> own.value.provider.Some?)
    {
      TheEventIsLone(events, documentId, stage);
    }
    if AllDone(events, documentId) {
      assert StageDone(events, documentId, QueueDelay) && StageDone(events, documentId, SourceDownload)
             && StageDone(events, documentId, Embedding);
      assert forall stage: Stage :: StageDone(events, documentId, stage);
    }
  }

  lemma MetricsAre(events: seq<Event>, o: Observation)
    ensures MetricsState(events, o, ClientMetrics(o) + BackendMetrics(EventsOf(events, o.documentId)))
  {
    var client, backend := ClientMetrics(o), BackendMetrics(EventsOf(events, o.documentId));
    forall timing: ClientTiming
      ensures Client(timing) in client + backend <==> timing in o.timings
      ensures timing in o.timings ==> (client + backend)[Client(timing)] == o.timings[timing]
    {
      assert Client(timing) !in backend;
    }
    forall stage: Stage
      ensures Backend(stage) in client + backend
      ensures forall v :: (client + backend)[Backend(stage)] == Some(v) <==> Lasted(events, o.documentId, stage, v)
    {
      EveryStageIsListed(stage);
      assert Backend(stage) in backend && backend[Backend(stage)] == DurationOf(TheEvent(events, o.documentId, stage));
      TheEventIsLone(events, o.documentId, stage);
    }
  }

  lemma SampleIsStated(events: seq<Event>, o: Observation)
    ensures SampleStates(events, o, Joined(events, RunMetadataOf(events), o))
  {
    HostIs(events, o.documentId);
    StorageIs(events, o.documentId);
    EmbedderIs(events, o.documentId);
    SnapshotIs(events, o.documentId);
    CompleteIsAllDone(events, o.documentId);
    MetricsAre(events, o);
  }

  lemma SamplesAreStated(events: seq<Event>, observations: seq<Observation>)
    ensures SamplesState(events, observations, JoinedAll(events, observations))
  {
    forall i | 0 <= i < |observations| ensures SampleStates(events, observations[i], JoinedAll(events, observations)[i]) {
      SampleIsStated(events, observations[i]);
    }
  }

  // ---- that the complaints are so ----

  lemma TwiceAt(events: seq<Event>, documentId: Option<string>, stage: Stage)
    ensures Duplicated(events, documentId, stage) <==>
              exists i: nat, j: nat :: ReportAt(events, documentId, stage, i) && ReportAt(events, documentId, stage, j) && i != j
  {
    if Truthy(documentId) {
      var p := For(documentId.value, stage);
      FilterSeveral(p, events);
      if i: nat, j: nat :| ReportAt(events, documentId, stage, i) && ReportAt(events, documentId, stage, j) && i != j {
        assert BothAt(p, events, i, j);
      }
      if i: nat, j: nat :| BothAt(p, events, i, j) {
        assert ReportAt(events, documentId, stage, i) && ReportAt(events, documentId, stage, j);
      }
    }
  }

  lemma TwiceIff(events: seq<Event>, documentId: Option<string>)
    ensures HasDuplicates(events, documentId) <==> ReportedTwice(events, documentId)
  {
    if stage: Stage :| Duplicated(events, documentId, stage) {
      TwiceAt(events, documentId, stage);
    }
    if stage: Stage, i: nat, j: nat :|
        ReportAt(events, documentId, stage, i) && ReportAt(events, documentId, stage, j) && i != j {
      TwiceAt(events, documentId, stage);
      assert Duplicated(events, documentId, stage);
    }
  }

  lemma SampleErrorsAre(events: seq<Event>, expectLocal: bool, o: Observation, e: ProtocolError)
    ensures e in SampleErrors(events, expectLocal, o) <==>
              SampleComplains(events, expectLocal, o, Joined(events, RunMetadataOf(events), o), e)
  {
    CompleteIsAllDone(events, o.documentId);
    TwiceIff(events, o.documentId);
  }

  lemma SomeComplainsLast(events: seq<Event>, expectLocal: bool, observations: seq<Observation>, samples: seq<Sample>,
                          e: ProtocolError)
    requires |samples| == |observations| > 0
    ensures var last := |observations| - 1;
            SomeComplains(events, expectLocal, observations, samples, e) <==>
              || SomeComplains(events, expectLocal, observations[..last], samples[..last], e)
              || SampleComplains(events, expectLocal, observations[last], samples[last], e)
  {
    var last := |observations| - 1;
    if i :| 0 <= i < last && SampleComplains(events, expectLocal, observations[..last][i], samples[..last][i], e) {
      assert SampleComplains(events, expectLocal, observations[i], samples[i], e);
    }
    if i :| 0 <= i < |observations| && SampleComplains(events, expectLocal, observations[i], samples[i], e) && i != last {
      assert SampleComplains(events, expectLocal, observations[..last][i], samples[..last][i], e);
    }
  }

  lemma AllSampleErrorsLast(events: seq<Event>, expectLocal: bool, observations: seq<Observation>, e: ProtocolError)
    requires observations != []
    ensures var last := |observations| - 1;
            e in AllSampleErrors(events, expectLocal, observations) <==>
              || e in AllSampleErrors(events, expectLocal, observations[..last])
              || e in SampleErrors(events, expectLocal, observations[last])
  {
  }

  lemma {:induction false} AllSampleErrorsAre(events: seq<Event>, expectLocal: bool, observations: seq<Observation>,
                                              e: ProtocolError)
    ensures e in AllSampleErrors(events, expectLocal, observations) <==>
              SomeComplains(events, expectLocal, observations, JoinedAll(events, observations), e)
  {
    if observations != [] {
      var last := |observations| - 1;
      var front, samples := observations[..last], JoinedAll(events, observations);
      assert samples[..last] == JoinedAll(events, front) && samples[last] == Joined(events, RunMetadataOf(events), observations[last]);
      AllSampleErrorsAre(events, expectLocal, front, e);
      assert e in SampleErrors(events, expectLocal, observations[last]) <==>
             SampleComplains(events, expectLocal, observations[last], samples[last], e) by {
        SampleErrorsAre(events, expectLocal, observations[last], e);
      }
      AllSampleErrorsLast(events, expectLocal, observations, e);
      SomeComplainsLast(events, expectLocal, observations, samples, e);
    }
  }

  lemma CarriedIn<T(!new)>(events: seq<Event>, stage: Stage, field: Event -> Option<T>, carried: Event -> Option<T>, v: T)
    requires forall e :: carried(e) == if e.stage == stage then field(e) else None
    ensures v in Collect(carried, events) <==>
            exists i: nat :: CarriedAt(events, stage, field, i) && field(events[i]) == Some(v)
  {
    CollectMembers(carried, events, v);
    if e :| e in events && carried(e) == Some(v) {
      var i :| 0 <= i < |events| && events[i] == e;
      assert CarriedAt(events, stage, field, i);
    }
    if i: nat :| CarriedAt(events, stage, field, i) && field(events[i]) == Some(v) {
      assert events[i] in events;
    }
  }

  lemma MixesIs<T(!new)>(events: seq<Event>, stage: Stage, field: Event -> Option<T>, carried: Event -> Option<T>)
    requires forall e :: carried(e) == if e.stage == stage then field(e) else None
    ensures Mixes(Collect(carried, events)) <==> RunMixes(events, stage, field)
  {
    var values := Collect(carried, events);
    MixesIff(values);
    if v, w :| v in values && w in values && v != w {
      CarriedIn(events, stage, field, carried, v);
      CarriedIn(events, stage, field, carried, w);
    }
    if i: nat, j: nat :| CarriedAt(events, stage, field, i) && CarriedAt(events, stage, field, j)
                         && field(events[i]) != field(events[j]) {
      CarriedIn(events, stage, field, carried, field(events[i]).value);
      CarriedIn(events, stage, field, carried, field(events[j]).value);
    }
  }

  lemma MetadataMissingIs(events: seq<Event>)
    ensures var run := RunMetadataOf(events);
            run.host.None? || !Truthy(run.storage) || !Truthy(run.embedding) <==> RunComplains(events, false, MissingMetadata)
  {
    RunIs(events, QueueDelay, HostField, QueueHost);
    RunIs(events, SourceDownload, ProviderField, StorageProvider);
    RunIs(events, Embedding, ProviderField, EmbeddingProvider);
  }

  lemma LocalMissingIs(events: seq<Event>)
    ensures RunMetadataOf(events).host != Some(Loopback) <==> !RunHas(events, QueueDelay, HostField, Loopback)
  {
    RunIs(events, QueueDelay, HostField, QueueHost);
  }

  lemma RunErrorMembers(events: seq<Event>, expectLocal: bool, e: ProtocolError)
    ensures e in RunErrors(events, expectLocal) <==>
              var run := RunMetadataOf(events);
              || (e == MissingMetadata && (run.host.None? || !Truthy(run.storage) || !Truthy(run.embedding)))
              || (e == MixedHosts && Mixes(Collect(QueueHost, events)))
              || (e == MixedStorage && Mixes(Collect(StorageProvider, events)))
              || (e == MixedEmbedding && Mixes(Collect(EmbeddingProvider, events)))
              || (e == ExpectedLocal && expectLocal && run.host != Some(Loopback))
  {
  }

  lemma RunErrorsAre(events: seq<Event>, expectLocal: bool, e: ProtocolError)
    ensures e in RunErrors(events, expectLocal) <==> RunComplains(events, expectLocal, e)
  {
    RunErrorMembers(events, expectLocal, e);
    match e
    case MissingMetadata => MetadataMissingIs(events);
    case MixedHosts => MixesIs(events, QueueDelay, HostField, QueueHost);
    case MixedStorage => MixesIs(events, SourceDownload, ProviderField, StorageProvider);
    case MixedEmbedding => MixesIs(events, Embedding, ProviderField, EmbeddingProvider);
    case ExpectedLocal => LocalMissingIs(events);
    case _ =>
  }

  lemma ErrorsAreStated(messages: seq<string>, events: seq<Event>, expectLocal: bool, observations: seq<Observation>)
    ensures ErrorsState(messages, events, expectLocal, observations, JoinedAll(events, observations),
                        ProtocolErrors(messages, events, expectLocal, observations))
  {
    forall e
      ensures e in RunErrors(events, expectLocal) <==> RunComplains(events, expectLocal, e)
      ensures e in AllSampleErrors(events, expectLocal, observations) <==>
                SomeComplains(events, expectLocal, observations, JoinedAll(events, observations), e)
    {
      RunErrorsAre(events, expectLocal, e);
      AllSampleErrorsAre(events, expectLocal, observations, e);
    }
    forall e ensures e in Unparseds(messages) <==> e.Unparsed? && e.message in messages {
      if e.Unparsed? && e.message in messages {
        var i :| 0 <= i < |messages| && messages[i] == e.message;
        assert Unparseds(messages)[i] == e;
      }
    }
  }

  // ---- the join ----

  method JoinBackendTimings(messages: seq<string>, events: seq<Event>, expectLocal: bool, observations: seq<Observation>)
    returns (samples: seq<Sample>, errors: seq<ProtocolError>)
    ensures samples == JoinedAll(events, observations)
    ensures errors == ProtocolErrors(messages, events, expectLocal, observations)
    ensures SamplesState(events, observations, samples)
    ensures ErrorsState(messages, events, expectLocal, observations, samples, errors)
  {
    var byDocument, duplicates := IndexEvents(events);
    var run, runErrors := CheckRun(events, expectLocal);
    var sampleErrors;
    samples, sampleErrors := JoinSamples(byDocument, duplicates, run, expectLocal, observations, events);
    SamplesAreStated(events, observations);
    ErrorsAreStated(messages, events, expectLocal, observations);
    errors := Unparseds(messages) + runErrors + sampleErrors;
  }
}
