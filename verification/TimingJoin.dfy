/** Joining the backend's timing events to the samples a browser run collected. */
module TimingJoin {
  import opened Wrappers
  import opened Filtering
  import opened IngestionSamples

  datatype Event = Event(
    documentId: string,
    stage: Stage,
    durationMs: nat,
    succeeded: bool,
    hostClass: Option<HostClass>,
    snapshotBytes: Option<nat>,
    provider: Option<string>)

  datatype Observation = Observation(
    documentId: Option<string>,
    scenario: string,
    fixtureId: string,
    mediaType: string,
    bytes: nat,
    pages: nat,
    chunks: nat,
    status: string,
    retrievalVerified: bool,
    timings: map<ClientTiming, Option<real>>)

  datatype ProtocolError =
    | Unparsed(message: string)
    | MissingMetadata
    | MixedHosts
    | MixedStorage
    | MixedEmbedding
    | ExpectedLocal
    | MissingStages(fixture: string)
    | DuplicateStages(fixture: string)
    | RemoteInLocalRun(fixture: string)

  /** JavaScript truthiness of an optional string. */
  predicate Truthy(s: Option<string>) {
    s.Some? && s.value != ""
  }

  function OrElse<T>(first: Option<T>, second: Option<T>): Option<T> {
    if first.Some? then first else second
  }

  // ---- what a join should report, by counting events ----

  function For(documentId: string, stage: Stage): Event -> bool {
    (e: Event) => e.documentId == documentId && e.stage == stage
  }

  /** The document's events for the stage, in log order. */
  function Reports(events: seq<Event>, documentId: string, stage: Stage): seq<Event> {
    Filter(For(documentId, stage), events)
  }

  /** The document's one event for the stage; none when it is missing or ambiguous. */
  function TheEvent(events: seq<Event>, documentId: Option<string>, stage: Stage): Option<Event> {
    if Truthy(documentId) && |Reports(events, documentId.value, stage)| == 1
    then Some(Reports(events, documentId.value, stage)[0])
    else None
  }

  function QueueHost(e: Event): Option<HostClass> {
    if e.stage == QueueDelay then e.hostClass else None
  }

  function StorageProvider(e: Event): Option<string> {
    if e.stage == SourceDownload then e.provider else None
  }

  function EmbeddingProvider(e: Event): Option<string> {
    if e.stage == Embedding then e.provider else None
  }

  function Last<T>(s: seq<T>): Option<T> {
    if s == [] then None else Some(s[|s| - 1])
  }

  /** The whole run's metadata, taken from the last event that carries it. */
  datatype RunMetadata = RunMetadata(host: Option<HostClass>, storage: Option<string>, embedding: Option<string>)

  function RunMetadataOf(events: seq<Event>): RunMetadata {
    RunMetadata(Last(Collect(QueueHost, events)), Last(Collect(StorageProvider, events)), Last(Collect(EmbeddingProvider, events)))
  }

  function HostOf(e: Option<Event>): Option<HostClass> {
    if e.Some? then e.value.hostClass else None
  }

  function ProviderOf(e: Option<Event>): Option<string> {
    if e.Some? then e.value.provider else None
  }

  function SnapshotOf(e: Option<Event>): Option<nat> {
    if e.Some? then e.value.snapshotBytes else None
  }

  function DurationOf(e: Option<Event>): Option<real> {
    if e.Some? then Some(e.value.durationMs as real) else None
  }

  predicate Duplicated(events: seq<Event>, documentId: Option<string>, stage: Stage) {
    Truthy(documentId) && |Reports(events, documentId.value, stage)| > 1
  }

  predicate HasDuplicates(events: seq<Event>, documentId: Option<string>) {
    exists stage: Stage :: Duplicated(events, documentId, stage)
  }

  /** Exactly one event, successful, for each of the nine stages, and the three of them that must carry metadata do. */
  predicate BackendComplete(events: seq<Event>, documentId: Option<string>) {
    && (forall stage: Stage :: TheEvent(events, documentId, stage).Some? && TheEvent(events, documentId, stage).value.succeeded)
    && HostOf(TheEvent(events, documentId, QueueDelay)).Some?
    && ProviderOf(TheEvent(events, documentId, SourceDownload)).Some?
    && ProviderOf(TheEvent(events, documentId, Embedding)).Some?
  }

  function EventsOf(events: seq<Event>, documentId: Option<string>): Stage -> Option<Event> {
    (stage: Stage) => TheEvent(events, documentId, stage)
  }

  function BackendMetrics(event: Stage -> Option<Event>): map<MetricKey, Option<real>> {
    map stage | stage in BACKEND_STAGES :: Backend(stage) := DurationOf(event(stage))
  }

  function ClientMetrics(o: Observation): map<MetricKey, Option<real>> {
    map timing | timing in o.timings :: Client(timing) := o.timings[timing]
  }

  function Joined(events: seq<Event>, run: RunMetadata, o: Observation): Sample {
    var event := EventsOf(events, o.documentId);
    Sample(
      o.scenario, o.fixtureId, o.mediaType, o.bytes, o.pages, o.chunks,
      OrElse(SnapshotOf(event(SnapshotUpload)), SnapshotOf(event(LocalIndexUpdate))),
      OrElse(HostOf(event(QueueDelay)), run.host),
      OrElse(ProviderOf(event(SourceDownload)), run.storage),
      OrElse(ProviderOf(event(Embedding)), run.embedding),
      if o.status == "ready" && !BackendComplete(events, o.documentId) then "incomplete" else o.status,
      o.retrievalVerified,
      ClientMetrics(o) + BackendMetrics(event))
  }

  function JoinedAll(events: seq<Event>, observations: seq<Observation>): seq<Sample> {
    Map(Joiner(events, RunMetadataOf(events)), observations)
  }

  function Joiner(events: seq<Event>, run: RunMetadata): Observation -> Sample {
    (o: Observation) => Joined(events, run, o)
  }

  function Complaint(condition: bool, error: ProtocolError): seq<ProtocolError> {
    if condition then [error] else []
  }

  predicate Mixes<T(==)>(values: seq<T>) {
    |set v | v in values| > 1
  }

  lemma MixesIff<T(!new)>(values: seq<T>)
    ensures Mixes(values) <==> exists v, w :: v in values && w in values && v != w
  {
    var distinct := set v | v in values;
    if v, w :| v in values && w in values && v != w {
      assert {v, w} <= distinct;
      SubsetSize({v, w}, distinct);
    } else if values != [] {
      assert values[0] in distinct;
      assert distinct == {values[0]};
    } else {
      assert distinct == {};
    }
  }

  function RunErrors(events: seq<Event>, expectLocal: bool): seq<ProtocolError> {
    var run := RunMetadataOf(events);
    Complaint(run.host.None? || !Truthy(run.storage) || !Truthy(run.embedding), MissingMetadata)
    + Complaint(Mixes(Collect(QueueHost, events)), MixedHosts)
    + Complaint(Mixes(Collect(StorageProvider, events)), MixedStorage)
    + Complaint(Mixes(Collect(EmbeddingProvider, events)), MixedEmbedding)
    + Complaint(expectLocal && run.host != Some(Loopback), ExpectedLocal)
  }

  function SampleErrors(events: seq<Event>, expectLocal: bool, o: Observation): seq<ProtocolError> {
    Complaint(o.status == "ready" && !BackendComplete(events, o.documentId), MissingStages(o.fixtureId))
    + Complaint(HasDuplicates(events, o.documentId), DuplicateStages(o.fixtureId))
    + Complaint(expectLocal && Joined(events, RunMetadataOf(events), o).databaseHostClass != Some(Loopback),
                RemoteInLocalRun(o.fixtureId))
  }

  function AllSampleErrors(events: seq<Event>, expectLocal: bool, observations: seq<Observation>): seq<ProtocolError> {
    if observations == [] then []
    else
      AllSampleErrors(events, expectLocal, observations[..|observations| - 1])
      + SampleErrors(events, expectLocal, observations[|observations| - 1])
  }

  function Unparseds(messages: seq<string>): seq<ProtocolError> {
    seq(|messages|, i requires 0 <= i < |messages| => Unparsed(messages[i]))
  }

  function ProtocolErrors(messages: seq<string>, events: seq<Event>, expectLocal: bool, observations: seq<Observation>)
    : seq<ProtocolError>
  {
    Unparseds(messages) + RunErrors(events, expectLocal) + AllSampleErrors(events, expectLocal, observations)
  }

  // ---- the join as it is computed ----

  type Index = map<string, map<Stage, Event>>

  type Duplicates = map<string, set<Stage>>

  /** The two maps say of every document and stage how many events there are, up to two, and which came first. */
  ghost predicate Indexes(byDocument: Index, duplicates: Duplicates, events: seq<Event>) {
    forall d: string, stage: Stage :: IndexesAt(byDocument, duplicates, events, d, stage)
  }

  ghost predicate IndexesAt(byDocument: Index, duplicates: Duplicates, events: seq<Event>, d: string, stage: Stage) {
    var reports := Reports(events, d, stage);
    && (d in byDocument && stage in byDocument[d] <==> reports != [])
    && (reports != [] ==> byDocument[d][stage] == reports[0])
    && (d in duplicates && stage in duplicates[d] <==> |reports| > 1)
  }

  method IndexEvents(events: seq<Event>) returns (byDocument: Index, duplicates: Duplicates)
    ensures Indexes(byDocument, duplicates, events)
  {
    byDocument, duplicates := map[], map[];
    for i := 0 to |events|
      invariant Indexes(byDocument, duplicates, events[..i])
    {
      var event := events[i];
      ghost var oldIndex, oldDuplicates := byDocument, duplicates;
      var stages := if event.documentId in byDocument then byDocument[event.documentId] else map[];
      if event.stage in stages {
        var seen := if event.documentId in duplicates then duplicates[event.documentId] else {};
        duplicates := duplicates[event.documentId := seen + {event.stage}];
      } else {
        stages := stages[event.stage := event];
      }
      byDocument := byDocument[event.documentId := stages];
      ghost var prefix := events[..i + 1];
      forall d: string, stage: Stage ensures IndexesAt(byDocument, duplicates, prefix, d, stage) {
        assert IndexesAt(oldIndex, oldDuplicates, events[..i], d, stage);
        FilterNext(For(d, stage), events, i);
      }
    }
    assert events[..|events|] == events;
  }

  method CheckRun(events: seq<Event>, expectLocal: bool) returns (run: RunMetadata, errors: seq<ProtocolError>)
    ensures run == RunMetadataOf(events)
    ensures errors == RunErrors(events, expectLocal)
  {
    var hosts, storages, embeddings :=
      Collect(QueueHost, events), Collect(StorageProvider, events), Collect(EmbeddingProvider, events);
    run := RunMetadata(Last(hosts), Last(storages), Last(embeddings));
    errors := Complaint(run.host.None? || !Truthy(run.storage) || !Truthy(run.embedding), MissingMetadata);
    errors := errors + Complaint(|set host | host in hosts| > 1, MixedHosts);
    errors := errors + Complaint(|set provider | provider in storages| > 1, MixedStorage);
    errors := errors + Complaint(|set provider | provider in embeddings| > 1, MixedEmbedding);
    errors := errors + Complaint(expectLocal && run.host != Some(Loopback), ExpectedLocal);
  }

  method JoinSamples(byDocument: Index, duplicates: Duplicates, run: RunMetadata, expectLocal: bool,
                     observations: seq<Observation>, ghost events: seq<Event>)
    returns (samples: seq<Sample>, errors: seq<ProtocolError>)
    requires Indexes(byDocument, duplicates, events)
    requires run == RunMetadataOf(events)
    ensures samples == JoinedAll(events, observations)
    ensures errors == AllSampleErrors(events, expectLocal, observations)
  {
    samples, errors := [], [];
    for i := 0 to |observations|
      invariant samples == JoinedAll(events, observations[..i])
      invariant errors == AllSampleErrors(events, expectLocal, observations[..i])
    {
      var sample, complaints := JoinOne(byDocument, duplicates, run, expectLocal, observations[i], events);
      samples := samples + [sample];
      errors := errors + complaints;
      JoinedAllNext(events, observations, i);
      AllSampleErrorsNext(events, expectLocal, observations, i);
    }
    assert observations[..|observations|] == observations;
  }

  lemma JoinedAllNext(events: seq<Event>, observations: seq<Observation>, i: nat)
    requires i < |observations|
    ensures JoinedAll(events, observations[..i + 1])
            == JoinedAll(events, observations[..i]) + [Joined(events, RunMetadataOf(events), observations[i])]
  {
    MapNext(Joiner(events, RunMetadataOf(events)), observations, i);
  }

  lemma AllSampleErrorsNext(events: seq<Event>, expectLocal: bool, observations: seq<Observation>, i: nat)
    requires i < |observations|
    ensures AllSampleErrors(events, expectLocal, observations[..i + 1])
            == AllSampleErrors(events, expectLocal, observations[..i]) + SampleErrors(events, expectLocal, observations[i])
  {
    assert observations[..i + 1][..i] == observations[..i];
  }

  method JoinOne(byDocument: Index, duplicates: Duplicates, run: RunMetadata, expectLocal: bool, o: Observation,
                 ghost events: seq<Event>)
    returns (sample: Sample, errors: seq<ProtocolError>)
    requires Indexes(byDocument, duplicates, events)
    requires run == RunMetadataOf(events)
    ensures sample == Joined(events, run, o)
    ensures errors == SampleErrors(events, expectLocal, o)
  {
    var known := Truthy(o.documentId);
    var stages := if known && o.documentId.value in byDocument then byDocument[o.documentId.value] else map[];
    var repeated := if known && o.documentId.value in duplicates then duplicates[o.documentId.value] else {};
    var eventFor := (stage: Stage) => Unambiguous(stages, repeated, stage);
    EventsFound(byDocument, duplicates, events, o.documentId, stages, repeated);
    SameMetrics(eventFor, EventsOf(events, o.documentId));

    var snapshot := OrElse(SnapshotOf(eventFor(SnapshotUpload)), SnapshotOf(eventFor(LocalIndexUpdate)));
    var host := OrElse(HostOf(eventFor(QueueDelay)), run.host);
    var storage := OrElse(ProviderOf(eventFor(SourceDownload)), run.storage);
    var embedder := OrElse(ProviderOf(eventFor(Embedding)), run.embedding);
    var hasDuplicate := |repeated| > 0;
    var complete := IsComplete(stages, repeated);
    errors := Complaint(o.status == "ready" && !complete, MissingStages(o.fixtureId));
    errors := errors + Complaint(hasDuplicate, DuplicateStages(o.fixtureId));
    errors := errors + Complaint(expectLocal && host != Some(Loopback), RemoteInLocalRun(o.fixtureId));
    sample := Sample(
      o.scenario, o.fixtureId, o.mediaType, o.bytes, o.pages, o.chunks, snapshot, host, storage, embedder,
      if o.status == "ready" && !complete then "incomplete" else o.status, o.retrievalVerified,
      ClientMetrics(o) + BackendMetrics(eventFor));
  }

  function Unambiguous(stages: map<Stage, Event>, repeated: set<Stage>, stage: Stage): Option<Event> {
    if stage in repeated then None else if stage in stages then Some(stages[stage]) else None
  }

  predicate IsComplete(stages: map<Stage, Event>, repeated: set<Stage>) {
    && |repeated| == 0
    && (forall stage | stage in BACKEND_STAGES :: stage in stages && stages[stage].succeeded)
    && HostOf(Unambiguous(stages, repeated, QueueDelay)).Some?
    && ProviderOf(Unambiguous(stages, repeated, SourceDownload)).Some?
    && ProviderOf(Unambiguous(stages, repeated, Embedding)).Some?
  }

  lemma SameMetrics(f: Stage -> Option<Event>, g: Stage -> Option<Event>)
    requires forall stage: Stage :: f(stage) == g(stage)
    ensures BackendMetrics(f) == BackendMetrics(g)
  {
  }

  /** Looking a stage up in the maps finds its one event. */
  lemma EventsFound(byDocument: Index, duplicates: Duplicates, events: seq<Event>, documentId: Option<string>,
                    stages: map<Stage, Event>, repeated: set<Stage>)
    requires Indexes(byDocument, duplicates, events)
    requires stages == if Truthy(documentId) && documentId.value in byDocument then byDocument[documentId.value] else map[]
    requires repeated == if Truthy(documentId) && documentId.value in duplicates then duplicates[documentId.value] else {}
    ensures forall stage: Stage :: Unambiguous(stages, repeated, stage) == TheEvent(events, documentId, stage)
    ensures |repeated| > 0 <==> HasDuplicates(events, documentId)
    ensures IsComplete(stages, repeated) <==> BackendComplete(events, documentId)
  {
    forall stage: Stage
      ensures Unambiguous(stages, repeated, stage) == TheEvent(events, documentId, stage)
      ensures stage in repeated <==> Duplicated(events, documentId, stage)
      ensures stage in repeated ==> TheEvent(events, documentId, stage).None?
      ensures stage in BACKEND_STAGES
    {
      EveryStageIsListed(stage);
      if Truthy(documentId) {
        assert IndexesAt(byDocument, duplicates, events, documentId.value, stage);
      }
    }
    if repeated != {} {
      var stage :| stage in repeated;
      assert Duplicated(events, documentId, stage);
    }
  }
}
