/** The ingestion-latency samples that the browser run writes and the latency evaluator reads. */
module IngestionSamples {
  import opened Wrappers

  datatype Stage =
    | QueueDelay | WorkerExecution | SourceDownload | ExtractionChunking | ChunkPersistence
    | Embedding | LocalIndexUpdate | SnapshotUpload | ReadyTransition

  datatype ClientTiming =
    | Hash | Initiate | SignedPut | Complete | AttachToServerReady | ServerReadyToUiReady
    | AttachToReady | SendToFirstToken | SendToComplete

  datatype MetricKey = Client(timing: ClientTiming) | Backend(stage: Stage)

  const CLIENT_TIMINGS: seq<ClientTiming> := [
    Hash, Initiate, SignedPut, Complete, AttachToServerReady, ServerReadyToUiReady,
    AttachToReady, SendToFirstToken, SendToComplete]

  const BACKEND_STAGES: seq<Stage> := [
    QueueDelay, WorkerExecution, SourceDownload, ExtractionChunking, ChunkPersistence,
    Embedding, LocalIndexUpdate, SnapshotUpload, ReadyTransition]

  const METRIC_KEYS: set<MetricKey> :=
    (set timing | timing in CLIENT_TIMINGS :: Client(timing)) + (set stage | stage in BACKEND_STAGES :: Backend(stage))

  /** The report's order of the metrics. */
  const METRIC_ORDER: seq<MetricKey> :=
    [Client(Hash), Client(Initiate), Client(SignedPut), Client(Complete), Client(AttachToServerReady),
     Client(ServerReadyToUiReady), Client(AttachToReady), Client(SendToFirstToken), Client(SendToComplete),
     Backend(QueueDelay), Backend(WorkerExecution), Backend(SourceDownload), Backend(ExtractionChunking),
     Backend(ChunkPersistence), Backend(Embedding), Backend(LocalIndexUpdate), Backend(SnapshotUpload),
     Backend(ReadyTransition)]

  datatype HostClass = Loopback | Remote

  datatype Sample = Sample(
    scenario: string,
    fixtureId: string,
    mediaType: string,
    bytes: nat,
    pages: nat,
    chunks: nat,
    snapshotBytes: Option<nat>,
    databaseHostClass: Option<HostClass>,
    storageProvider: Option<string>,
    embeddingProvider: Option<string>,
    status: string,
    retrievalVerified: bool,
    metrics: map<MetricKey, Option<real>>)

  /** `metrics_ms.get(key)` */
  function MetricOf(key: MetricKey, sample: Sample): Option<real> {
    if key in sample.metrics then sample.metrics[key] else None
  }

  lemma EveryStageIsListed(stage: Stage)
    ensures stage in BACKEND_STAGES
  {
    match stage
    case QueueDelay => assert BACKEND_STAGES[0] == stage;
    case WorkerExecution => assert BACKEND_STAGES[1] == stage;
    case SourceDownload => assert BACKEND_STAGES[2] == stage;
    case ExtractionChunking => assert BACKEND_STAGES[3] == stage;
    case ChunkPersistence => assert BACKEND_STAGES[4] == stage;
    case Embedding => assert BACKEND_STAGES[5] == stage;
    case LocalIndexUpdate => assert BACKEND_STAGES[6] == stage;
    case SnapshotUpload => assert BACKEND_STAGES[7] == stage;
    case ReadyTransition => assert BACKEND_STAGES[8] == stage;
  }

  lemma EveryKeyIsListed()
    ensures forall key: MetricKey :: key in METRIC_KEYS
  {
    forall key: MetricKey ensures key in METRIC_KEYS {
      match key
      case Backend(stage) => EveryStageIsListed(stage);
      case Client(timing) => EveryTimingIsListed(timing);
    }
  }

  lemma EveryTimingIsListed(timing: ClientTiming)
    ensures timing in CLIENT_TIMINGS
  {
    match timing
    case Hash => assert CLIENT_TIMINGS[0] == timing;
    case Initiate => assert CLIENT_TIMINGS[1] == timing;
    case SignedPut => assert CLIENT_TIMINGS[2] == timing;
    case Complete => assert CLIENT_TIMINGS[3] == timing;
    case AttachToServerReady => assert CLIENT_TIMINGS[4] == timing;
    case ServerReadyToUiReady => assert CLIENT_TIMINGS[5] == timing;
    case AttachToReady => assert CLIENT_TIMINGS[6] == timing;
    case SendToFirstToken => assert CLIENT_TIMINGS[7] == timing;
    case SendToComplete => assert CLIENT_TIMINGS[8] == timing;
  }
}
