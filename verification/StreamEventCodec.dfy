/** The wire form of stream events, and what decoding an encoded event gives back. */
module StreamEventCodec {
  import opened Wrappers
  import opened JsonValues
  import opened StreamEvents
  import opened ActivityCodec
  import ChatActivities
  import ChatEvidence
  import TaskProposals
  import Text

  /** Bad JSON, or a record that its own validation rejects. */
  datatype CodecError = Malformed(error: DecodeError) | Rejected(objection: EventError)

  // ---- encoding ----

  const FIELDS: seq<string> := [
    "event_id", "session_id", "turn_id", "event_type", "text", "memory_type", "source_id", "code", "safe_message",
    "proposal", "citation_scope", "project_id", "document_id", "document_title", "section", "page_start", "page_end",
    "rag_evidence", "retrieval_status", "activities", "execution_trace", "artifact_refs"]

  function OptionalNumber(n: Option<int>): Json {
    if n.Some? then JNumber(n.value) else JNull
  }

  function EventTypeName(t: EventType): string {
    match t
    case STARTED => "started"
    case ACTIVITY => "activity"
    case DELTA => "delta"
    case MEMORY_CITATION => "memory_citation"
    case TASK_PROPOSAL => "task_proposal"
    case COMPLETED => "completed"
    case ERROR => "error"
  }

  function MemoryTypeName(t: MemoryCitationType): string {
    match t
    case Declarative => "declarative"
    case Episodic => "episodic"
    case Semantic => "semantic"
  }

  function FieldJson(py: Python, e: FlatEvent, name: string): Json {
    if name == "event_id" then JString(e.eventId)
    else if name == "session_id" then JString(e.sessionId)
    else if name == "turn_id" then JString(e.turnId)
    else if name == "event_type" then JString(EventTypeName(e.eventType))
    else if name == "text" then OptionalString(e.text)
    else if name == "memory_type" then (if e.memoryType.Some? then JString(MemoryTypeName(e.memoryType.value)) else JNull)
    else if name == "source_id" then OptionalString(e.sourceId)
    else if name == "code" then OptionalString(e.code)
    else if name == "safe_message" then OptionalString(e.safeMessage)
    else if name == "proposal" then (if e.proposal.Some? then Jsonable(e.proposal.value) else JNull)
    else if name == "citation_scope" then OptionalString(e.citationScope)
    else if name == "project_id" then OptionalString(e.projectId)
    else if name == "document_id" then OptionalString(e.documentId)
    else if name == "document_title" then OptionalString(e.documentTitle)
    else if name == "section" then OptionalString(e.section)
    else if name == "page_start" then OptionalNumber(e.pageStart)
    else if name == "page_end" then OptionalNumber(e.pageEnd)
    else if name == "rag_evidence" then
      JList(seq(|e.ragEvidence|, i requires 0 <= i < |e.ragEvidence| =>
        JObject(ChatEvidence.EvidenceEntries(e.ragEvidence[i]))))
    else if name == "retrieval_status" then OptionalString(e.retrievalStatus)
    else if name == "activities" then
      JList(seq(|e.activities|, i requires 0 <= i < |e.activities| =>
        JObject(ActivityEntries(py, e.activities[i]))))
    else if name == "execution_trace" then
      (if e.executionTrace.Some? then JObject(ChatEvidence.TraceEntries(e.executionTrace.value)) else JNull)
    else if name == "artifact_refs" then
      JList(seq(|e.artifactRefs|, i requires 0 <= i < |e.artifactRefs| => Jsonable(e.artifactRefs[i])))
    else JNull
  }

  /** `to_dict`: every field, except those that are None. */
  function Encode(py: Python, e: FlatEvent): map<string, Json> {
    map name | name in FIELDS && FieldJson(py, e, name) != JNull :: FieldJson(py, e, name)
  }

  // ---- decoding ----

  /** `data.get(name)` */
  function DataGet(data: map<string, Json>, name: string): Json {
    if name in data then data[name] else JNull
  }

  function RequireString(data: map<string, Json>, name: string): Result<string, DecodeError> {
    if name !in data then Err(MissingField)
    else if data[name].JString? && !Text.Blank(data[name].s) then Ok(data[name].s)
    else Err(BadType)
  }

  function EventTypeFrom(data: map<string, Json>): Result<EventType, DecodeError> {
    if "event_type" !in data then Err(MissingField)
    else match data["event_type"]
      case JString(s) =>
        if s == "started" then Ok(STARTED)
        else if s == "activity" then Ok(ACTIVITY)
        else if s == "delta" then Ok(DELTA)
        else if s == "memory_citation" then Ok(MEMORY_CITATION)
        else if s == "task_proposal" then Ok(TASK_PROPOSAL)
        else if s == "completed" then Ok(COMPLETED)
        else if s == "error" then Ok(ERROR)
        else Err(BadType)
      case _ => Err(BadType)
  }

  function MemoryTypeFrom(j: Json): Result<Option<MemoryCitationType>, DecodeError> {
    match j
    case JNull => Ok(None)
    case JString(s) =>
      if s == "declarative" then Ok(Some(Declarative))
      else if s == "episodic" then Ok(Some(Episodic))
      else if s == "semantic" then Ok(Some(Semantic))
      else Err(BadType)
    case _ => Err(BadType)
  }

  /** Text-like payloads that are not strings are dropped. */
  function StringOrNone(j: Json): Option<string> {
    if j.JString? then Some(j.s) else None
  }

  /** Coordinates and the retrieval status go through `str`. */
  function Stringified(py: Python, j: Json): Option<string> {
    match j
    case JNull => None
    case JString(s) => Some(s)
    case _ => Some(py.str(j))
  }

  function OptionalInt(j: Json): Result<Option<int>, DecodeError> {
    match j
    case JNull => Ok(None)
    case JNumber(n) => Ok(Some(n))
    case _ => Err(BadType)
  }

  function ProposalFrom(j: Json): Result<Option<Value>, DecodeError> {
    match j
    case JNull => Ok(None)
    case JObject(_) => Ok(Some(Freeze(j)))
    case _ => Err(BadType)
  }

  function ItemsOf(data: map<string, Json>, name: string): Result<seq<Json>, DecodeError> {
    if name !in data then Ok([])
    else if data[name].JList? then Ok(data[name].items)
    else Err(BadType)
  }

  /** The fields of a mapping. */
  type Entries = seq<(string, Json)>

  function DecodeAll<T>(items: seq<Json>, decode: Entries -> Result<T, DecodeError>): Result<seq<T>, DecodeError> {
    if items == [] then Ok([])
    else if !items[0].JObject? then Err(BadType)
    else
      var first := decode(items[0].entries);
      var rest := DecodeAll(items[1..], decode);
      if first.Err? then Err(first.error)
      else if rest.Err? then rest
      else Ok([first.value] + rest.value)
  }

  function ListFrom<T>(data: map<string, Json>, name: string, decode: Entries -> Result<T, DecodeError>)
    : Result<seq<T>, DecodeError>
  {
    var items := ItemsOf(data, name);
    if items.Err? then Err(items.error) else DecodeAll(items.value, decode)
  }

  function ActivityDecoder(py: Python): Entries -> Result<ChatActivities.Activity, DecodeError> {
    (entries: Entries) => ActivityFrom(py, entries)
  }

  /** `_as_mapping`, frozen by the record. */
  function FrozenFrom(entries: Entries): Result<Value, DecodeError> {
    Ok(Freeze(JObject(entries)))
  }

  function TraceFrom(j: Json): Result<Option<ChatEvidence.Trace>, DecodeError> {
    match j
    case JNull => Ok(None)
    case JObject(entries) =>
      var trace := ChatEvidence.TraceFrom(entries);
      if trace.Err? then Err(trace.error) else Ok(Some(trace.value))
    case _ => Err(BadType)
  }

  /** `stream_event_from_dict`, with the record's own validation at the end. */
  function Decode(py: Python, data: map<string, Json>): Result<FlatEvent, CodecError> {
    if exists name | name in data :: name !in FIELDS then Err(Malformed(UnexpectedField))
    else
      var eventType := EventTypeFrom(data);
      var eventId, sessionId, turnId := RequireString(data, "event_id"), RequireString(data, "session_id"), RequireString(data, "turn_id");
      var memoryType, proposal := MemoryTypeFrom(DataGet(data, "memory_type")), ProposalFrom(DataGet(data, "proposal"));
      var pageStart, pageEnd := OptionalInt(DataGet(data, "page_start")), OptionalInt(DataGet(data, "page_end"));
      var evidence := ListFrom(data, "rag_evidence", ChatEvidence.EvidenceFrom);
      var activities := ListFrom(data, "activities", ActivityDecoder(py));
      var trace := TraceFrom(DataGet(data, "execution_trace"));
      var artifacts := ListFrom(data, "artifact_refs", FrozenFrom);
      if eventType.Err? then Err(Malformed(eventType.error))
      else if eventId.Err? then Err(Malformed(eventId.error))
      else if sessionId.Err? then Err(Malformed(sessionId.error))
      else if turnId.Err? then Err(Malformed(turnId.error))
      else if memoryType.Err? then Err(Malformed(memoryType.error))
      else if proposal.Err? then Err(Malformed(proposal.error))
      else if pageStart.Err? then Err(Malformed(pageStart.error))
      else if pageEnd.Err? then Err(Malformed(pageEnd.error))
      else if evidence.Err? then Err(Malformed(evidence.error))
      else if activities.Err? then Err(Malformed(activities.error))
      else if trace.Err? then Err(Malformed(trace.error))
      else if artifacts.Err? then Err(Malformed(artifacts.error))
      else
        var e := FlatEvent(
          eventId.value, sessionId.value, turnId.value, eventType.value,
          StringOrNone(DataGet(data, "text")), memoryType.value, StringOrNone(DataGet(data, "source_id")),
          StringOrNone(DataGet(data, "code")), StringOrNone(DataGet(data, "safe_message")), proposal.value,
          Stringified(py, DataGet(data, "citation_scope")), Stringified(py, DataGet(data, "project_id")),
          Stringified(py, DataGet(data, "document_id")), Stringified(py, DataGet(data, "document_title")),
          Stringified(py, DataGet(data, "section")), pageStart.value, pageEnd.value,
          evidence.value, Stringified(py, DataGet(data, "retrieval_status")), activities.value, trace.value, artifacts.value);
        var objection := Objection(TaskProposals.ProposalOk, e);
        if objection.Some? then Err(Rejected(objection.value)) else Ok(e)
  }

  // ---- round trip ----

  /** Inside artifact references datetimes become strings and enumeration members their values; nothing else changes. */
  function NormalizeEvent(e: FlatEvent): FlatEvent {
    e.(artifactRefs := seq(|e.artifactRefs|, i requires 0 <= i < |e.artifactRefs| => Normalize(e.artifactRefs[i])))
  }

  /** The record's own validation has no objection. */
  predicate Accepted(e: FlatEvent) {
    Objection(TaskProposals.ProposalOk, e).None?
  }

  /** The record's parts exist: their constructors accepted them, and artifact references are mappings. */
  predicate Constructed(e: FlatEvent) {
    && (forall i | 0 <= i < |e.ragEvidence| :: ChatEvidence.EvidenceOk(e.ragEvidence[i]))
    && (forall i | 0 <= i < |e.activities| :: ActivityOk(e.activities[i]))
    && (e.executionTrace.Some? ==> ChatEvidence.TraceOk(e.executionTrace.value))
    && forall i | 0 <= i < |e.artifactRefs| :: e.artifactRefs[i].VMapping?
  }

  lemma GetEncoded(py: Python, e: FlatEvent, name: string)
    requires name in FIELDS
    ensures DataGet(Encode(py, e), name) == FieldJson(py, e, name)
    ensures name in Encode(py, e) <==> FieldJson(py, e, name) != JNull
  {
  }

  lemma {:induction false} DecodeAllInverts<T>(values: seq<T>, encoded: seq<Json>, decode: Entries -> Result<T, DecodeError>)
    requires |values| == |encoded|
    requires forall i | 0 <= i < |values| :: encoded[i].JObject? && decode(encoded[i].entries) == Ok(values[i])
    ensures DecodeAll(encoded, decode) == Ok(values)
  {
    if values != [] {
      DecodeAllInverts(values[1..], encoded[1..], decode);
      assert values == [values[0]] + values[1..];
    }
  }

  /** That change is invisible to the validator. */
  lemma NormalizeKeepsObjection(e: FlatEvent)
    ensures Objection(TaskProposals.ProposalOk, NormalizeEvent(e)) == Objection(TaskProposals.ProposalOk, e)
  {
    var n := NormalizeEvent(e);
    assert n.artifactRefs == [] <==> e.artifactRefs == [];
    forall p: Payload ensures Present(n, p) == Present(e, p) {
    }
  }

  lemma EvidenceDecodes(py: Python, e: FlatEvent)
    requires Constructed(e)
    ensures ListFrom(Encode(py, e), "rag_evidence", ChatEvidence.EvidenceFrom) == Ok(e.ragEvidence)
  {
    GetEncoded(py, e, "rag_evidence");
    forall i | 0 <= i < |e.ragEvidence|
      ensures ChatEvidence.EvidenceFrom(ChatEvidence.EvidenceEntries(e.ragEvidence[i])) == Ok(e.ragEvidence[i])
    {
      ChatEvidence.EvidenceRoundTrip(e.ragEvidence[i]);
    }
    DecodeAllInverts(e.ragEvidence, FieldJson(py, e, "rag_evidence").items, ChatEvidence.EvidenceFrom);
  }

  lemma ActivitiesDecode(py: Python, e: FlatEvent)
    requires Sound(py) && Constructed(e)
    ensures ListFrom(Encode(py, e), "activities", ActivityDecoder(py)) == Ok(e.activities)
  {
    GetEncoded(py, e, "activities");
    forall i | 0 <= i < |e.activities|
      ensures ActivityDecoder(py)(ActivityEntries(py, e.activities[i])) == Ok(e.activities[i])
    {
      ActivityRoundTrip(py, e.activities[i]);
    }
    DecodeAllInverts(e.activities, FieldJson(py, e, "activities").items, ActivityDecoder(py));
  }

  lemma ArtifactsDecode(py: Python, e: FlatEvent)
    requires Constructed(e)
    ensures ListFrom(Encode(py, e), "artifact_refs", FrozenFrom) == Ok(NormalizeEvent(e).artifactRefs)
  {
    GetEncoded(py, e, "artifact_refs");
    forall i | 0 <= i < |e.artifactRefs|
      ensures Jsonable(e.artifactRefs[i]).JObject? && Freeze(Jsonable(e.artifactRefs[i])) == Normalize(e.artifactRefs[i])
    {
      FreezeJsonable(e.artifactRefs[i]);
    }
    DecodeAllInverts(NormalizeEvent(e).artifactRefs, FieldJson(py, e, "artifact_refs").items, FrozenFrom);
  }

  lemma HeadDecodes(py: Python, e: FlatEvent)
    requires Accepted(e)
    ensures RequireString(Encode(py, e), "event_id") == Ok(e.eventId)
    ensures RequireString(Encode(py, e), "session_id") == Ok(e.sessionId)
    ensures RequireString(Encode(py, e), "turn_id") == Ok(e.turnId)
  {
    GetEncoded(py, e, "event_id");
    GetEncoded(py, e, "session_id");
    GetEncoded(py, e, "turn_id");
  }

  lemma EventTypeDecodes(py: Python, e: FlatEvent)
    ensures EventTypeFrom(Encode(py, e)) == Ok(e.eventType)
  {
    GetEncoded(py, e, "event_type");
    EventNameDecodes(Encode(py, e), e.eventType);
  }

  lemma EventNameDecodes(data: map<string, Json>, t: EventType)
    requires "event_type" in data && data["event_type"] == JString(EventTypeName(t))
    ensures EventTypeFrom(data) == Ok(t)
  {
  }

  lemma TextsDecode(py: Python, e: FlatEvent)
    ensures StringOrNone(DataGet(Encode(py, e), "text")) == e.text
    ensures StringOrNone(DataGet(Encode(py, e), "source_id")) == e.sourceId
    ensures StringOrNone(DataGet(Encode(py, e), "code")) == e.code
    ensures StringOrNone(DataGet(Encode(py, e), "safe_message")) == e.safeMessage
  {
    GetEncoded(py, e, "text");
    GetEncoded(py, e, "source_id");
    GetEncoded(py, e, "code");
    GetEncoded(py, e, "safe_message");
  }

  lemma MemoryTypeDecodes(py: Python, e: FlatEvent)
    ensures MemoryTypeFrom(DataGet(Encode(py, e), "memory_type")) == Ok(e.memoryType)
  {
    GetEncoded(py, e, "memory_type");
    assert FieldJson(py, e, "memory_type") == if e.memoryType.Some? then JString(MemoryTypeName(e.memoryType.value)) else JNull;
    if e.memoryType.Some? {
      MemoryNameDecodes(e.memoryType.value);
    }
  }

  lemma MemoryNameDecodes(t: MemoryCitationType)
    ensures MemoryTypeFrom(JString(MemoryTypeName(t))) == Ok(Some(t))
  {
  }

  lemma CoordinatesDecode(py: Python, e: FlatEvent)
    ensures Stringified(py, DataGet(Encode(py, e), "citation_scope")) == e.citationScope
    ensures Stringified(py, DataGet(Encode(py, e), "project_id")) == e.projectId
    ensures Stringified(py, DataGet(Encode(py, e), "document_id")) == e.documentId
  {
    GetEncoded(py, e, "citation_scope");
    GetEncoded(py, e, "project_id");
    GetEncoded(py, e, "document_id");
  }

  lemma TitlesDecode(py: Python, e: FlatEvent)
    ensures Stringified(py, DataGet(Encode(py, e), "document_title")) == e.documentTitle
    ensures Stringified(py, DataGet(Encode(py, e), "section")) == e.section
  {
    GetEncoded(py, e, "document_title");
    GetEncoded(py, e, "section");
  }

  lemma PagesDecode(py: Python, e: FlatEvent)
    ensures OptionalInt(DataGet(Encode(py, e), "page_start")) == Ok(e.pageStart)
    ensures OptionalInt(DataGet(Encode(py, e), "page_end")) == Ok(e.pageEnd)
  {
    GetEncoded(py, e, "page_start");
    GetEncoded(py, e, "page_end");
  }

  lemma ContextDecodes(py: Python, e: FlatEvent)
    requires Constructed(e)
    ensures Stringified(py, DataGet(Encode(py, e), "retrieval_status")) == e.retrievalStatus
    ensures TraceFrom(DataGet(Encode(py, e), "execution_trace")) == Ok(e.executionTrace)
  {
    GetEncoded(py, e, "retrieval_status");
    GetEncoded(py, e, "execution_trace");
    if e.executionTrace.Some? {
      ChatEvidence.TraceRoundTrip(e.executionTrace.value);
    }
  }

  lemma ProposalDecodes(py: Python, e: FlatEvent)
    requires Accepted(e)
    ensures ProposalFrom(DataGet(Encode(py, e), "proposal")) == Ok(e.proposal)
  {
    GetEncoded(py, e, "proposal");
    if e.proposal.Some? {
      TaskProposals.ProposalSurvivesWire(e.proposal.value);
    }
  }

  /** When every field decodes, so does the record. */
  lemma DecodesFieldwise(py: Python, data: map<string, Json>, e: FlatEvent)
    requires forall name | name in data :: name in FIELDS
    requires EventTypeFrom(data) == Ok(e.eventType)
    requires RequireString(data, "event_id") == Ok(e.eventId)
    requires RequireString(data, "session_id") == Ok(e.sessionId)
    requires RequireString(data, "turn_id") == Ok(e.turnId)
    requires StringOrNone(DataGet(data, "text")) == e.text
    requires StringOrNone(DataGet(data, "source_id")) == e.sourceId
    requires StringOrNone(DataGet(data, "code")) == e.code
    requires StringOrNone(DataGet(data, "safe_message")) == e.safeMessage
    requires MemoryTypeFrom(DataGet(data, "memory_type")) == Ok(e.memoryType)
    requires Stringified(py, DataGet(data, "citation_scope")) == e.citationScope
    requires Stringified(py, DataGet(data, "project_id")) == e.projectId
    requires Stringified(py, DataGet(data, "document_id")) == e.documentId
    requires Stringified(py, DataGet(data, "document_title")) == e.documentTitle
    requires Stringified(py, DataGet(data, "section")) == e.section
    requires OptionalInt(DataGet(data, "page_start")) == Ok(e.pageStart)
    requires OptionalInt(DataGet(data, "page_end")) == Ok(e.pageEnd)
    requires Stringified(py, DataGet(data, "retrieval_status")) == e.retrievalStatus
    requires TraceFrom(DataGet(data, "execution_trace")) == Ok(e.executionTrace)
    requires ProposalFrom(DataGet(data, "proposal")) == Ok(e.proposal)
    requires ListFrom(data, "rag_evidence", ChatEvidence.EvidenceFrom) == Ok(e.ragEvidence)
    requires ListFrom(data, "activities", ActivityDecoder(py)) == Ok(e.activities)
    requires ListFrom(data, "artifact_refs", FrozenFrom) == Ok(e.artifactRefs)
    ensures Decode(py, data) == match Objection(TaskProposals.ProposalOk, e) case None => Ok(e) case Some(objection) => Err(Rejected(objection))
  {
  }

  /** Decoding what a valid event encodes to gives back that event, with its artifact references normalized. */
  lemma DecodeEncode(py: Python, e: FlatEvent)
    requires Sound(py) && Constructed(e) && Accepted(e)
    ensures Decode(py, Encode(py, e)) == Ok(NormalizeEvent(e))
  {
    HeadDecodes(py, e);
    EventTypeDecodes(py, e);
    TextsDecode(py, e);
    MemoryTypeDecodes(py, e);
    CoordinatesDecode(py, e);
    TitlesDecode(py, e);
    PagesDecode(py, e);
    ContextDecodes(py, e);
    ProposalDecodes(py, e);
    EvidenceDecodes(py, e);
    ActivitiesDecode(py, e);
    ArtifactsDecode(py, e);
    NormalizeKeepsObjection(e);
    DecodesFieldwise(py, Encode(py, e), NormalizeEvent(e));
  }

  ghost predicate ArtifactsHoldNonJson(e: FlatEvent) {
    exists i | 0 <= i < |e.artifactRefs| :: HoldsNonJson(e.artifactRefs[i])
  }

  lemma NormalizeEventFixesIff(e: FlatEvent)
    ensures NormalizeEvent(e) == e <==> !ArtifactsHoldNonJson(e)
  {
    var normalized := NormalizeEvent(e).artifactRefs;
    forall i | 0 <= i < |e.artifactRefs| ensures normalized[i] == e.artifactRefs[i] <==> !HoldsNonJson(e.artifactRefs[i]) {
      NormalizeFixesIff(e.artifactRefs[i]);
    }
    if !ArtifactsHoldNonJson(e) {
      assert normalized == e.artifactRefs;
    }
  }

  /** The round trip is exact if and only if no artifact reference holds a datetime or a plain enumeration member. */
  lemma RoundTripExactIff(py: Python, e: FlatEvent)
    requires Sound(py) && Constructed(e) && Accepted(e)
    ensures Decode(py, Encode(py, e)) == Ok(e) <==> !ArtifactsHoldNonJson(e)
  {
    DecodeEncode(py, e);
    NormalizeEventFixesIff(e);
  }

  /** So it is exact for six of the seven kinds of event. */
  lemma RoundTripExactUnlessCompleted(py: Python, e: FlatEvent)
    requires Sound(py) && Constructed(e) && Accepted(e) && e.eventType != COMPLETED
    ensures Decode(py, Encode(py, e)) == Ok(e)
  {
    RoundTripExactIff(py, e);
  }

  /** A completed event with one artifact reference of one entry. */
  function ArtifactEvent(key: string, leaf: Value): FlatEvent {
    Flatten(Completed(Head("e1", "s1", "t1"), [], None, None, [VMapping([(key, leaf)])]))
  }

  lemma ArtifactEventAccepted(key: string, leaf: Value)
    ensures Constructed(ArtifactEvent(key, leaf)) && Accepted(ArtifactEvent(key, leaf))
  {
    assert "e1"[0] in "e1" && "s1"[0] in "s1" && "t1"[0] in "t1";
    FlattenFaithful(TaskProposals.ProposalOk, Completed(Head("e1", "s1", "t1"), [], None, None, [VMapping([(key, leaf)])]));
  }

  lemma ArtifactLeafIsLost(py: Python, key: string, leaf: Value)
    requires Sound(py) && HoldsNonJson(leaf)
    ensures var e := ArtifactEvent(key, leaf);
            Constructed(e) && Accepted(e) && Decode(py, Encode(py, e)).Ok? && Decode(py, Encode(py, e)) != Ok(e)
  {
    var e := ArtifactEvent(key, leaf);
    ArtifactEventAccepted(key, leaf);
    assert HoldsNonJson(VMapping([(key, leaf)])) by {
      assert [(key, leaf)][0].1 == leaf;
    }
    assert ArtifactsHoldNonJson(e) by {
      assert e.artifactRefs[0] == VMapping([(key, leaf)]);
    }
    RoundTripExactIff(py, e);
    DecodeEncode(py, e);
  }

  /** A completed event whose artifact reference holds a datetime does not come back as it was. */
  lemma ArtifactDatetimeIsLost(py: Python)
    requires Sound(py)
    ensures var e := ArtifactEvent("created_at", VDatetime("2025-01-01T00:00:00+00:00"));
            Constructed(e) && Accepted(e) && Decode(py, Encode(py, e)).Ok? && Decode(py, Encode(py, e)) != Ok(e)
  {
    ArtifactLeafIsLost(py, "created_at", VDatetime("2025-01-01T00:00:00+00:00"));
  }

  /** Nor does one whose reference holds a member of a plain enumeration. */
  lemma ArtifactMemberIsLost(py: Python)
    requires Sound(py)
    ensures var e := ArtifactEvent("kind", VMember(JString("report")));
            Constructed(e) && Accepted(e) && Decode(py, Encode(py, e)).Ok? && Decode(py, Encode(py, e)) != Ok(e)
  {
    ArtifactLeafIsLost(py, "kind", VMember(JString("report")));
  }

  // ---- what decoding lets through ----

  lemma {:induction false} DecodeAllHolds<T>(items: seq<Json>, decode: Entries -> Result<T, DecodeError>, ok: T -> bool)
    requires forall entries :: decode(entries).Ok? ==> ok(decode(entries).value)
    requires DecodeAll(items, decode).Ok?
    ensures forall i | 0 <= i < |DecodeAll(items, decode).value| :: ok(DecodeAll(items, decode).value[i])
  {
    if items != [] {
      DecodeAllHolds(items[1..], decode, ok);
    }
  }

  predicate FrozenMapping(v: Value) {
    v.VMapping? && Freeze(Jsonable(v)) == v
  }

  lemma DecodedParts(py: Python, data: map<string, Json>)
    requires Decode(py, data).Ok?
    ensures var e := Decode(py, data).value;
            && (forall i | 0 <= i < |e.ragEvidence| :: ChatEvidence.EvidenceOk(e.ragEvidence[i]))
            && (forall i | 0 <= i < |e.activities| :: ActivityOk(e.activities[i]))
            && (forall i | 0 <= i < |e.artifactRefs| :: FrozenMapping(e.artifactRefs[i]))
  {
    forall entries ensures ChatEvidence.EvidenceFrom(entries).Ok? ==> ChatEvidence.EvidenceOk(ChatEvidence.EvidenceFrom(entries).value) {
      ChatEvidence.EvidenceDecodesValid(entries);
    }
    forall entries ensures ActivityDecoder(py)(entries).Ok? ==> ActivityOk(ActivityDecoder(py)(entries).value) {
      ActivityDecodesValid(py, entries);
    }
    forall entries ensures FrozenFrom(entries).Ok? ==> FrozenMapping(FrozenFrom(entries).value) {
      FrozenIsFrozen(entries);
    }
    DecodeAllHolds(ItemsOf(data, "rag_evidence").value, ChatEvidence.EvidenceFrom, ChatEvidence.EvidenceOk);
    DecodeAllHolds(ItemsOf(data, "activities").value, ActivityDecoder(py), ActivityOk);
    DecodeAllHolds(ItemsOf(data, "artifact_refs").value, FrozenFrom, FrozenMapping);
  }

  lemma FrozenIsFrozen(entries: Entries)
    ensures FrozenMapping(Freeze(JObject(entries)))
  {
    var v := Freeze(JObject(entries));
    FrozenHoldsJsonOnly(JObject(entries));
    FreezeJsonable(v);
    NormalizeFixesIff(v);
  }

  /** Decoding is fail-closed: whatever comes out could have been constructed, and its own round trip is exact. */
  lemma DecodedEventsAreStable(py: Python, data: map<string, Json>)
    requires Sound(py) && Decode(py, data).Ok?
    ensures var e := Decode(py, data).value;
            Constructed(e) && Accepted(e) && Decode(py, Encode(py, e)) == Ok(e)
  {
    DecodedParts(py, data);
    DecodedRecord(py, data);
    FrozenEventIsStable(py, Decode(py, data).value);
  }

  lemma DecodedRecord(py: Python, data: map<string, Json>)
    requires Decode(py, data).Ok?
    ensures var e := Decode(py, data).value;
            Accepted(e) && (e.executionTrace.Some? ==> ChatEvidence.TraceOk(e.executionTrace.value))
  {
    var j := DataGet(data, "execution_trace");
    if j.JObject? {
      ChatEvidence.TraceDecodesValid(j.entries);
    }
  }

  lemma FrozenEventIsStable(py: Python, e: FlatEvent)
    requires Sound(py) && Constructed(e) && Accepted(e)
    requires forall i | 0 <= i < |e.artifactRefs| :: FrozenMapping(e.artifactRefs[i])
    ensures Decode(py, Encode(py, e)) == Ok(e)
  {
    forall i | 0 <= i < |e.artifactRefs| ensures !HoldsNonJson(e.artifactRefs[i]) {
      assert FrozenMapping(e.artifactRefs[i]);
      FreezeJsonable(e.artifactRefs[i]);
      NormalizeFixesIff(e.artifactRefs[i]);
    }
    RoundTripExactIff(py, e);
  }
}
