/** What the event decoder accepts, field by field, read off the JSON alone. */
module EventWireForm {
  import opened Wrappers
  import opened JsonValues
  import opened StreamEvents
  import opened StreamEventCodec
  import opened WireForms
  import A = ActivityCodec
  import C = ChatActivities
  import E = ChatEvidence
  import TaskProposals
  import Text

  // ---- events ----

  const EVENT_NAMES := {
    "event_id", "session_id", "turn_id", "event_type", "text", "memory_type", "source_id", "code", "safe_message",
    "proposal", "citation_scope", "project_id", "document_id", "document_title", "section", "page_start", "page_end",
    "rag_evidence", "retrieval_status", "activities", "execution_trace", "artifact_refs"}

  predicate Holds(data: map<string, Json>, name: string, j: Json) {
    name in data && data[name] == j
  }

  predicate IsNull(data: map<string, Json>, name: string) {
    name in data ==> data[name] == JNull
  }

  predicate EventWord(t: EventType, s: string) {
    match t
    case STARTED => s == "started"
    case ACTIVITY => s == "activity"
    case DELTA => s == "delta"
    case MEMORY_CITATION => s == "memory_citation"
    case TASK_PROPOSAL => s == "task_proposal"
    case COMPLETED => s == "completed"
    case ERROR => s == "error"
  }

  predicate MemoryWord(t: MemoryCitationType, s: string) {
    match t
    case Declarative => s == "declarative"
    case Episodic => s == "episodic"
    case Semantic => s == "semantic"
  }

  /** A payload that is not a string reads as none at all. */
  ghost predicate StringPayload(data: map<string, Json>, name: string, s: Option<string>) {
    if s.Some? then Holds(data, name, JString(s.value)) else forall text :: !Holds(data, name, JString(text))
  }

  /** A payload that is not a string reads as what Python shows of it. */
  predicate ShownPayload(py: A.Python, data: map<string, Json>, name: string, s: Option<string>) {
    if s.None? then IsNull(data, name)
    else !IsNull(data, name) && s.value == if data[name].JString? then data[name].s else py.str(data[name])
  }

  predicate PagePayload(data: map<string, Json>, name: string, n: Option<int>) {
    if n.None? then IsNull(data, name) else Holds(data, name, JNumber(n.value))
  }

  ghost predicate HeadWire(data: map<string, Json>, e: FlatEvent) {
    && (forall name | name in data :: name in EVENT_NAMES)
    && Holds(data, "event_id", JString(e.eventId))
    && Holds(data, "session_id", JString(e.sessionId))
    && Holds(data, "turn_id", JString(e.turnId))
    && exists word :: Holds(data, "event_type", JString(word)) && EventWord(e.eventType, word)
  }

  ghost predicate PayloadWire(data: map<string, Json>, e: FlatEvent) {
    && StringPayload(data, "text", e.text)
    && StringPayload(data, "source_id", e.sourceId)
    && StringPayload(data, "code", e.code)
    && StringPayload(data, "safe_message", e.safeMessage)
    && (e.memoryType.None? ==> IsNull(data, "memory_type"))
    && (e.memoryType.Some? ==> exists word :: Holds(data, "memory_type", JString(word)) && MemoryWord(e.memoryType.value, word))
    && (e.proposal.None? ==> IsNull(data, "proposal"))
    && (e.proposal.Some? ==> exists fields :: Holds(data, "proposal", JObject(fields)) && e.proposal == Some(Freeze(JObject(fields))))
  }

  ghost predicate CitationWire(py: A.Python, data: map<string, Json>, e: FlatEvent) {
    && ShownPayload(py, data, "citation_scope", e.citationScope)
    && ShownPayload(py, data, "project_id", e.projectId)
    && ShownPayload(py, data, "document_id", e.documentId)
    && ShownPayload(py, data, "document_title", e.documentTitle)
    && ShownPayload(py, data, "section", e.section)
    && PagePayload(data, "page_start", e.pageStart)
    && PagePayload(data, "page_end", e.pageEnd)
  }

  /** A list of mappings, one for each value; an absent list has none. */
  ghost predicate ListWire<T(!new)>(data: map<string, Json>, name: string, values: seq<T>, wire: (Entries, T) -> bool) {
    || (name !in data && values == [])
    || exists items :: Holds(data, name, JList(items)) && Wires(items, values, wire)
  }

  predicate Wires<T(!new)>(items: seq<Json>, values: seq<T>, wire: (Entries, T) -> bool) {
    && |items| == |values|
    && forall i | 0 <= i < |items| :: items[i].JObject? && wire(items[i].entries, values[i])
  }

  ghost function ActivityWireOf(py: A.Python): (Entries, C.Activity) -> bool {
    (entries, a) => ActivityWire(py, entries, a)
  }

  ghost function EvidenceWireOf(): (Entries, E.Evidence) -> bool {
    (entries, e) => EvidenceWire(entries, e)
  }

  function FrozenWireOf(): (Entries, Value) -> bool {
    (entries, v) => v == Freeze(JObject(entries))
  }

  ghost predicate ContextWire(py: A.Python, data: map<string, Json>, e: FlatEvent) {
    && ListWire(data, "rag_evidence", e.ragEvidence, EvidenceWireOf())
    && ShownPayload(py, data, "retrieval_status", e.retrievalStatus)
    && ListWire(data, "activities", e.activities, ActivityWireOf(py))
    && (e.executionTrace.None? ==> IsNull(data, "execution_trace"))
    && (e.executionTrace.Some? ==>
          exists fields :: Holds(data, "execution_trace", JObject(fields)) && TraceWire(fields, e.executionTrace.value))
    && ListWire(data, "artifact_refs", e.artifactRefs, FrozenWireOf())
  }

  /** The record every field of the mapping spells out, and which its own validation accepts. */
  ghost predicate EventWire(py: A.Python, data: map<string, Json>, e: FlatEvent) {
    && HeadWire(data, e) && PayloadWire(data, e) && CitationWire(py, data, e) && ContextWire(py, data, e)
    && Fits(TaskProposals.ProposalOk, e)
  }

  // ---- that the event decoder accepts just this ----

  lemma EventNamesAre()
    ensures forall name :: name in FIELDS <==> name in EVENT_NAMES
  {
    var f := FIELDS;
    assert f[0] == "event_id" && f[1] == "session_id" && f[2] == "turn_id" && f[3] == "event_type" && f[4] == "text"
           && f[5] == "memory_type" && f[6] == "source_id" && f[7] == "code" && f[8] == "safe_message"
           && f[9] == "proposal" && f[10] == "citation_scope";
    assert f[11] == "project_id" && f[12] == "document_id" && f[13] == "document_title" && f[14] == "section"
           && f[15] == "page_start" && f[16] == "page_end" && f[17] == "rag_evidence" && f[18] == "retrieval_status"
           && f[19] == "activities" && f[20] == "execution_trace" && f[21] == "artifact_refs";
  }

  lemma {:induction false} DecodeAllIff<T(!new)>(items: seq<Json>, values: seq<T>, decode: Entries -> Result<T, DecodeError>,
                                           wire: (Entries, T) -> bool)
    requires forall entries, v :: decode(entries) == Ok(v) <==> wire(entries, v)
    ensures DecodeAll(items, decode) == Ok(values) <==> Wires(items, values, wire)
  {
    if items != [] && values != [] {
      DecodeAllIff(items[1..], values[1..], decode, wire);
      WiresTail(items, values, wire);
      assert values == [values[0]] + values[1..];
    }
  }

  lemma WiresTail<T(!new)>(items: seq<Json>, values: seq<T>, wire: (Entries, T) -> bool)
    requires items != [] && values != []
    ensures Wires(items, values, wire) <==>
            items[0].JObject? && wire(items[0].entries, values[0]) && Wires(items[1..], values[1..], wire)
  {
    if items[0].JObject? && wire(items[0].entries, values[0]) && Wires(items[1..], values[1..], wire) {
      forall i | 0 <= i < |items| ensures items[i].JObject? && wire(items[i].entries, values[i]) {
        assert i > 0 ==> items[1..][i - 1] == items[i] && values[1..][i - 1] == values[i];
      }
    }
  }

  lemma ListPart<T(!new)>(data: map<string, Json>, name: string, values: seq<T>, decode: Entries -> Result<T, DecodeError>,
                    wire: (Entries, T) -> bool)
    requires forall entries, v :: decode(entries) == Ok(v) <==> wire(entries, v)
    ensures ListFrom(data, name, decode) == Ok(values) <==> ListWire(data, name, values, wire)
  {
    if name in data && data[name].JList? {
      DecodeAllIff(data[name].items, values, decode, wire);
    }
  }

  lemma EvidencePart(data: map<string, Json>, values: seq<E.Evidence>)
    ensures ListFrom(data, "rag_evidence", E.EvidenceFrom) == Ok(values) <==> ListWire(data, "rag_evidence", values, EvidenceWireOf())
  {
    forall entries, e ensures E.EvidenceFrom(entries) == Ok(e) <==> EvidenceWireOf()(entries, e) {
      EvidenceDecodesIff(entries, e);
    }
    ListPart(data, "rag_evidence", values, E.EvidenceFrom, EvidenceWireOf());
  }

  lemma ActivitiesPart(py: A.Python, data: map<string, Json>, values: seq<C.Activity>)
    ensures ListFrom(data, "activities", ActivityDecoder(py)) == Ok(values) <==>
            ListWire(data, "activities", values, ActivityWireOf(py))
  {
    forall entries, a ensures ActivityDecoder(py)(entries) == Ok(a) <==> ActivityWireOf(py)(entries, a) {
      ActivityDecodesIff(py, entries, a);
    }
    ListPart(data, "activities", values, ActivityDecoder(py), ActivityWireOf(py));
  }

  lemma ArtifactsPart(data: map<string, Json>, values: seq<Value>)
    ensures ListFrom(data, "artifact_refs", FrozenFrom) == Ok(values) <==> ListWire(data, "artifact_refs", values, FrozenWireOf())
  {
    forall entries, v ensures FrozenFrom(entries) == Ok(v) <==> FrozenWireOf()(entries, v) {
    }
    ListPart(data, "artifact_refs", values, FrozenFrom, FrozenWireOf());
  }

  lemma NamesPart(data: map<string, Json>)
    ensures (forall name | name in data :: name in EVENT_NAMES) <==> forall name | name in data :: name in FIELDS
  {
    EventNamesAre();
  }

  lemma IdPart(data: map<string, Json>, name: string, s: string)
    requires !Text.Blank(s)
    ensures Holds(data, name, JString(s)) <==> RequireString(data, name) == Ok(s)
  {
  }

  lemma HeadPart(data: map<string, Json>, e: FlatEvent)
    requires !Text.Blank(e.eventId) && !Text.Blank(e.sessionId) && !Text.Blank(e.turnId)
    ensures HeadWire(data, e) <==>
            && (forall name | name in data :: name in FIELDS)
            && RequireString(data, "event_id") == Ok(e.eventId)
            && RequireString(data, "session_id") == Ok(e.sessionId)
            && RequireString(data, "turn_id") == Ok(e.turnId)
            && EventTypeFrom(data) == Ok(e.eventType)
  {
    NamesPart(data);
    IdPart(data, "event_id", e.eventId);
    IdPart(data, "session_id", e.sessionId);
    IdPart(data, "turn_id", e.turnId);
    EventTypePart(data, e.eventType);
  }

  lemma EventTypePart(data: map<string, Json>, t: EventType)
    ensures EventTypeFrom(data) == Ok(t) <==> exists word :: Holds(data, "event_type", JString(word)) && EventWord(t, word)
  {
    if "event_type" in data && data["event_type"].JString? {
      var word := data["event_type"].s;
      assert Holds(data, "event_type", JString(word));
    }
  }

  lemma PayloadPart(data: map<string, Json>, e: FlatEvent)
    ensures PayloadWire(data, e) <==>
            && StringOrNone(DataGet(data, "text")) == e.text
            && StringOrNone(DataGet(data, "source_id")) == e.sourceId
            && StringOrNone(DataGet(data, "code")) == e.code
            && StringOrNone(DataGet(data, "safe_message")) == e.safeMessage
            && MemoryTypeFrom(DataGet(data, "memory_type")) == Ok(e.memoryType)
            && ProposalFrom(DataGet(data, "proposal")) == Ok(e.proposal)
  {
    StringPart(data, "text", e.text);
    StringPart(data, "source_id", e.sourceId);
    StringPart(data, "code", e.code);
    StringPart(data, "safe_message", e.safeMessage);
    MemoryPart(data, e.memoryType);
    ProposalPart(data, e.proposal);
  }

  lemma StringPart(data: map<string, Json>, name: string, s: Option<string>)
    ensures StringOrNone(DataGet(data, name)) == s <==> StringPayload(data, name, s)
  {
    if name in data && data[name].JString? {
      assert Holds(data, name, JString(data[name].s));
    }
  }

  lemma MemoryPart(data: map<string, Json>, t: Option<MemoryCitationType>)
    ensures MemoryTypeFrom(DataGet(data, "memory_type")) == Ok(t) <==>
            && (t.None? ==> IsNull(data, "memory_type"))
            && (t.Some? ==> exists word :: Holds(data, "memory_type", JString(word)) && MemoryWord(t.value, word))
  {
    if "memory_type" in data && data["memory_type"].JString? {
      assert Holds(data, "memory_type", JString(data["memory_type"].s));
    }
  }

  lemma ProposalPart(data: map<string, Json>, v: Option<Value>)
    ensures ProposalFrom(DataGet(data, "proposal")) == Ok(v) <==>
            && (v.None? ==> IsNull(data, "proposal"))
            && (v.Some? ==> exists fields :: Holds(data, "proposal", JObject(fields)) && v == Some(Freeze(JObject(fields))))
  {
    if "proposal" in data && data["proposal"].JObject? {
      assert Holds(data, "proposal", JObject(data["proposal"].entries));
    }
  }

  lemma ShownPart(py: A.Python, data: map<string, Json>, name: string, s: Option<string>)
    ensures Stringified(py, DataGet(data, name)) == s <==> ShownPayload(py, data, name, s)
  {
  }

  lemma CitationPart(py: A.Python, data: map<string, Json>, e: FlatEvent)
    ensures CitationWire(py, data, e) <==>
            && Stringified(py, DataGet(data, "citation_scope")) == e.citationScope
            && Stringified(py, DataGet(data, "project_id")) == e.projectId
            && Stringified(py, DataGet(data, "document_id")) == e.documentId
            && Stringified(py, DataGet(data, "document_title")) == e.documentTitle
            && Stringified(py, DataGet(data, "section")) == e.section
            && OptionalInt(DataGet(data, "page_start")) == Ok(e.pageStart)
            && OptionalInt(DataGet(data, "page_end")) == Ok(e.pageEnd)
  {
    ShownPart(py, data, "citation_scope", e.citationScope);
    ShownPart(py, data, "project_id", e.projectId);
    ShownPart(py, data, "document_id", e.documentId);
    ShownPart(py, data, "document_title", e.documentTitle);
    ShownPart(py, data, "section", e.section);
    PagePart(data, "page_start", e.pageStart);
    PagePart(data, "page_end", e.pageEnd);
  }

  lemma PagePart(data: map<string, Json>, name: string, n: Option<int>)
    ensures OptionalInt(DataGet(data, name)) == Ok(n) <==> PagePayload(data, name, n)
  {
  }

  lemma TracePart(data: map<string, Json>, t: Option<E.Trace>)
    ensures TraceFrom(DataGet(data, "execution_trace")) == Ok(t) <==>
            && (t.None? ==> IsNull(data, "execution_trace"))
            && (t.Some? ==> exists fields :: Holds(data, "execution_trace", JObject(fields)) && TraceWire(fields, t.value))
  {
    if t.Some? && "execution_trace" in data && data["execution_trace"].JObject? {
      var fields := data["execution_trace"].entries;
      TraceDecodesIff(fields, t.value);
      assert Holds(data, "execution_trace", JObject(fields));
    }
  }

  lemma ContextPart(py: A.Python, data: map<string, Json>, e: FlatEvent)
    ensures ContextWire(py, data, e) <==>
            && ListFrom(data, "rag_evidence", E.EvidenceFrom) == Ok(e.ragEvidence)
            && Stringified(py, DataGet(data, "retrieval_status")) == e.retrievalStatus
            && ListFrom(data, "activities", ActivityDecoder(py)) == Ok(e.activities)
            && TraceFrom(DataGet(data, "execution_trace")) == Ok(e.executionTrace)
            && ListFrom(data, "artifact_refs", FrozenFrom) == Ok(e.artifactRefs)
  {
    EvidencePart(data, e.ragEvidence);
    ShownPart(py, data, "retrieval_status", e.retrievalStatus);
    ActivitiesPart(py, data, e.activities);
    TracePart(data, e.executionTrace);
    ArtifactsPart(data, e.artifactRefs);
  }

  lemma DecodedFields(py: A.Python, data: map<string, Json>, e: FlatEvent)
    requires Decode(py, data) == Ok(e)
    ensures forall name | name in data :: name in FIELDS
    ensures EventTypeFrom(data) == Ok(e.eventType)
    ensures RequireString(data, "event_id") == Ok(e.eventId)
    ensures RequireString(data, "session_id") == Ok(e.sessionId)
    ensures RequireString(data, "turn_id") == Ok(e.turnId)
    ensures StringOrNone(DataGet(data, "text")) == e.text
    ensures StringOrNone(DataGet(data, "source_id")) == e.sourceId
    ensures StringOrNone(DataGet(data, "code")) == e.code
    ensures StringOrNone(DataGet(data, "safe_message")) == e.safeMessage
    ensures MemoryTypeFrom(DataGet(data, "memory_type")) == Ok(e.memoryType)
    ensures Stringified(py, DataGet(data, "citation_scope")) == e.citationScope
    ensures Stringified(py, DataGet(data, "project_id")) == e.projectId
    ensures Stringified(py, DataGet(data, "document_id")) == e.documentId
    ensures Stringified(py, DataGet(data, "document_title")) == e.documentTitle
    ensures Stringified(py, DataGet(data, "section")) == e.section
    ensures OptionalInt(DataGet(data, "page_start")) == Ok(e.pageStart)
    ensures OptionalInt(DataGet(data, "page_end")) == Ok(e.pageEnd)
    ensures Stringified(py, DataGet(data, "retrieval_status")) == e.retrievalStatus
    ensures TraceFrom(DataGet(data, "execution_trace")) == Ok(e.executionTrace)
    ensures ProposalFrom(DataGet(data, "proposal")) == Ok(e.proposal)
    ensures ListFrom(data, "rag_evidence", E.EvidenceFrom) == Ok(e.ragEvidence)
    ensures ListFrom(data, "activities", ActivityDecoder(py)) == Ok(e.activities)
    ensures ListFrom(data, "artifact_refs", FrozenFrom) == Ok(e.artifactRefs)
    ensures Objection(TaskProposals.ProposalOk, e).None?
  {
  }

  /** What decodes, and to what: exactly the mappings that spell out a fitting record, field by field. */
  lemma EventDecodesIff(py: A.Python, data: map<string, Json>, e: FlatEvent)
    ensures Decode(py, data) == Ok(e) <==> EventWire(py, data, e)
  {
    AcceptedIff(TaskProposals.ProposalOk, e);
    if Fits(TaskProposals.ProposalOk, e) {
      HeadPart(data, e);
    }
    PayloadPart(data, e);
    CitationPart(py, data, e);
    ContextPart(py, data, e);
    if Decode(py, data) == Ok(e) {
      DecodedFields(py, data, e);
    }
    if EventWire(py, data, e) {
      DecodesFieldwise(py, data, e);
    }
  }

  /** A valid event's own encoding spells it out, but for what becomes of its artifact references. */
  lemma EncodedSpellsOut(py: A.Python, e: FlatEvent)
    requires A.Sound(py) && Constructed(e) && Fits(TaskProposals.ProposalOk, e)
    ensures EventWire(py, Encode(py, e), NormalizeEvent(e))
  {
    AcceptedIff(TaskProposals.ProposalOk, e);
    DecodeEncode(py, e);
    EventDecodesIff(py, Encode(py, e), NormalizeEvent(e));
  }
}
