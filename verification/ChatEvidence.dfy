/** The parts of a completed event: retrieved evidence and the execution trace, with their wire forms. */
module ChatEvidence {
  import opened Wrappers
  import opened JsonValues
  import Text

  // ---- evidence ----

  const MAX_CHAT_RAG_CHUNK_ID := 256
  const MAX_CHAT_RAG_DOCUMENT_ID := 256
  const MAX_CHAT_RAG_DOCUMENT_TITLE := 300
  const MAX_CHAT_RAG_SECTION := 300
  const MAX_CHAT_RAG_SOURCE_URL := 2048
  const MAX_CHAT_RAG_PREVIEW := 400
  const MAX_CHAT_RAG_CONTENT := 16000

  datatype Evidence = Evidence(
    source: string,
    retrievalStatus: string,
    chunkId: string,
    documentId: string,
    documentTitle: string,
    section: Option<string>,
    sourceUrl: Option<string>,
    relevanceScore: real,
    rerankScore: Option<real>,
    preview: string,
    content: string)

  predicate Score(r: real) {
    0.0 <= r <= 1.0
  }

  predicate RetrievalStatus(s: string) {
    s == "success" || s == "no_results" || s == "timeout" || s == "unavailable"
  }

  /** `ChatRagEvidence.__post_init__` has no objection. */
  predicate EvidenceOk(e: Evidence) {
    && (e.source == "company_knowledge" || e.source == "project_document")
    && e.retrievalStatus == "success"
    && Bounded(e.chunkId, MAX_CHAT_RAG_CHUNK_ID)
    && Bounded(e.documentId, MAX_CHAT_RAG_DOCUMENT_ID)
    && Bounded(e.documentTitle, MAX_CHAT_RAG_DOCUMENT_TITLE)
    && OptionalIsBounded(e.section, MAX_CHAT_RAG_SECTION)
    && OptionalIsBounded(e.sourceUrl, MAX_CHAT_RAG_SOURCE_URL)
    && Score(e.relevanceScore)
    && (e.rerankScore.Some? ==> Score(e.rerankScore.value))
    && Bounded(e.preview, MAX_CHAT_RAG_PREVIEW)
    && Bounded(e.content, MAX_CHAT_RAG_CONTENT)
  }

  const EVIDENCE_FIELDS: seq<string> := [
    "source", "retrieval_status", "chunk_id", "document_id", "document_title", "section", "source_url",
    "relevance_score", "rerank_score", "preview", "content"]

  function EvidenceField(e: Evidence): string -> Json {
    (name: string) =>
      if name == "source" then JString(e.source)
      else if name == "retrieval_status" then JString(e.retrievalStatus)
      else if name == "chunk_id" then JString(e.chunkId)
      else if name == "document_id" then JString(e.documentId)
      else if name == "document_title" then JString(e.documentTitle)
      else if name == "section" then OptionalString(e.section)
      else if name == "source_url" then OptionalString(e.sourceUrl)
      else if name == "relevance_score" then JReal(e.relevanceScore)
      else if name == "rerank_score" then (if e.rerankScore.Some? then JReal(e.rerankScore.value) else JNull)
      else if name == "preview" then JString(e.preview)
      else JString(e.content)
  }

  function EvidenceEntries(e: Evidence): seq<(string, Json)> {
    Record(EVIDENCE_FIELDS, EvidenceField(e))
  }

  function ScoreFrom(j: Json): Result<real, DecodeError> {
    match j
    case JNumber(n) => if Score(n as real) then Ok(n as real) else Err(BadValue)
    case JReal(r) => if Score(r) then Ok(r) else Err(BadValue)
    case _ => Err(BadType)
  }

  function OptionalScore(j: Json): Result<Option<real>, DecodeError> {
    if j.JNull? then Ok(None)
    else
      var r := ScoreFrom(j);
      if r.Err? then Err(r.error) else Ok(Some(r.value))
  }

  function SourceFrom(j: Json): Result<string, DecodeError> {
    if j.JString? && !Text.Blank(j.s) then Ok(j.s) else Err(BadValue)
  }

  function StatusFrom(j: Json): Result<string, DecodeError> {
    match j
    case JString(s) => if RetrievalStatus(s) then Ok(s) else Err(BadValue)
    case JList(_) => Err(BadType)          // unhashable
    case JObject(_) => Err(BadType)
    case _ => Err(BadValue)
  }

  /** `ChatRagEvidence.from_dict` */
  function EvidenceFrom(entries: seq<(string, Json)>): Result<Evidence, DecodeError> {
    if !OnlyKeys(entries, EVIDENCE_FIELDS) || !HasKeys(entries, EVIDENCE_FIELDS) then Err(UnexpectedField)
    else
      var source, status := SourceFrom(Get(entries, "source")), StatusFrom(Get(entries, "retrieval_status"));
      var chunk := BoundedFrom(Get(entries, "chunk_id"), MAX_CHAT_RAG_CHUNK_ID);
      var document := BoundedFrom(Get(entries, "document_id"), MAX_CHAT_RAG_DOCUMENT_ID);
      var title := BoundedFrom(Get(entries, "document_title"), MAX_CHAT_RAG_DOCUMENT_TITLE);
      var section := OptionalBounded(Get(entries, "section"), MAX_CHAT_RAG_SECTION);
      var url := OptionalBounded(Get(entries, "source_url"), MAX_CHAT_RAG_SOURCE_URL);
      var relevance, rerank := ScoreFrom(Get(entries, "relevance_score")), OptionalScore(Get(entries, "rerank_score"));
      var preview := BoundedFrom(Get(entries, "preview"), MAX_CHAT_RAG_PREVIEW);
      var content := BoundedFrom(Get(entries, "content"), MAX_CHAT_RAG_CONTENT);
      if source.Err? then Err(source.error)
      else if status.Err? then Err(status.error)
      else if chunk.Err? then Err(chunk.error)
      else if document.Err? then Err(document.error)
      else if title.Err? then Err(title.error)
      else if section.Err? then Err(section.error)
      else if url.Err? then Err(url.error)
      else if relevance.Err? then Err(relevance.error)
      else if rerank.Err? then Err(rerank.error)
      else if preview.Err? then Err(preview.error)
      else if content.Err? then Err(content.error)
      else
        var e := Evidence(source.value, status.value, chunk.value, document.value, title.value, section.value, url.value,
                          relevance.value, rerank.value, preview.value, content.value);
        if EvidenceOk(e) then Ok(e) else Err(BadValue)
  }

  lemma EvidenceGet(e: Evidence, name: string)
    requires name in EVIDENCE_FIELDS
    ensures Get(EvidenceEntries(e), name) == EvidenceField(e)(name)
  {
    RecordLookup(EVIDENCE_FIELDS, EvidenceField(e), name);
  }

  lemma EvidenceIdentifiers(e: Evidence)
    ensures Get(EvidenceEntries(e), "source") == JString(e.source)
    ensures Get(EvidenceEntries(e), "retrieval_status") == JString(e.retrievalStatus)
    ensures Get(EvidenceEntries(e), "chunk_id") == JString(e.chunkId)
    ensures Get(EvidenceEntries(e), "document_id") == JString(e.documentId)
    ensures Get(EvidenceEntries(e), "document_title") == JString(e.documentTitle)
  {
    EvidenceGet(e, "source");
    EvidenceGet(e, "retrieval_status");
    EvidenceGet(e, "chunk_id");
    EvidenceGet(e, "document_id");
    EvidenceGet(e, "document_title");
  }

  lemma EvidenceDetails(e: Evidence)
    ensures Get(EvidenceEntries(e), "section") == OptionalString(e.section)
    ensures Get(EvidenceEntries(e), "source_url") == OptionalString(e.sourceUrl)
    ensures Get(EvidenceEntries(e), "relevance_score") == JReal(e.relevanceScore)
    ensures Get(EvidenceEntries(e), "rerank_score") == if e.rerankScore.Some? then JReal(e.rerankScore.value) else JNull
    ensures Get(EvidenceEntries(e), "preview") == JString(e.preview)
    ensures Get(EvidenceEntries(e), "content") == JString(e.content)
  {
    EvidenceGet(e, "section");
    EvidenceGet(e, "source_url");
    EvidenceGet(e, "relevance_score");
    EvidenceGet(e, "rerank_score");
    EvidenceGet(e, "preview");
    EvidenceGet(e, "content");
  }

  lemma SourcesAreNotBlank()
    ensures !Text.Blank("company_knowledge") && !Text.Blank("project_document")
  {
    assert "company_knowledge"[0] in "company_knowledge";
    assert "project_document"[0] in "project_document";
  }

  /** Evidence survives its own wire form exactly when its constructor accepts it. */
  lemma EvidenceRoundTrip(e: Evidence)
    ensures EvidenceFrom(EvidenceEntries(e)) == Ok(e) <==> EvidenceOk(e)
  {
    RecordKeys(EVIDENCE_FIELDS, EvidenceField(e));
    SourcesAreNotBlank();
    EvidenceIdentifiers(e);
    EvidenceDetails(e);
  }

  lemma EvidenceDecodesValid(entries: seq<(string, Json)>)
    ensures EvidenceFrom(entries).Ok? ==> EvidenceOk(EvidenceFrom(entries).value)
  {
  }

  // ---- execution trace ----

  const MAX_PROVIDER := 100
  const MAX_MODEL := 200
  const MAX_REASONING := 12000
  const MAX_FILENAMES := 20
  const MAX_FILENAME := 300

  datatype Trace = Trace(
    provider: string,
    model: string,
    mode: string,
    reasoning: Option<string>,
    reasoningTruncated: bool,
    filenames: seq<string>)

  predicate FilenamesOk(filenames: seq<string>) {
    && |filenames| <= MAX_FILENAMES
    && (forall i | 0 <= i < |filenames| :: Bounded(filenames[i], MAX_FILENAME))
    && forall i, j | 0 <= i < j < |filenames| :: filenames[i] != filenames[j]
  }

  /** `ChatExecutionTrace.__post_init__` has no objection. */
  predicate TraceOk(t: Trace) {
    && Bounded(t.provider, MAX_PROVIDER)
    && Bounded(t.model, MAX_MODEL)
    && (t.mode == "fast" || t.mode == "reasoning")
    && OptionalIsBounded(t.reasoning, MAX_REASONING)
    && FilenamesOk(t.filenames)
  }

  const TRACE_FIELDS: seq<string> := [
    "provider", "model", "mode", "reasoning", "reasoning_truncated", "retrieved_filenames"]

  function Strings(items: seq<string>): seq<Json> {
    seq(|items|, i requires 0 <= i < |items| => JString(items[i]))
  }

  function TraceField(t: Trace): string -> Json {
    (name: string) =>
      if name == "provider" then JString(t.provider)
      else if name == "model" then JString(t.model)
      else if name == "mode" then JString(t.mode)
      else if name == "reasoning" then OptionalString(t.reasoning)
      else if name == "reasoning_truncated" then JBool(t.reasoningTruncated)
      else JList(Strings(t.filenames))
  }

  function TraceEntries(t: Trace): seq<(string, Json)> {
    Record(TRACE_FIELDS, TraceField(t))
  }

  /** `bool(value)` */
  predicate Truthy(j: Json) {
    match j
    case JNull => false
    case JBool(b) => b
    case JNumber(n) => n != 0
    case JReal(r) => r != 0.0
    case JString(s) => s != ""
    case JList(items) => items != []
    case JObject(entries) => entries != []
  }

  function FilenamesFrom(items: seq<Json>): Result<seq<string>, DecodeError> {
    if items == [] then Ok([])
    else
      var first, rest := BoundedFrom(items[0], MAX_FILENAME), FilenamesFrom(items[1..]);
      if first.Err? then Err(first.error)
      else if rest.Err? then rest
      else Ok([first.value] + rest.value)
  }

  function FilenamesIn(entries: seq<(string, Json)>): Result<seq<string>, DecodeError> {
    match Lookup(entries, "retrieved_filenames")
    case None => Ok([])
    case Some(JList(items)) => FilenamesFrom(items)
    case _ => Err(BadType)
  }

  /** `ChatExecutionTrace.from_dict`; a mode of another type is left to the constructor, which rejects it. */
  function TraceFrom(entries: seq<(string, Json)>): Result<Trace, DecodeError> {
    var provider, model := RequireBounded(entries, "provider", MAX_PROVIDER), RequireBounded(entries, "model", MAX_MODEL);
    var mode := Lookup(entries, "mode");
    var reasoning := OptionalBounded(Get(entries, "reasoning"), MAX_REASONING);
    var filenames := FilenamesIn(entries);
    if provider.Err? then Err(provider.error)
    else if model.Err? then Err(model.error)
    else if mode.None? then Err(MissingField)
    else if reasoning.Err? then Err(reasoning.error)
    else if filenames.Err? then Err(filenames.error)
    else if !mode.value.JString? then Err(BadValue)
    else
      var t := Trace(provider.value, model.value, mode.value.s, reasoning.value,
                     Truthy(Get(entries, "reasoning_truncated")), filenames.value);
      if TraceOk(t) then Ok(t) else Err(BadValue)
  }

  lemma {:induction false} FilenamesRoundTrip(filenames: seq<string>)
    ensures FilenamesFrom(Strings(filenames)) == Ok(filenames)
            <==> forall i | 0 <= i < |filenames| :: Bounded(filenames[i], MAX_FILENAME)
  {
    if filenames != [] {
      FilenamesRoundTrip(filenames[1..]);
      assert Strings(filenames)[1..] == Strings(filenames[1..]);
      assert filenames == [filenames[0]] + filenames[1..];
    }
  }

  lemma TraceLookup(t: Trace, name: string)
    requires name in TRACE_FIELDS
    ensures Lookup(TraceEntries(t), name) == Some(TraceField(t)(name))
  {
    RecordLookup(TRACE_FIELDS, TraceField(t), name);
  }

  lemma TraceParts(t: Trace)
    ensures Lookup(TraceEntries(t), "provider") == Some(JString(t.provider))
    ensures Lookup(TraceEntries(t), "model") == Some(JString(t.model))
    ensures Lookup(TraceEntries(t), "mode") == Some(JString(t.mode))
    ensures Lookup(TraceEntries(t), "reasoning") == Some(OptionalString(t.reasoning))
    ensures Lookup(TraceEntries(t), "reasoning_truncated") == Some(JBool(t.reasoningTruncated))
    ensures Lookup(TraceEntries(t), "retrieved_filenames") == Some(JList(Strings(t.filenames)))
  {
    TraceLookup(t, "provider");
    TraceLookup(t, "model");
    TraceLookup(t, "mode");
    TraceLookup(t, "reasoning");
    TraceLookup(t, "reasoning_truncated");
    TraceLookup(t, "retrieved_filenames");
  }

  /** A trace survives its own wire form exactly when its constructor accepts it. */
  lemma TraceRoundTrip(t: Trace)
    ensures TraceFrom(TraceEntries(t)) == Ok(t) <==> TraceOk(t)
  {
    TraceParts(t);
    FilenamesRoundTrip(t.filenames);
  }

  lemma TraceDecodesValid(entries: seq<(string, Json)>)
    ensures TraceFrom(entries).Ok? ==> TraceOk(TraceFrom(entries).value)
  {
  }
}
