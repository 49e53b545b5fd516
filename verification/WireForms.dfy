/** What the decoders of an event's parts accept, field by field, read off the JSON alone. */
module WireForms {
  import opened Wrappers
  import opened JsonValues
  import opened StreamEventCodec
  import A = ActivityCodec
  import C = ChatActivities
  import E = ChatEvidence
  import Text

  // ---- fields of a mapping ----

  /** The entry under this name is j; Python mappings hold a name once, and here the first entry counts. */
  ghost predicate Has(entries: Entries, name: string, j: Json) {
    exists i: nat :: IsAt(entries, name, j, i)
  }

  predicate IsAt(entries: Entries, name: string, j: Json, i: nat) {
    i < |entries| && entries[i] == (name, j) && forall k | 0 <= k < i :: entries[k].0 != name
  }

  predicate Lacks(entries: Entries, name: string) {
    forall k | 0 <= k < |entries| :: entries[k].0 != name
  }

  lemma {:induction false} LookupIff(entries: Entries, name: string)
    ensures Lookup(entries, name).None? <==> Lacks(entries, name)
    ensures Lookup(entries, name).Some? ==> Has(entries, name, Lookup(entries, name).value)
    ensures forall j | Has(entries, name, j) :: Lookup(entries, name) == Some(j)
  {
    if entries != [] {
      var rest := entries[1..];
      LookupIff(rest, name);
      if entries[0].0 == name {
        assert IsAt(entries, name, entries[0].1, 0);
      } else {
        forall j, i: nat ensures IsAt(rest, name, j, i) <==> IsAt(entries, name, j, i + 1) {
          assert i < |rest| ==> rest[i] == entries[i + 1];
          if IsAt(rest, name, j, i) {
            forall k | 0 <= k < i + 1 ensures entries[k].0 != name {
              assert k > 0 ==> rest[k - 1] == entries[k];
            }
          }
          if IsAt(entries, name, j, i + 1) {
            forall k | 0 <= k < i ensures rest[k].0 != name {
              assert rest[k] == entries[k + 1];
            }
          }
        }
        if Lookup(rest, name).Some? {
          var i: nat :| IsAt(rest, name, Lookup(rest, name).value, i);
          assert IsAt(entries, name, Lookup(rest, name).value, i + 1);
        }
        forall j | Has(entries, name, j) ensures Has(rest, name, j) {
          var i: nat :| IsAt(entries, name, j, i);
          assert IsAt(rest, name, j, i - 1);
        }
        if Lacks(rest, name) {
          forall k | 0 <= k < |entries| ensures entries[k].0 != name {
            assert k > 0 ==> rest[k - 1] == entries[k];
          }
        }
        if Lacks(entries, name) {
          forall k | 0 <= k < |rest| ensures rest[k].0 != name {
            assert rest[k] == entries[k + 1];
          }
        }
      }
    }
  }

  /** The entry under this name is j, an absent one counting as null. */
  ghost predicate Is(entries: Entries, name: string, j: Json) {
    Has(entries, name, j) || (j == JNull && Lacks(entries, name))
  }

  lemma GetIff(entries: Entries, name: string, j: Json)
    ensures Get(entries, name) == j <==> Is(entries, name, j)
  {
    LookupIff(entries, name);
  }

  ghost predicate OnlyNamed(entries: Entries, names: set<string>) {
    forall i | 0 <= i < |entries| :: entries[i].0 in names
  }

  ghost predicate AllNamed(entries: Entries, names: set<string>) {
    forall name | name in names :: !Lacks(entries, name)
  }

  lemma OnlyKeysIff(entries: Entries, fields: seq<string>, names: set<string>)
    requires forall name :: name in fields <==> name in names
    ensures OnlyKeys(entries, fields) <==> OnlyNamed(entries, names)
    ensures HasKeys(entries, fields) <==> AllNamed(entries, names)
  {
    forall name ensures Lookup(entries, name).Some? <==> !Lacks(entries, name) {
      LookupIff(entries, name);
    }
    if HasKeys(entries, fields) {
      forall name | name in names ensures !Lacks(entries, name) {
        assert name in fields;
      }
    }
  }

  // ---- texts and scores ----

  /** Not blank, and at most this long. */
  predicate Short(s: string, maximum: nat) {
    |s| <= maximum && exists c :: c in s && !Text.IsSpace(c)
  }

  ghost predicate TextIs(entries: Entries, name: string, s: string, maximum: nat) {
    Is(entries, name, JString(s)) && Short(s, maximum)
  }

  ghost predicate TextOrNull(entries: Entries, name: string, s: Option<string>, maximum: nat) {
    if s.None? then Is(entries, name, JNull) else TextIs(entries, name, s.value, maximum)
  }

  /** A number from 0 to 1; of the whole numbers, only the two. */
  ghost predicate ScoreIs(entries: Entries, name: string, r: real) {
    || (0.0 <= r <= 1.0 && Is(entries, name, JReal(r)))
    || (r == 0.0 && Is(entries, name, JNumber(0)))
    || (r == 1.0 && Is(entries, name, JNumber(1)))
  }

  lemma ShortIff(s: string, maximum: nat)
    ensures Bounded(s, maximum) <==> Short(s, maximum)
  {
  }

  lemma TextPart(entries: Entries, name: string, s: string, maximum: nat)
    ensures BoundedFrom(Get(entries, name), maximum) == Ok(s) <==> TextIs(entries, name, s, maximum)
  {
    GetIff(entries, name, JString(s));
    ShortIff(s, maximum);
  }

  lemma OptionalPart(entries: Entries, name: string, s: Option<string>, maximum: nat)
    ensures OptionalBounded(Get(entries, name), maximum) == Ok(s) <==> TextOrNull(entries, name, s, maximum)
  {
    GetIff(entries, name, JNull);
    if s.Some? {
      TextPart(entries, name, s.value, maximum);
    }
  }

  lemma ScorePart(entries: Entries, name: string, r: real)
    ensures E.ScoreFrom(Get(entries, name)) == Ok(r) <==> ScoreIs(entries, name, r)
  {
    GetIff(entries, name, JReal(r));
    GetIff(entries, name, JNumber(0));
    GetIff(entries, name, JNumber(1));
  }

  lemma OptionalScorePart(entries: Entries, name: string, r: Option<real>)
    ensures E.OptionalScore(Get(entries, name)) == Ok(r)
            <==> if r.None? then Is(entries, name, JNull) else ScoreIs(entries, name, r.value)
  {
    GetIff(entries, name, JNull);
    if r.Some? {
      ScorePart(entries, name, r.value);
    }
  }

  // ---- evidence ----

  const EVIDENCE_NAMES := {
    "source", "retrieval_status", "chunk_id", "document_id", "document_title", "section", "source_url",
    "relevance_score", "rerank_score", "preview", "content"}

  ghost predicate EvidenceTexts(entries: Entries, e: E.Evidence) {
    && TextIs(entries, "chunk_id", e.chunkId, 256)
    && TextIs(entries, "document_id", e.documentId, 256)
    && TextIs(entries, "document_title", e.documentTitle, 300)
    && TextOrNull(entries, "section", e.section, 300)
    && TextOrNull(entries, "source_url", e.sourceUrl, 2048)
    && TextIs(entries, "preview", e.preview, 400)
    && TextIs(entries, "content", e.content, 16000)
  }

  ghost predicate EvidenceScores(entries: Entries, e: E.Evidence) {
    && ScoreIs(entries, "relevance_score", e.relevanceScore)
    && if e.rerankScore.None? then Is(entries, "rerank_score", JNull) else ScoreIs(entries, "rerank_score", e.rerankScore.value)
  }

  /** The mapping has just the eleven fields, and each holds the evidence's own within its bounds. */
  ghost predicate EvidenceWire(entries: Entries, e: E.Evidence) {
    && OnlyNamed(entries, EVIDENCE_NAMES) && AllNamed(entries, EVIDENCE_NAMES)
    && Is(entries, "source", JString(e.source)) && e.source in {"company_knowledge", "project_document"}
    && Is(entries, "retrieval_status", JString(e.retrievalStatus)) && e.retrievalStatus == "success"
    && EvidenceTexts(entries, e)
    && EvidenceScores(entries, e)
  }

  lemma EvidenceTextParts(entries: Entries, e: E.Evidence)
    ensures EvidenceTexts(entries, e) <==>
            && BoundedFrom(Get(entries, "chunk_id"), E.MAX_CHAT_RAG_CHUNK_ID) == Ok(e.chunkId)
            && BoundedFrom(Get(entries, "document_id"), E.MAX_CHAT_RAG_DOCUMENT_ID) == Ok(e.documentId)
            && BoundedFrom(Get(entries, "document_title"), E.MAX_CHAT_RAG_DOCUMENT_TITLE) == Ok(e.documentTitle)
            && OptionalBounded(Get(entries, "section"), E.MAX_CHAT_RAG_SECTION) == Ok(e.section)
            && OptionalBounded(Get(entries, "source_url"), E.MAX_CHAT_RAG_SOURCE_URL) == Ok(e.sourceUrl)
            && BoundedFrom(Get(entries, "preview"), E.MAX_CHAT_RAG_PREVIEW) == Ok(e.preview)
            && BoundedFrom(Get(entries, "content"), E.MAX_CHAT_RAG_CONTENT) == Ok(e.content)
  {
    TextPart(entries, "chunk_id", e.chunkId, 256);
    TextPart(entries, "document_id", e.documentId, 256);
    TextPart(entries, "document_title", e.documentTitle, 300);
    OptionalPart(entries, "section", e.section, 300);
    OptionalPart(entries, "source_url", e.sourceUrl, 2048);
    TextPart(entries, "preview", e.preview, 400);
    TextPart(entries, "content", e.content, 16000);
  }

  lemma EvidenceScoreParts(entries: Entries, e: E.Evidence)
    ensures EvidenceScores(entries, e) <==>
            && E.ScoreFrom(Get(entries, "relevance_score")) == Ok(e.relevanceScore)
            && E.OptionalScore(Get(entries, "rerank_score")) == Ok(e.rerankScore)
  {
    ScorePart(entries, "relevance_score", e.relevanceScore);
    OptionalScorePart(entries, "rerank_score", e.rerankScore);
  }

  lemma EvidenceLabelParts(entries: Entries, e: E.Evidence)
    requires e.source in {"company_knowledge", "project_document"} && e.retrievalStatus == "success"
    ensures Is(entries, "source", JString(e.source)) <==> E.SourceFrom(Get(entries, "source")) == Ok(e.source)
    ensures Is(entries, "retrieval_status", JString(e.retrievalStatus))
            <==> E.StatusFrom(Get(entries, "retrieval_status")) == Ok(e.retrievalStatus)
  {
    GetIff(entries, "source", JString(e.source));
    GetIff(entries, "retrieval_status", JString(e.retrievalStatus));
    E.SourcesAreNotBlank();
  }

  /** Decoding succeeds when the parts do, and puts each in its place. */
  lemma EvidenceFromParts(entries: Entries, e: E.Evidence)
    ensures E.EvidenceFrom(entries) == Ok(e) <==>
            && OnlyKeys(entries, E.EVIDENCE_FIELDS) && HasKeys(entries, E.EVIDENCE_FIELDS)
            && E.SourceFrom(Get(entries, "source")) == Ok(e.source)
            && E.StatusFrom(Get(entries, "retrieval_status")) == Ok(e.retrievalStatus)
            && BoundedFrom(Get(entries, "chunk_id"), E.MAX_CHAT_RAG_CHUNK_ID) == Ok(e.chunkId)
            && BoundedFrom(Get(entries, "document_id"), E.MAX_CHAT_RAG_DOCUMENT_ID) == Ok(e.documentId)
            && BoundedFrom(Get(entries, "document_title"), E.MAX_CHAT_RAG_DOCUMENT_TITLE) == Ok(e.documentTitle)
            && OptionalBounded(Get(entries, "section"), E.MAX_CHAT_RAG_SECTION) == Ok(e.section)
            && OptionalBounded(Get(entries, "source_url"), E.MAX_CHAT_RAG_SOURCE_URL) == Ok(e.sourceUrl)
            && E.ScoreFrom(Get(entries, "relevance_score")) == Ok(e.relevanceScore)
            && E.OptionalScore(Get(entries, "rerank_score")) == Ok(e.rerankScore)
            && BoundedFrom(Get(entries, "preview"), E.MAX_CHAT_RAG_PREVIEW) == Ok(e.preview)
            && BoundedFrom(Get(entries, "content"), E.MAX_CHAT_RAG_CONTENT) == Ok(e.content)
            && E.EvidenceOk(e)
  {
  }

  lemma EvidenceConstructible(entries: Entries, e: E.Evidence)
    requires EvidenceTexts(entries, e) && EvidenceScores(entries, e)
    ensures E.EvidenceOk(e) <==> e.source in {"company_knowledge", "project_document"} && e.retrievalStatus == "success"
  {
  }

  lemma EvidenceNamesAre()
    ensures forall name :: name in E.EVIDENCE_FIELDS <==> name in EVIDENCE_NAMES
  {
    var f := E.EVIDENCE_FIELDS;
    assert f[0] == "source" && f[1] == "retrieval_status" && f[2] == "chunk_id" && f[3] == "document_id"
           && f[4] == "document_title" && f[5] == "section" && f[6] == "source_url" && f[7] == "relevance_score"
           && f[8] == "rerank_score" && f[9] == "preview" && f[10] == "content";
  }

  lemma EvidenceDecodesIff(entries: Entries, e: E.Evidence)
    ensures E.EvidenceFrom(entries) == Ok(e) <==> EvidenceWire(entries, e)
  {
    EvidenceNamesAre();
    OnlyKeysIff(entries, E.EVIDENCE_FIELDS, EVIDENCE_NAMES);
    EvidenceFromParts(entries, e);
    EvidenceTextParts(entries, e);
    EvidenceScoreParts(entries, e);
    if e.source in {"company_knowledge", "project_document"} && e.retrievalStatus == "success" {
      EvidenceLabelParts(entries, e);
    }
    if EvidenceTexts(entries, e) && EvidenceScores(entries, e) {
      EvidenceConstructible(entries, e);
    }
  }

  // ---- execution trace ----

  /** What Python takes for false. */
  ghost predicate IsFalsy(entries: Entries, name: string) {
    || Is(entries, name, JNull) || Is(entries, name, JBool(false)) || Is(entries, name, JNumber(0))
    || Is(entries, name, JReal(0.0)) || Is(entries, name, JString("")) || Is(entries, name, JList([]))
    || Is(entries, name, JObject([]))
  }

  predicate ListsStrings(items: seq<Json>, strings: seq<string>) {
    |items| == |strings| && forall i | 0 <= i < |items| :: items[i] == JString(strings[i])
  }

  /** Up to twenty different short names; none when the field is absent, but null is no list. */
  ghost predicate FilenamesWire(entries: Entries, filenames: seq<string>) {
    && |filenames| <= 20
    && (forall i | 0 <= i < |filenames| :: Short(filenames[i], 300))
    && (forall i, j | 0 <= i < j < |filenames| :: filenames[i] != filenames[j])
    && ((Lacks(entries, "retrieved_filenames") && filenames == [])
        || exists items :: Has(entries, "retrieved_filenames", JList(items)) && ListsStrings(items, filenames))
  }

  ghost predicate TraceWire(entries: Entries, t: E.Trace) {
    && TextIs(entries, "provider", t.provider, 100)
    && TextIs(entries, "model", t.model, 200)
    && Is(entries, "mode", JString(t.mode)) && t.mode in {"fast", "reasoning"}
    && TextOrNull(entries, "reasoning", t.reasoning, 12000)
    && (t.reasoningTruncated <==> !IsFalsy(entries, "reasoning_truncated"))
    && FilenamesWire(entries, t.filenames)
  }

  lemma FalsyPart(entries: Entries, name: string)
    ensures E.Truthy(Get(entries, name)) <==> !IsFalsy(entries, name)
  {
    GetIff(entries, name, JNull);
    GetIff(entries, name, JBool(false));
    GetIff(entries, name, JNumber(0));
    GetIff(entries, name, JReal(0.0));
    GetIff(entries, name, JString(""));
    GetIff(entries, name, JList([]));
    GetIff(entries, name, JObject([]));
  }

  lemma {:induction false} FilenamesFromIff(items: seq<Json>, filenames: seq<string>)
    ensures E.FilenamesFrom(items) == Ok(filenames) <==>
            ListsStrings(items, filenames) && forall i | 0 <= i < |filenames| :: Bounded(filenames[i], E.MAX_FILENAME)
  {
    if items != [] {
      if filenames != [] {
        FilenamesFromIff(items[1..], filenames[1..]);
        assert filenames == [filenames[0]] + filenames[1..];
        assert ListsStrings(items, filenames) <==>
               items[0] == JString(filenames[0]) && ListsStrings(items[1..], filenames[1..]) by {
          StringsTail(items, filenames);
        }
        BoundedTail(filenames);
      }
    }
  }

  lemma StringsTail(items: seq<Json>, strings: seq<string>)
    requires items != [] && strings != []
    ensures ListsStrings(items, strings) <==> items[0] == JString(strings[0]) && ListsStrings(items[1..], strings[1..])
  {
    if items[0] == JString(strings[0]) && ListsStrings(items[1..], strings[1..]) {
      forall i | 0 <= i < |items| ensures items[i] == JString(strings[i]) {
        assert i > 0 ==> items[1..][i - 1] == items[i] && strings[1..][i - 1] == strings[i];
      }
    }
  }

  lemma BoundedTail(filenames: seq<string>)
    requires filenames != []
    ensures (forall i | 0 <= i < |filenames| :: Bounded(filenames[i], E.MAX_FILENAME)) <==>
            Bounded(filenames[0], E.MAX_FILENAME)
            && forall i | 0 <= i < |filenames[1..]| :: Bounded(filenames[1..][i], E.MAX_FILENAME)
  {
    if Bounded(filenames[0], E.MAX_FILENAME) && forall i | 0 <= i < |filenames[1..]| :: Bounded(filenames[1..][i], E.MAX_FILENAME) {
      forall i | 0 <= i < |filenames| ensures Bounded(filenames[i], E.MAX_FILENAME) {
        assert i > 0 ==> filenames[1..][i - 1] == filenames[i];
      }
    }
  }

  lemma FilenamesPart(entries: Entries, filenames: seq<string>)
    ensures E.FilenamesIn(entries) == Ok(filenames) && E.FilenamesOk(filenames) <==> FilenamesWire(entries, filenames)
  {
    var found := Lookup(entries, "retrieved_filenames");
    LookupIff(entries, "retrieved_filenames");
    forall i | 0 <= i < |filenames| ensures Bounded(filenames[i], E.MAX_FILENAME) <==> Short(filenames[i], 300) {
      ShortIff(filenames[i], 300);
    }
    if found.Some? && found.value.JList? {
      FilenamesFromIff(found.value.items, filenames);
    }
  }

  lemma TraceFromParts(entries: Entries, t: E.Trace)
    ensures E.TraceFrom(entries) == Ok(t) <==>
            && RequireBounded(entries, "provider", E.MAX_PROVIDER) == Ok(t.provider)
            && RequireBounded(entries, "model", E.MAX_MODEL) == Ok(t.model)
            && Lookup(entries, "mode") == Some(JString(t.mode))
            && OptionalBounded(Get(entries, "reasoning"), E.MAX_REASONING) == Ok(t.reasoning)
            && t.reasoningTruncated == E.Truthy(Get(entries, "reasoning_truncated"))
            && E.FilenamesIn(entries) == Ok(t.filenames)
            && E.TraceOk(t)
  {
  }

  lemma RequiredPart(entries: Entries, name: string, s: string, maximum: nat)
    ensures RequireBounded(entries, name, maximum) == Ok(s) <==> TextIs(entries, name, s, maximum)
  {
    TextPart(entries, name, s, maximum);
  }

  lemma TraceDecodesIff(entries: Entries, t: E.Trace)
    ensures E.TraceFrom(entries) == Ok(t) <==> TraceWire(entries, t)
  {
    TraceFromParts(entries, t);
    RequiredPart(entries, "provider", t.provider, 100);
    RequiredPart(entries, "model", t.model, 200);
    GetIff(entries, "mode", JString(t.mode));
    OptionalPart(entries, "reasoning", t.reasoning, 12000);
    FalsyPart(entries, "reasoning_truncated");
    FilenamesPart(entries, t.filenames);
  }

  // ---- activities ----

  predicate CodeWord(c: C.Code, s: string) {
    match c
    case UnderstandingRequest => s == "understanding_request"
    case SearchingRelevantInformation => s == "searching_relevant_information"
    case ReviewingContext => s == "reviewing_context"
    case PreparingResponse => s == "preparing_response"
    case PreparingActionPlan => s == "preparing_action_plan"
    case CheckingMail => s == "checking_mail"
    case ProcessingEmail => s == "processing_email"
    case PreparingMailResults => s == "preparing_mail_results"
  }

  predicate StatusWord(t: C.Status, s: string) {
    match t
    case Pending => s == "pending"
    case Running => s == "running"
    case Completed => s == "completed"
    case Failed => s == "failed"
    case Cancelled => s == "cancelled"
    case Skipped => s == "skipped"
  }

  predicate OutcomeWord(o: C.ActivityOutcome, s: string) {
    match o
    case Success => s == "success"
    case NoResults => s == "no_results"
    case Partial => s == "partial"
    case Degraded => s == "degraded"
  }

  predicate KindWord(k: C.DetailKind, s: string) {
    match k
    case DocumentsFound => s == "documents_found"
    case EmailsProcessed => s == "emails_processed"
    case ActionItemsPrepared => s == "action_items_prepared"
  }

  function CodeWordOf(c: C.Code): string -> bool {
    s => CodeWord(c, s)
  }

  lemma CodeWords(c: C.Code, s: string)
    ensures A.CodeNamed(s) == Some(c) <==> CodeWord(c, s)
  {
  }

  function StatusWordOf(t: C.Status): string -> bool {
    s => StatusWord(t, s)
  }

  lemma StatusWords(t: C.Status, s: string)
    ensures A.StatusNamed(s) == Some(t) <==> StatusWord(t, s)
  {
  }

  function OutcomeWordOf(o: C.ActivityOutcome): string -> bool {
    s => OutcomeWord(o, s)
  }

  lemma OutcomeWords(o: C.ActivityOutcome, s: string)
    ensures A.OutcomeNamed(s) == Some(o) <==> OutcomeWord(o, s)
  {
  }

  function KindWordOf(k: C.DetailKind): string -> bool {
    s => KindWord(k, s)
  }

  lemma KindWords(k: C.DetailKind, s: string)
    ensures A.KindNamed(s) == Some(k) <==> KindWord(k, s)
  {
  }

  /** The entry is a string that this word list gives to the member. */
  ghost predicate Worded(entries: Entries, name: string, word: string -> bool) {
    exists s :: Is(entries, name, JString(s)) && word(s)
  }

  lemma WordPart<T>(entries: Entries, name: string, t: T, named: string -> Option<T>, word: string -> bool)
    requires forall s :: named(s) == Some(t) <==> word(s)
    ensures A.EnumFrom(Get(entries, name), named) == Ok(t) <==> Worded(entries, name, word)
  {
    var j := Get(entries, name);
    GetIff(entries, name, j);
    if j.JString? && word(j.s) {
      assert Is(entries, name, JString(j.s));
    }
    if s :| Is(entries, name, JString(s)) && word(s) {
      GetIff(entries, name, JString(s));
    }
  }

  const DETAIL_NAMES := {"kind", "current", "total"}

  ghost predicate DetailWire(entries: Entries, d: C.Detail) {
    && OnlyNamed(entries, DETAIL_NAMES)
    && Worded(entries, "kind", KindWordOf(d.kind))
    && Is(entries, "current", JNumber(d.current)) && 0 <= d.current <= 100_000
    && (d.total.None? ==> Is(entries, "total", JNull))
    && (d.total.Some? ==> Is(entries, "total", JNumber(d.total.value)) && d.current <= d.total.value <= 100_000)
  }

  lemma DetailNamesAre()
    ensures forall name :: name in A.DETAIL_FIELDS <==> name in DETAIL_NAMES
  {
    assert A.DETAIL_FIELDS[0] == "kind" && A.DETAIL_FIELDS[1] == "current" && A.DETAIL_FIELDS[2] == "total";
  }

  lemma DetailFromParts(entries: Entries, d: C.Detail)
    ensures A.DetailFrom(entries) == Ok(d) <==>
            && OnlyKeys(entries, A.DETAIL_FIELDS)
            && A.EnumFrom(Get(entries, "kind"), A.KindNamed) == Ok(d.kind)
            && A.CountFrom(Get(entries, "current")) == Ok(d.current)
            && A.OptionalCount(Get(entries, "total")) == Ok(d.total)
            && C.DetailOk(d)
  {
  }

  lemma DetailDecodesIff(entries: Entries, d: C.Detail)
    ensures A.DetailFrom(entries) == Ok(d) <==> DetailWire(entries, d)
  {
    DetailNamesAre();
    OnlyKeysIff(entries, A.DETAIL_FIELDS, DETAIL_NAMES);
    DetailFromParts(entries, d);
    forall s ensures A.KindNamed(s) == Some(d.kind) <==> KindWord(d.kind, s) {
      KindWords(d.kind, s);
    }
    WordPart(entries, "kind", d.kind, A.KindNamed, KindWordOf(d.kind));
    GetIff(entries, "current", JNumber(d.current));
    GetIff(entries, "total", JNull);
    if d.total.Some? {
      GetIff(entries, "total", JNumber(d.total.value));
    }
  }

  const ACTIVITY_NAMES := {"code", "status", "outcome", "detail", "started_at", "completed_at"}

  ghost predicate TimeIs(py: A.Python, entries: Entries, name: string, at: Option<C.Datetime>) {
    if at.None? then Is(entries, name, JNull)
    else exists text :: Is(entries, name, JString(text)) && py.fromisoformat(text) == at
  }

  ghost predicate DetailIs(entries: Entries, d: Option<C.Detail>) {
    if d.None? then Is(entries, "detail", JNull)
    else exists fields :: Is(entries, "detail", JObject(fields)) && DetailWire(fields, d.value)
  }

  ghost predicate ActivityWire(py: A.Python, entries: Entries, a: C.Activity) {
    && OnlyNamed(entries, ACTIVITY_NAMES)
    && Worded(entries, "code", CodeWordOf(a.code))
    && Worded(entries, "status", StatusWordOf(a.status))
    && (if a.outcome.None? then Is(entries, "outcome", JNull)
        else Worded(entries, "outcome", OutcomeWordOf(a.outcome.value)))
    && DetailIs(entries, a.detail)
    && TimeIs(py, entries, "started_at", a.startedAt)
    && TimeIs(py, entries, "completed_at", a.completedAt)
    && C.Lawful(a)
  }

  lemma TimePart(py: A.Python, entries: Entries, name: string, at: Option<C.Datetime>)
    ensures A.OptionalDatetime(py, Get(entries, name)) == Ok(at) <==> TimeIs(py, entries, name, at)
  {
    var j := Get(entries, name);
    GetIff(entries, name, j);
    GetIff(entries, name, JNull);
    if text :| Is(entries, name, JString(text)) && py.fromisoformat(text) == at {
      GetIff(entries, name, JString(text));
    }
  }

  lemma DetailPart(entries: Entries, d: Option<C.Detail>)
    ensures A.OptionalDetail(Get(entries, "detail")) == Ok(d) <==> DetailIs(entries, d)
  {
    var j := Get(entries, "detail");
    GetIff(entries, "detail", j);
    GetIff(entries, "detail", JNull);
    if d.Some? {
      if j.JObject? {
        DetailDecodesIff(j.entries, d.value);
      }
      if fields :| Is(entries, "detail", JObject(fields)) && DetailWire(fields, d.value) {
        GetIff(entries, "detail", JObject(fields));
      }
    }
  }

  lemma CodePart(entries: Entries, c: C.Code)
    ensures A.EnumFrom(Get(entries, "code"), A.CodeNamed) == Ok(c) <==> Worded(entries, "code", CodeWordOf(c))
  {
    forall s ensures A.CodeNamed(s) == Some(c) <==> CodeWord(c, s) {
      CodeWords(c, s);
    }
    WordPart(entries, "code", c, A.CodeNamed, CodeWordOf(c));
  }

  lemma StatusPart(entries: Entries, t: C.Status)
    ensures A.EnumFrom(Get(entries, "status"), A.StatusNamed) == Ok(t) <==> Worded(entries, "status", StatusWordOf(t))
  {
    forall s ensures A.StatusNamed(s) == Some(t) <==> StatusWord(t, s) {
      StatusWords(t, s);
    }
    WordPart(entries, "status", t, A.StatusNamed, StatusWordOf(t));
  }

  lemma OutcomePart(entries: Entries, o: Option<C.ActivityOutcome>)
    ensures A.OptionalOutcome(Get(entries, "outcome")) == Ok(o) <==>
            if o.None? then Is(entries, "outcome", JNull) else Worded(entries, "outcome", OutcomeWordOf(o.value))
  {
    GetIff(entries, "outcome", JNull);
    if o.Some? {
      forall s ensures A.OutcomeNamed(s) == Some(o.value) <==> OutcomeWord(o.value, s) {
        OutcomeWords(o.value, s);
      }
      WordPart(entries, "outcome", o.value, A.OutcomeNamed, OutcomeWordOf(o.value));
    }
  }

  lemma ActivityNamesAre()
    ensures forall name :: name in A.ACTIVITY_FIELDS <==> name in ACTIVITY_NAMES
  {
    var f := A.ACTIVITY_FIELDS;
    assert f[0] == "code" && f[1] == "status" && f[2] == "outcome" && f[3] == "detail" && f[4] == "started_at"
           && f[5] == "completed_at";
  }

  lemma ActivityFromParts(py: A.Python, entries: Entries, a: C.Activity)
    ensures A.ActivityFrom(py, entries) == Ok(a) <==>
            && OnlyKeys(entries, A.ACTIVITY_FIELDS)
            && A.EnumFrom(Get(entries, "code"), A.CodeNamed) == Ok(a.code)
            && A.EnumFrom(Get(entries, "status"), A.StatusNamed) == Ok(a.status)
            && A.OptionalOutcome(Get(entries, "outcome")) == Ok(a.outcome)
            && A.OptionalDetail(Get(entries, "detail")) == Ok(a.detail)
            && A.OptionalDatetime(py, Get(entries, "started_at")) == Ok(a.startedAt)
            && A.OptionalDatetime(py, Get(entries, "completed_at")) == Ok(a.completedAt)
            && C.Objection(a).None?
  {
  }

  lemma ActivityDecodesIff(py: A.Python, entries: Entries, a: C.Activity)
    ensures A.ActivityFrom(py, entries) == Ok(a) <==> ActivityWire(py, entries, a)
  {
    ActivityNamesAre();
    OnlyKeysIff(entries, A.ACTIVITY_FIELDS, ACTIVITY_NAMES);
    ActivityFromParts(py, entries, a);
    CodePart(entries, a.code);
    StatusPart(entries, a.status);
    OutcomePart(entries, a.outcome);
    DetailPart(entries, a.detail);
    TimePart(py, entries, "started_at", a.startedAt);
    TimePart(py, entries, "completed_at", a.completedAt);
    C.ValidIff(a);
  }
}
