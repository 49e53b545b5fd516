/** Chat stream events: a flat record whose validator carves out a tagged union. */
module StreamEvents {
  import opened Wrappers
  import opened JsonValues
  import Text
  import ChatActivities
  import ChatEvidence

  datatype EventType = STARTED | ACTIVITY | DELTA | MEMORY_CITATION | TASK_PROPOSAL | COMPLETED | ERROR

  datatype MemoryCitationType = Declarative | Episodic | Semantic

  const MAX_CHAT_RAG_EVIDENCE_ITEMS := 16

  const PROJECT_DOCUMENT := "project_document"

  datatype FlatEvent = FlatEvent(
    eventId: string,
    sessionId: string,
    turnId: string,
    eventType: EventType,
    text: Option<string>,
    memoryType: Option<MemoryCitationType>,
    sourceId: Option<string>,
    code: Option<string>,
    safeMessage: Option<string>,
    proposal: Option<Value>,
    citationScope: Option<string>,
    projectId: Option<string>,
    documentId: Option<string>,
    documentTitle: Option<string>,
    section: Option<string>,
    pageStart: Option<int>,
    pageEnd: Option<int>,
    ragEvidence: seq<ChatEvidence.Evidence>,
    retrievalStatus: Option<string>,
    activities: seq<ChatActivities.Activity>,
    executionTrace: Option<ChatEvidence.Trace>,
    artifactRefs: seq<Value>)

  datatype Payload =
    | Text | MemoryType | SourceId | Code | SafeMessage | Proposal
    | CitationScope | ProjectId | DocumentId | DocumentTitle | Section | PageStart | PageEnd
    | RagEvidence | RetrievalStatus | Activities | ExecutionTrace | ArtifactRefs

  /** The payload's value is not None; empty tuples count as None. */
  predicate Present(e: FlatEvent, p: Payload) {
    match p
    case Text => e.text.Some?
    case MemoryType => e.memoryType.Some?
    case SourceId => e.sourceId.Some?
    case Code => e.code.Some?
    case SafeMessage => e.safeMessage.Some?
    case Proposal => e.proposal.Some?
    case CitationScope => e.citationScope.Some?
    case ProjectId => e.projectId.Some?
    case DocumentId => e.documentId.Some?
    case DocumentTitle => e.documentTitle.Some?
    case Section => e.section.Some?
    case PageStart => e.pageStart.Some?
    case PageEnd => e.pageEnd.Some?
    case RagEvidence => e.ragEvidence != []
    case RetrievalStatus => e.retrievalStatus.Some?
    case Activities => e.activities != []
    case ExecutionTrace => e.executionTrace.Some?
    case ArtifactRefs => e.artifactRefs != []
  }

  function Required(t: EventType): set<Payload> {
    match t
    case STARTED => {}
    case ACTIVITY => {Activities}
    case DELTA => {Text}
    case MEMORY_CITATION => {MemoryType, SourceId}
    case TASK_PROPOSAL => {Proposal}
    case COMPLETED => {}
    case ERROR => {Code, SafeMessage}
  }

  const COMPLETED_FIELDS := {RagEvidence, RetrievalStatus, ExecutionTrace, ArtifactRefs}

  const CITATION_FIELDS := {CitationScope, ProjectId, DocumentId, DocumentTitle, Section, PageStart, PageEnd}

  /** The payload is optional for this event type. */
  predicate Exempt(t: EventType, p: Payload) {
    || (t == COMPLETED && p in COMPLETED_FIELDS)
    || (t == MEMORY_CITATION && p in CITATION_FIELDS)
  }

  datatype EventError =
    | BlankString | BadProposal | TooMuchEvidence | BadActivities | CompletedOnly | RequiresOnly
    | CoordinatesWithoutScope | ScopeOutsideCitation | UnsupportedScope | MissingPages | BadPages

  predicate BlankOrMissing(s: Option<string>) {
    s.None? || Text.Blank(s.value)
  }

  function VariantObjection(e: FlatEvent): Option<EventError> {
    if e.eventType != COMPLETED
       && (e.ragEvidence != [] || e.retrievalStatus.Some? || e.executionTrace.Some? || e.artifactRefs != [])
    then Some(CompletedOnly)
    else if exists p: Payload :: !Exempt(e.eventType, p) && (p in Required(e.eventType)) != Present(e, p)
    then Some(RequiresOnly)
    else if (Text in Required(e.eventType) && BlankOrMissing(e.text))
         || (SourceId in Required(e.eventType) && BlankOrMissing(e.sourceId))
         || (Code in Required(e.eventType) && BlankOrMissing(e.code))
         || (SafeMessage in Required(e.eventType) && BlankOrMissing(e.safeMessage))
    then Some(BlankString)
    else CoordinateObjection(e)
  }

  function CoordinateObjection(e: FlatEvent): Option<EventError> {
    if e.citationScope.None? then
      if e.projectId.Some? || e.documentId.Some? || e.documentTitle.Some? || e.section.Some? || e.pageStart.Some? || e.pageEnd.Some?
      then Some(CoordinatesWithoutScope) else None
    else if e.eventType != MEMORY_CITATION then Some(ScopeOutsideCitation)
    else if e.citationScope.value != PROJECT_DOCUMENT then Some(UnsupportedScope)
    else if BlankOrMissing(e.projectId) || BlankOrMissing(e.documentId) || BlankOrMissing(e.documentTitle) then Some(BlankString)
    else if e.pageStart.None? || e.pageEnd.None? then Some(MissingPages)
    else if e.pageStart.value < 1 || e.pageEnd.value < e.pageStart.value then Some(BadPages)
    else None
  }

  /** The first objection of `__post_init__`; what makes a task proposal acceptable is a parameter. */
  function Objection(proposalOk: Value -> bool, e: FlatEvent): Option<EventError> {
    if Text.Blank(e.eventId) || Text.Blank(e.sessionId) || Text.Blank(e.turnId) then Some(BlankString)
    else if e.proposal.Some? && !proposalOk(e.proposal.value) then Some(BadProposal)
    else if |e.ragEvidence| > MAX_CHAT_RAG_EVIDENCE_ITEMS then Some(TooMuchEvidence)
    else if ChatActivities.SnapshotObjection(e.activities).Some? then Some(BadActivities)
    else VariantObjection(e)
  }

  // ---- the union behind the record ----

  datatype Head = Head(eventId: string, sessionId: string, turnId: string)

  datatype Coordinates = Coordinates(
    projectId: string,
    documentId: string,
    documentTitle: string,
    section: Option<string>,
    pageStart: int,
    pageEnd: int)

  datatype StreamEvent =
    | Started(head: Head)
    | ActivityUpdate(head: Head, activities: seq<ChatActivities.Activity>)
    | Delta(head: Head, text: string)
    | MemoryCitation(head: Head, memoryType: MemoryCitationType, sourceId: string, coordinates: Option<Coordinates>)
    | TaskProposal(head: Head, proposal: Value)
    | Completed(
        head: Head,
        evidence: seq<ChatEvidence.Evidence>,
        retrievalStatus: Option<string>,
        trace: Option<ChatEvidence.Trace>,
        artifacts: seq<Value>)
    | Error(head: Head, code: string, safeMessage: string)

  predicate WellFormedCoordinates(c: Coordinates) {
    && !Text.Blank(c.projectId) && !Text.Blank(c.documentId) && !Text.Blank(c.documentTitle)
    && 1 <= c.pageStart <= c.pageEnd
  }

  predicate WellFormed(proposalOk: Value -> bool, e: StreamEvent) {
    && !Text.Blank(e.head.eventId) && !Text.Blank(e.head.sessionId) && !Text.Blank(e.head.turnId)
    && match e
       case Started(_) => true
       case ActivityUpdate(_, activities) => activities != [] && ChatActivities.SnapshotObjection(activities).None?
       case Delta(_, text) => !Text.Blank(text)
       case MemoryCitation(_, _, sourceId, coordinates) =>
         !Text.Blank(sourceId) && (coordinates.Some? ==> WellFormedCoordinates(coordinates.value))
       case TaskProposal(_, proposal) => proposalOk(proposal)
       case Completed(_, evidence, _, _, _) => |evidence| <= MAX_CHAT_RAG_EVIDENCE_ITEMS
       case Error(_, code, safeMessage) => !Text.Blank(code) && !Text.Blank(safeMessage)
  }

  function Bare(head: Head, t: EventType): FlatEvent {
    FlatEvent(head.eventId, head.sessionId, head.turnId, t, None, None, None, None, None, None, None, None, None, None,
              None, None, None, [], None, [], None, [])
  }

  /** The per-variant constructors. */
  function Flatten(e: StreamEvent): FlatEvent {
    match e
    case Started(head) => Bare(head, STARTED)
    case ActivityUpdate(head, activities) => Bare(head, ACTIVITY).(activities := activities)
    case Delta(head, text) => Bare(head, DELTA).(text := Some(text))
    case MemoryCitation(head, memoryType, sourceId, coordinates) =>
      var cited := Bare(head, MEMORY_CITATION).(memoryType := Some(memoryType), sourceId := Some(sourceId));
      if coordinates.None? then cited
      else
        var c := coordinates.value;
        cited.(citationScope := Some(PROJECT_DOCUMENT), projectId := Some(c.projectId), documentId := Some(c.documentId),
               documentTitle := Some(c.documentTitle), section := c.section,
               pageStart := Some(c.pageStart), pageEnd := Some(c.pageEnd))
    case TaskProposal(head, proposal) => Bare(head, TASK_PROPOSAL).(proposal := Some(proposal))
    case Completed(head, evidence, status, trace, artifacts) =>
      Bare(head, COMPLETED).(ragEvidence := evidence, retrievalStatus := status, executionTrace := trace, artifactRefs := artifacts)
    case Error(head, code, safeMessage) => Bare(head, ERROR).(code := Some(code), safeMessage := Some(safeMessage))
  }

  function GetOr<T>(value: Option<T>, default: T): T {
    if value.Some? then value.value else default
  }

  /** Read the variant off a record by its event type; missing payloads read as empty. */
  function Unflatten(e: FlatEvent): StreamEvent {
    var head := Head(e.eventId, e.sessionId, e.turnId);
    match e.eventType
    case STARTED => Started(head)
    case ACTIVITY => ActivityUpdate(head, e.activities)
    case DELTA => Delta(head, GetOr(e.text, ""))
    case MEMORY_CITATION =>
      MemoryCitation(
        head, GetOr(e.memoryType, Declarative), GetOr(e.sourceId, ""),
        if e.citationScope.None? then None
        else Some(Coordinates(GetOr(e.projectId, ""), GetOr(e.documentId, ""), GetOr(e.documentTitle, ""), e.section,
                              GetOr(e.pageStart, 0), GetOr(e.pageEnd, 0))))
    case TASK_PROPOSAL => TaskProposal(head, GetOr(e.proposal, VNull))
    case COMPLETED => Completed(head, e.ragEvidence, e.retrievalStatus, e.executionTrace, e.artifactRefs)
    case ERROR => Error(head, GetOr(e.code, ""), GetOr(e.safeMessage, ""))
  }

  /** A constructed record never has the wrong payloads, except an activity update without activities. */
  lemma FlattenPayloads(e: StreamEvent)
    ensures var flat := Flatten(e);
            (exists p: Payload :: !Exempt(flat.eventType, p) && (p in Required(flat.eventType)) != Present(flat, p))
            <==> e.ActivityUpdate? && e.activities == []
  {
    var flat := Flatten(e);
    forall p: Payload | !Exempt(flat.eventType, p)
      ensures (p in Required(flat.eventType)) == Present(flat, p) || p == Activities
    {
    }
    assert flat.eventType == ACTIVITY ==> (Present(flat, Activities) <==> e.activities != []);
  }

  lemma FlattenCoordinates(e: StreamEvent)
    ensures CoordinateObjection(Flatten(e)).None?
            <==> (e.MemoryCitation? && e.coordinates.Some? ==> WellFormedCoordinates(e.coordinates.value))
  {
  }

  lemma FlattenInverts(e: StreamEvent)
    ensures Unflatten(Flatten(e)) == e
  {
  }

  /** The constructors lose nothing, and the validator accepts their result exactly for well-formed arguments. */
  lemma FlattenFaithful(proposalOk: Value -> bool, e: StreamEvent)
    ensures Unflatten(Flatten(e)) == e
    ensures Objection(proposalOk, Flatten(e)).None? <==> WellFormed(proposalOk, e)
  {
    FlattenInverts(e);
    FlattenPayloads(e);
    FlattenCoordinates(e);
  }

  /** `memory_citation` with its seven coordinates given one by one. */
  function LooseCitation(head: Head, memoryType: MemoryCitationType, sourceId: string, scope: Option<string>,
                         projectId: Option<string>, documentId: Option<string>, documentTitle: Option<string>,
                         section: Option<string>, pageStart: Option<int>, pageEnd: Option<int>): FlatEvent
  {
    Bare(head, MEMORY_CITATION).(
      memoryType := Some(memoryType), sourceId := Some(sourceId), citationScope := scope, projectId := projectId,
      documentId := documentId, documentTitle := documentTitle, section := section, pageStart := pageStart, pageEnd := pageEnd)
  }

  /** Loose coordinates are accepted exactly when they are absent altogether or form one well-formed bundle. */
  lemma LooseCitationAcceptedIff(
      proposalOk: Value -> bool, head: Head, memoryType: MemoryCitationType, sourceId: string, scope: Option<string>,
      projectId: Option<string>, documentId: Option<string>, documentTitle: Option<string>, section: Option<string>,
      pageStart: Option<int>, pageEnd: Option<int>)
    ensures var e := LooseCitation(head, memoryType, sourceId, scope, projectId, documentId, documentTitle, section,
                                   pageStart, pageEnd);
            Objection(proposalOk, e).None? <==>
            exists coordinates: Option<Coordinates> ::
              var citation := MemoryCitation(head, memoryType, sourceId, coordinates);
              WellFormed(proposalOk, citation) && e == Flatten(citation)
  {
    var e := LooseCitation(head, memoryType, sourceId, scope, projectId, documentId, documentTitle, section, pageStart, pageEnd);
    if Objection(proposalOk, e).None? {
      AcceptedRecordsAreVariants(proposalOk, e);
      var citation := Unflatten(e);
      assert citation == MemoryCitation(head, memoryType, sourceId, citation.coordinates);
    }
    forall coordinates: Option<Coordinates>
      ensures var citation := MemoryCitation(head, memoryType, sourceId, coordinates);
              WellFormed(proposalOk, citation) && e == Flatten(citation) ==> Objection(proposalOk, e).None?
    {
      FlattenFaithful(proposalOk, MemoryCitation(head, memoryType, sourceId, coordinates));
    }
  }

  /** What the generic payload loop amounts to, payload by payload. */
  lemma RequiredPayloads(e: FlatEvent)
    requires VariantObjection(e).None?
    ensures e.text.Some? <==> e.eventType == DELTA
    ensures e.memoryType.Some? <==> e.eventType == MEMORY_CITATION
    ensures e.sourceId.Some? <==> e.eventType == MEMORY_CITATION
    ensures e.code.Some? <==> e.eventType == ERROR
    ensures e.safeMessage.Some? <==> e.eventType == ERROR
    ensures e.proposal.Some? <==> e.eventType == TASK_PROPOSAL
    ensures e.activities != [] <==> e.eventType == ACTIVITY
    ensures e.eventType != MEMORY_CITATION ==> e.citationScope.None?
  {
    PayloadMatches(e, Text);
    PayloadMatches(e, MemoryType);
    PayloadMatches(e, SourceId);
    PayloadMatches(e, Code);
    PayloadMatches(e, SafeMessage);
    PayloadMatches(e, Proposal);
    PayloadMatches(e, Activities);
    PayloadMatches(e, CitationScope);
  }

  lemma PayloadMatches(e: FlatEvent, p: Payload)
    requires VariantObjection(e).None?
    ensures !Exempt(e.eventType, p) ==> (Present(e, p) <==> p in Required(e.eventType))
  {
  }

  lemma NoStrayDetails(e: FlatEvent)
    requires VariantObjection(e).None?
    ensures e.eventType != COMPLETED ==>
              e.ragEvidence == [] && e.retrievalStatus.None? && e.executionTrace.None? && e.artifactRefs == []
    ensures e.citationScope.None? ==>
              && e.projectId.None? && e.documentId.None? && e.documentTitle.None? && e.section.None?
              && e.pageStart.None? && e.pageEnd.None?
    ensures e.citationScope.Some? ==>
              && e.citationScope.value == PROJECT_DOCUMENT
              && e.projectId.Some? && e.documentId.Some? && e.documentTitle.Some? && e.pageStart.Some? && e.pageEnd.Some?
  {
  }

  /** A record with just its type's payloads is rebuilt from its variant. */
  lemma PayloadsReassemble(e: FlatEvent)
    requires e.text.Some? <==> e.eventType == DELTA
    requires e.memoryType.Some? <==> e.eventType == MEMORY_CITATION
    requires e.sourceId.Some? <==> e.eventType == MEMORY_CITATION
    requires e.code.Some? <==> e.eventType == ERROR
    requires e.safeMessage.Some? <==> e.eventType == ERROR
    requires e.proposal.Some? <==> e.eventType == TASK_PROPOSAL
    requires e.activities != [] <==> e.eventType == ACTIVITY
    requires e.eventType != MEMORY_CITATION ==> e.citationScope.None?
    requires e.eventType != COMPLETED ==>
               e.ragEvidence == [] && e.retrievalStatus.None? && e.executionTrace.None? && e.artifactRefs == []
    requires e.citationScope.None? ==>
               && e.projectId.None? && e.documentId.None? && e.documentTitle.None? && e.section.None?
               && e.pageStart.None? && e.pageEnd.None?
    requires e.citationScope.Some? ==>
               && e.citationScope.value == PROJECT_DOCUMENT
               && e.projectId.Some? && e.documentId.Some? && e.documentTitle.Some? && e.pageStart.Some? && e.pageEnd.Some?
    ensures Flatten(Unflatten(e)) == e
  {
  }

  lemma UnflattenInverts(e: FlatEvent)
    requires VariantObjection(e).None?
    ensures Flatten(Unflatten(e)) == e
  {
    RequiredPayloads(e);
    NoStrayDetails(e);
    PayloadsReassemble(e);
  }

  /** Every record the validator accepts is one a constructor builds: no eighth variant, no stray payload. */
  lemma AcceptedRecordsAreVariants(proposalOk: Value -> bool, e: FlatEvent)
    requires Objection(proposalOk, e).None?
    ensures Flatten(Unflatten(e)) == e
    ensures WellFormed(proposalOk, Unflatten(e))
  {
    UnflattenInverts(e);
    assert WellFormed(proposalOk, Unflatten(e)) by {
      FlattenFaithful(proposalOk, Unflatten(e));
    }
  }

  // ---- the validator, payload by payload ----

  predicate IsFilled(s: Option<string>) {
    s.Some? && !Text.Blank(s.value)
  }

  predicate NoCoordinates(e: FlatEvent) {
    && e.citationScope == None && e.projectId == None && e.documentId == None && e.documentTitle == None
    && e.section == None && e.pageStart == None && e.pageEnd == None
  }

  predicate FullCoordinates(e: FlatEvent) {
    && e.citationScope == Some("project_document")
    && IsFilled(e.projectId) && IsFilled(e.documentId) && IsFilled(e.documentTitle)
    && e.pageStart.Some? && e.pageEnd.Some? && 1 <= e.pageStart.value <= e.pageEnd.value
  }

  /** Which payloads each kind of event carries, and what they must look like. */
  ghost predicate Fits(proposalOk: Value -> bool, e: FlatEvent) {
    && !Text.Blank(e.eventId) && !Text.Blank(e.sessionId) && !Text.Blank(e.turnId)
    && (if e.eventType == DELTA then IsFilled(e.text) else e.text == None)
    && (if e.eventType == MEMORY_CITATION then e.memoryType.Some? && IsFilled(e.sourceId) else e.memoryType == None && e.sourceId == None)
    && (if e.eventType == ERROR then IsFilled(e.code) && IsFilled(e.safeMessage) else e.code == None && e.safeMessage == None)
    && (if e.eventType == TASK_PROPOSAL then e.proposal.Some? && proposalOk(e.proposal.value) else e.proposal == None)
    && (if e.eventType == ACTIVITY then 1 <= |e.activities| <= 8 else e.activities == [])
    && (forall i, j | 0 <= i < j < |e.activities| :: e.activities[i].code != e.activities[j].code)
    && (if e.eventType == COMPLETED then |e.ragEvidence| <= 16
        else e.ragEvidence == [] && e.retrievalStatus == None && e.executionTrace == None && e.artifactRefs == [])
    && (NoCoordinates(e) || (e.eventType == MEMORY_CITATION && FullCoordinates(e)))
  }

  lemma FitsPayloads(proposalOk: Value -> bool, e: FlatEvent, p: Payload)
    requires Fits(proposalOk, e) && !Exempt(e.eventType, p)
    ensures Present(e, p) <==> p in Required(e.eventType)
  {
  }

  lemma FittingIsAccepted(proposalOk: Value -> bool, e: FlatEvent)
    requires Fits(proposalOk, e)
    ensures Objection(proposalOk, e).None?
  {
    assert VariantObjection(e).None? by {
      forall p: Payload | !Exempt(e.eventType, p) ensures Present(e, p) <==> p in Required(e.eventType) {
        FitsPayloads(proposalOk, e, p);
      }
    }
  }

  lemma AcceptedFits(proposalOk: Value -> bool, e: FlatEvent)
    requires Objection(proposalOk, e).None?
    ensures Fits(proposalOk, e)
  {
    RequiredPayloads(e);
    NoStrayDetails(e);
  }

  /** The flat record is accepted exactly when its payloads fit its kind. */
  lemma AcceptedIff(proposalOk: Value -> bool, e: FlatEvent)
    ensures Objection(proposalOk, e).None? <==> Fits(proposalOk, e)
  {
    if Objection(proposalOk, e).None? {
      AcceptedFits(proposalOk, e);
    }
    if Fits(proposalOk, e) {
      FittingIsAccepted(proposalOk, e);
    }
  }

  /** Where each constructor puts its arguments. */
  predicate Places(e: StreamEvent, r: FlatEvent) {
    && r.eventId == e.head.eventId && r.sessionId == e.head.sessionId && r.turnId == e.head.turnId
    && match e
       case Started(_) => r.eventType == STARTED
       case ActivityUpdate(_, activities) => r.eventType == ACTIVITY && r.activities == activities
       case Delta(_, text) => r.eventType == DELTA && r.text == Some(text)
       case MemoryCitation(_, memoryType, sourceId, coordinates) =>
         && r.eventType == MEMORY_CITATION && r.memoryType == Some(memoryType) && r.sourceId == Some(sourceId)
         && (coordinates.None? ==> NoCoordinates(r))
         && (coordinates.Some? ==> PlacesCoordinates(coordinates.value, r))
       case TaskProposal(_, proposal) => r.eventType == TASK_PROPOSAL && r.proposal == Some(proposal)
       case Completed(_, evidence, status, trace, artifacts) =>
         && r.eventType == COMPLETED && r.ragEvidence == evidence && r.retrievalStatus == status
         && r.executionTrace == trace && r.artifactRefs == artifacts
       case Error(_, code, safeMessage) =>
         r.eventType == ERROR && r.code == Some(code) && r.safeMessage == Some(safeMessage)
  }

  predicate PlacesCoordinates(c: Coordinates, r: FlatEvent) {
    && r.citationScope == Some("project_document")
    && r.projectId == Some(c.projectId) && r.documentId == Some(c.documentId) && r.documentTitle == Some(c.documentTitle)
    && r.section == c.section && r.pageStart == Some(c.pageStart) && r.pageEnd == Some(c.pageEnd)
  }

  /** With AcceptedIff: the constructors build just the fitting records, each from its own arguments. */
  lemma ConstructorsPlace(proposalOk: Value -> bool, e: StreamEvent)
    ensures Places(e, Flatten(e))
    ensures WellFormed(proposalOk, e) <==> Fits(proposalOk, Flatten(e))
  {
    FlattenFaithful(proposalOk, e);
    AcceptedIff(proposalOk, Flatten(e));
  }
}
