/** The wire form of chat activities. */
module ActivityCodec {
  import opened Wrappers
  import opened JsonValues
  import opened ChatActivities

  /** ISO strings of datetimes, and how Python shows a JSON value that is not a string. */
  datatype Python = Python(
    isoformat: Datetime -> string,
    fromisoformat: string -> Option<Datetime>,
    str: Json -> string)

  /** A datetime's ISO string reads back as that datetime. */
  ghost predicate Sound(py: Python) {
    forall d :: py.fromisoformat(py.isoformat(d)) == Some(d)
  }

  // ---- names of the enumeration members ----

  function CodeName(c: Code): string {
    match c
    case UnderstandingRequest => "understanding_request"
    case SearchingRelevantInformation => "searching_relevant_information"
    case ReviewingContext => "reviewing_context"
    case PreparingResponse => "preparing_response"
    case PreparingActionPlan => "preparing_action_plan"
    case CheckingMail => "checking_mail"
    case ProcessingEmail => "processing_email"
    case PreparingMailResults => "preparing_mail_results"
  }

  function StatusName(s: Status): string {
    match s
    case Pending => "pending"
    case Running => "running"
    case Completed => "completed"
    case Failed => "failed"
    case Cancelled => "cancelled"
    case Skipped => "skipped"
  }

  function OutcomeName(o: ActivityOutcome): string {
    match o
    case Success => "success"
    case NoResults => "no_results"
    case Partial => "partial"
    case Degraded => "degraded"
  }

  function KindName(k: DetailKind): string {
    match k
    case DocumentsFound => "documents_found"
    case EmailsProcessed => "emails_processed"
    case ActionItemsPrepared => "action_items_prepared"
  }

  function CodeNamed(s: string): Option<Code> {
    if s == "understanding_request" then Some(UnderstandingRequest)
    else if s == "searching_relevant_information" then Some(SearchingRelevantInformation)
    else if s == "reviewing_context" then Some(ReviewingContext)
    else if s == "preparing_response" then Some(PreparingResponse)
    else if s == "preparing_action_plan" then Some(PreparingActionPlan)
    else if s == "checking_mail" then Some(CheckingMail)
    else if s == "processing_email" then Some(ProcessingEmail)
    else if s == "preparing_mail_results" then Some(PreparingMailResults)
    else None
  }

  function StatusNamed(s: string): Option<Status> {
    if s == "pending" then Some(Pending)
    else if s == "running" then Some(Running)
    else if s == "completed" then Some(Completed)
    else if s == "failed" then Some(Failed)
    else if s == "cancelled" then Some(Cancelled)
    else if s == "skipped" then Some(Skipped)
    else None
  }

  function OutcomeNamed(s: string): Option<ActivityOutcome> {
    if s == "success" then Some(Success)
    else if s == "no_results" then Some(NoResults)
    else if s == "partial" then Some(Partial)
    else if s == "degraded" then Some(Degraded)
    else None
  }

  function KindNamed(s: string): Option<DetailKind> {
    if s == "documents_found" then Some(DocumentsFound)
    else if s == "emails_processed" then Some(EmailsProcessed)
    else if s == "action_items_prepared" then Some(ActionItemsPrepared)
    else None
  }

  lemma CodeNamesInvert(c: Code)
    ensures CodeNamed(CodeName(c)) == Some(c)
  {
  }

  lemma StatusNamesInvert(s: Status)
    ensures StatusNamed(StatusName(s)) == Some(s)
  {
  }

  lemma OutcomeNamesInvert(o: ActivityOutcome)
    ensures OutcomeNamed(OutcomeName(o)) == Some(o)
  {
  }

  lemma KindNamesInvert(k: DetailKind)
    ensures KindNamed(KindName(k)) == Some(k)
  {
  }

  /** `_as_enum` on JSON */
  function EnumFrom<T>(j: Json, named: string -> Option<T>): Result<T, DecodeError> {
    match j
    case JString(s) => if named(s).Some? then Ok(named(s).value) else Err(BadValue)
    case _ => Err(BadType)
  }

  // ---- details ----

  const DETAIL_FIELDS: seq<string> := ["kind", "current", "total"]

  function DetailField(d: Detail): string -> Json {
    (name: string) =>
      if name == "kind" then JString(KindName(d.kind))
      else if name == "current" then JNumber(d.current)
      else if d.total.Some? then JNumber(d.total.value)
      else JNull
  }

  function DetailEntries(d: Detail): seq<(string, Json)> {
    Record(DETAIL_FIELDS, DetailField(d))
  }

  /** `_count` */
  function CountFrom(j: Json): Result<int, DecodeError> {
    match j
    case JNumber(n) => if Countable(n) then Ok(n) else Err(BadValue)
    case _ => Err(BadType)
  }

  function OptionalCount(j: Json): Result<Option<int>, DecodeError> {
    if j.JNull? then Ok(None)
    else
      var n := CountFrom(j);
      if n.Err? then Err(n.error) else Ok(Some(n.value))
  }

  /** `ChatActivityDetail.from_dict` */
  function DetailFrom(entries: seq<(string, Json)>): Result<Detail, DecodeError> {
    if !OnlyKeys(entries, DETAIL_FIELDS) then Err(UnexpectedField)
    else
      var kind := Get(entries, "kind");
      var current, total := CountFrom(Get(entries, "current")), OptionalCount(Get(entries, "total"));
      if !kind.JString? then Err(BadType)
      else if current.Err? then Err(current.error)
      else if total.Err? then Err(total.error)
      else if KindNamed(kind.s).None? then Err(BadValue)
      else
        var d := Detail(KindNamed(kind.s).value, current.value, total.value);
        if DetailOk(d) then Ok(d) else Err(BadValue)
  }

  lemma DetailParts(d: Detail)
    ensures OnlyKeys(DetailEntries(d), DETAIL_FIELDS)
    ensures Get(DetailEntries(d), "kind") == JString(KindName(d.kind))
    ensures Get(DetailEntries(d), "current") == JNumber(d.current)
    ensures Get(DetailEntries(d), "total") == if d.total.Some? then JNumber(d.total.value) else JNull
  {
    RecordKeys(DETAIL_FIELDS, DetailField(d));
    assert DETAIL_FIELDS[0] == "kind" && DETAIL_FIELDS[1] == "current" && DETAIL_FIELDS[2] == "total";
    RecordLookup(DETAIL_FIELDS, DetailField(d), "kind");
    RecordLookup(DETAIL_FIELDS, DetailField(d), "current");
    RecordLookup(DETAIL_FIELDS, DetailField(d), "total");
  }

  lemma DetailRoundTrip(d: Detail)
    ensures DetailFrom(DetailEntries(d)) == Ok(d) <==> DetailOk(d)
  {
    DetailParts(d);
    KindNamesInvert(d.kind);
  }

  // ---- activities ----

  const ACTIVITY_FIELDS: seq<string> := ["code", "status", "outcome", "detail", "started_at", "completed_at"]

  function OptionalIso(py: Python, d: Option<Datetime>): Json {
    if d.Some? then JString(py.isoformat(d.value)) else JNull
  }

  function ActivityField(py: Python, a: Activity): string -> Json {
    (name: string) =>
      if name == "code" then JString(CodeName(a.code))
      else if name == "status" then JString(StatusName(a.status))
      else if name == "outcome" then (if a.outcome.Some? then JString(OutcomeName(a.outcome.value)) else JNull)
      else if name == "detail" then (if a.detail.Some? then JObject(DetailEntries(a.detail.value)) else JNull)
      else if name == "started_at" then OptionalIso(py, a.startedAt)
      else OptionalIso(py, a.completedAt)
  }

  /** `to_dict` */
  function ActivityEntries(py: Python, a: Activity): seq<(string, Json)> {
    Record(ACTIVITY_FIELDS, ActivityField(py, a))
  }

  function OptionalOutcome(j: Json): Result<Option<ActivityOutcome>, DecodeError> {
    if j.JNull? then Ok(None)
    else
      var o := EnumFrom(j, OutcomeNamed);
      if o.Err? then Err(o.error) else Ok(Some(o.value))
  }

  function OptionalDetail(j: Json): Result<Option<Detail>, DecodeError> {
    match j
    case JNull => Ok(None)
    case JObject(entries) =>
      var d := DetailFrom(entries);
      if d.Err? then Err(d.error) else Ok(Some(d.value))
    case _ => Err(BadType)
  }

  function OptionalDatetime(py: Python, j: Json): Result<Option<Datetime>, DecodeError> {
    match j
    case JNull => Ok(None)
    case JString(s) => if py.fromisoformat(s).Some? then Ok(py.fromisoformat(s)) else Err(BadValue)
    case _ => Err(BadType)
  }

  /** `ChatActivity.from_dict` */
  function ActivityFrom(py: Python, entries: seq<(string, Json)>): Result<Activity, DecodeError> {
    if !OnlyKeys(entries, ACTIVITY_FIELDS) then Err(UnexpectedField)
    else
      var code, status := EnumFrom(Get(entries, "code"), CodeNamed), EnumFrom(Get(entries, "status"), StatusNamed);
      var outcome, detail := OptionalOutcome(Get(entries, "outcome")), OptionalDetail(Get(entries, "detail"));
      var started := OptionalDatetime(py, Get(entries, "started_at"));
      var completed := OptionalDatetime(py, Get(entries, "completed_at"));
      if code.Err? then Err(code.error)
      else if status.Err? then Err(status.error)
      else if outcome.Err? then Err(outcome.error)
      else if detail.Err? then Err(detail.error)
      else if started.Err? then Err(started.error)
      else if completed.Err? then Err(completed.error)
      else
        var a := Activity(code.value, status.value, outcome.value, detail.value, started.value, completed.value);
        if Objection(a).None? then Ok(a) else Err(BadValue)
  }

  lemma ActivityGet(py: Python, a: Activity, name: string)
    requires name in ACTIVITY_FIELDS
    ensures Get(ActivityEntries(py, a), name) == ActivityField(py, a)(name)
  {
    RecordLookup(ACTIVITY_FIELDS, ActivityField(py, a), name);
  }

  lemma ActivityEnums(py: Python, a: Activity)
    ensures EnumFrom(Get(ActivityEntries(py, a), "code"), CodeNamed) == Ok(a.code)
    ensures EnumFrom(Get(ActivityEntries(py, a), "status"), StatusNamed) == Ok(a.status)
    ensures OptionalOutcome(Get(ActivityEntries(py, a), "outcome")) == Ok(a.outcome)
  {
    assert ACTIVITY_FIELDS[0] == "code" && ACTIVITY_FIELDS[1] == "status" && ACTIVITY_FIELDS[2] == "outcome";
    ActivityGet(py, a, "code");
    ActivityGet(py, a, "status");
    ActivityGet(py, a, "outcome");
    CodeNamesInvert(a.code);
    StatusNamesInvert(a.status);
    if a.outcome.Some? {
      OutcomeNamesInvert(a.outcome.value);
    }
  }

  lemma ActivityTimes(py: Python, a: Activity)
    requires Sound(py)
    ensures OptionalDatetime(py, Get(ActivityEntries(py, a), "started_at")) == Ok(a.startedAt)
    ensures OptionalDatetime(py, Get(ActivityEntries(py, a), "completed_at")) == Ok(a.completedAt)
  {
    assert ACTIVITY_FIELDS[4] == "started_at" && ACTIVITY_FIELDS[5] == "completed_at";
    ActivityGet(py, a, "started_at");
    ActivityGet(py, a, "completed_at");
  }

  lemma ActivityDetail(py: Python, a: Activity)
    ensures OptionalDetail(Get(ActivityEntries(py, a), "detail")) == Ok(a.detail)
            <==> (a.detail.Some? ==> DetailOk(a.detail.value))
  {
    assert ACTIVITY_FIELDS[3] == "detail";
    ActivityGet(py, a, "detail");
    if a.detail.Some? {
      DetailRoundTrip(a.detail.value);
    }
  }

  /** The constructors of the activity and of its detail have no objection. */
  predicate ActivityOk(a: Activity) {
    Objection(a).None? && (a.detail.Some? ==> DetailOk(a.detail.value))
  }

  /** An activity survives its own wire form exactly when it could be constructed. */
  lemma ActivityRoundTrip(py: Python, a: Activity)
    requires Sound(py)
    ensures ActivityFrom(py, ActivityEntries(py, a)) == Ok(a) <==> ActivityOk(a)
  {
    RecordKeys(ACTIVITY_FIELDS, ActivityField(py, a));
    ActivityEnums(py, a);
    ActivityTimes(py, a);
    ActivityDetail(py, a);
  }

  lemma ActivityDecodesValid(py: Python, entries: seq<(string, Json)>)
    ensures ActivityFrom(py, entries).Ok? ==> ActivityOk(ActivityFrom(py, entries).value)
  {
  }
}
