/** The lifecycle of user-facing chat activities and of the ordered snapshot that holds them. */
module ChatActivities {
  import opened Wrappers

  datatype Code =
    | UnderstandingRequest | SearchingRelevantInformation | ReviewingContext | PreparingResponse
    | PreparingActionPlan | CheckingMail | ProcessingEmail | PreparingMailResults

  datatype Status = Pending | Running | Completed | Failed | Cancelled | Skipped

  datatype ActivityOutcome = Success | NoResults | Partial | Degraded

  datatype DetailKind = DocumentsFound | EmailsProcessed | ActionItemsPrepared

  datatype Detail = Detail(kind: DetailKind, current: int, total: Option<int>)

  const MAX_CHAT_ACTIVITY_COUNT := 100000

  /** `_count` accepts the number. */
  predicate Countable(n: int) {
    0 <= n <= MAX_CHAT_ACTIVITY_COUNT
  }

  /** `ChatActivityDetail.__post_init__` has no objection. */
  predicate DetailOk(d: Detail) {
    Countable(d.current) && (d.total.Some? ==> Countable(d.total.value) && d.current <= d.total.value)
  }

  /** A datetime as comparison sees it: an instant, and whether it carries a UTC offset. */
  datatype Datetime = Datetime(instant: int, aware: bool)

  datatype Activity = Activity(
    code: Code,
    status: Status,
    outcome: Option<ActivityOutcome>,
    detail: Option<Detail>,
    startedAt: Option<Datetime>,
    completedAt: Option<Datetime>)

  datatype ActivityError =
    | NaiveDatetime | CompletedWithoutStart | CompletedBeforeStart | PendingNotBare | RunningCompleted
    | TerminalNotCompleted | MisplacedOutcome | InvalidTransition
    | TooManyActivities | DuplicateCode | AbsentCode

  const MAX_CHAT_ACTIVITIES := 8

  predicate Terminal(s: Status) {
    s == Completed || s == Failed || s == Cancelled || s == Skipped
  }

  predicate Naive(at: Option<Datetime>) {
    at.Some? && !at.value.aware
  }

  /** The first objection `__post_init__` raises, in its order. */
  function Objection(a: Activity): Option<ActivityError> {
    if Naive(a.startedAt) || Naive(a.completedAt) then Some(NaiveDatetime)
    else if a.completedAt.Some? && a.startedAt.None? then Some(CompletedWithoutStart)
    else if a.startedAt.Some? && a.completedAt.Some? && a.completedAt.value.instant < a.startedAt.value.instant
    then Some(CompletedBeforeStart)
    else if a.status == Pending && (a.startedAt.Some? || a.completedAt.Some? || a.outcome.Some?) then Some(PendingNotBare)
    else if a.status == Running && a.completedAt.Some? then Some(RunningCompleted)
    else if Terminal(a.status) && a.completedAt.None? then Some(TerminalNotCompleted)
    else if a.outcome.Some? && a.status != Completed then Some(MisplacedOutcome)
    else None
  }

  function PendingActivity(code: Code): Activity {
    Activity(code, Pending, None, None, None, None)
  }

  predicate Allowed(from: Status, to: Status) {
    match from
    case Pending => to == Running || to == Skipped || to == Cancelled
    case Running => to == Completed || to == Failed || to == Cancelled
    case _ => false
  }

  datatype Request = Request(
    code: Code,
    status: Status,
    at: Datetime,
    outcome: Option<ActivityOutcome>,
    detail: Option<Detail>)

  function Transition(a: Activity, r: Request): Result<Activity, ActivityError> {
    if !r.at.aware then Err(NaiveDatetime)
    else if !Allowed(a.status, r.status) then Err(InvalidTransition)
    else
      var next := a.(
        status := r.status,
        outcome := r.outcome,
        detail := if r.detail.None? then a.detail else r.detail,
        startedAt := if a.startedAt.None? then Some(r.at) else a.startedAt,
        completedAt := if Terminal(r.status) then Some(r.at) else None);
      var objection := Objection(next);
      if objection.Some? then Err(objection.value) else Ok(next)
  }

  /** What each status admits. */
  predicate Lawful(a: Activity) {
    && (a.startedAt.Some? ==> a.startedAt.value.aware) && (a.completedAt.Some? ==> a.completedAt.value.aware)
    && (a.outcome.Some? ==> a.status == Completed)
    && (a.status == Pending ==> a.startedAt == None && a.completedAt == None)
    && (a.status == Running ==> a.completedAt == None)
    && (a.status in {Completed, Failed, Cancelled, Skipped} ==>
          a.startedAt.Some? && a.completedAt.Some? && a.startedAt.value.instant <= a.completedAt.value.instant)
  }

  lemma ValidIff(a: Activity)
    ensures Objection(a).None? <==> Lawful(a)
  {
  }

  const TRANSITIONS := {
    (Pending, Running), (Pending, Skipped), (Pending, Cancelled), (Running, Completed), (Running, Failed), (Running, Cancelled)}

  /** The request would finish the activity before it started. */
  predicate EndsEarly(a: Activity, r: Request) {
    r.status != Running && a.startedAt.Some? && r.at.instant < a.startedAt.value.instant
  }

  /** What a transition of a valid activity comes to: the activity as requested, or the first thing wrong with the request. */
  lemma TransitionOutcome(a: Activity, r: Request)
    requires Lawful(a)
    ensures var t := Transition(a, r);
            if !r.at.aware then t == Err(NaiveDatetime)
            else if (a.status, r.status) !in TRANSITIONS then t == Err(InvalidTransition)
            else if EndsEarly(a, r) then t == Err(CompletedBeforeStart)
            else if r.outcome.Some? && r.status != Completed then t == Err(MisplacedOutcome)
            else
              && t.Ok? && Lawful(t.value)
              && t.value.code == a.code && t.value.status == r.status && t.value.outcome == r.outcome
              && t.value.detail == (if r.detail == None then a.detail else r.detail)
              && t.value.startedAt == (if a.startedAt == None then Some(r.at) else a.startedAt)
              && t.value.completedAt == if r.status == Running then None else Some(r.at)
  {
  }

  /** Exactly when a transition of a valid activity is accepted. */
  lemma TransitionAcceptedIff(a: Activity, r: Request)
    requires Objection(a).None?
    ensures Transition(a, r).Ok? <==>
            && r.at.aware
            && Allowed(a.status, r.status)
            && (r.outcome.Some? ==> r.status == Completed)
            && (Terminal(r.status) && a.startedAt.Some? ==> a.startedAt.value.instant <= r.at.instant)
  {
  }

  predicate UniqueCodes(snapshot: seq<Activity>) {
    forall i, j | 0 <= i < j < |snapshot| :: snapshot[i].code != snapshot[j].code
  }

  function SnapshotObjection(snapshot: seq<Activity>): Option<ActivityError> {
    if |snapshot| > MAX_CHAT_ACTIVITIES then Some(TooManyActivities)
    else if !UniqueCodes(snapshot) then Some(DuplicateCode)
    else None
  }

  function IndexOfCode(snapshot: seq<Activity>, code: Code): Option<nat> {
    if snapshot == [] then None
    else if snapshot[0].code == code then Some(0)
    else
      var rest := IndexOfCode(snapshot[1..], code);
      if rest.Some? then Some(rest.value + 1) else None
  }

  lemma {:induction false} IndexOfCodeIsFirst(snapshot: seq<Activity>, code: Code)
    ensures IndexOfCode(snapshot, code).None? <==> forall i | 0 <= i < |snapshot| :: snapshot[i].code != code
    ensures IndexOfCode(snapshot, code).Some? ==>
              var k := IndexOfCode(snapshot, code).value;
              k < |snapshot| && snapshot[k].code == code && forall i | 0 <= i < k :: snapshot[i].code != code
  {
    if snapshot != [] && snapshot[0].code != code {
      IndexOfCodeIsFirst(snapshot[1..], code);
    }
  }

  function TransitionSnapshot(snapshot: seq<Activity>, r: Request): Result<seq<Activity>, ActivityError> {
    if SnapshotObjection(snapshot).Some? then Err(SnapshotObjection(snapshot).value)
    else
      var k := IndexOfCode(snapshot, r.code);
      IndexOfCodeIsFirst(snapshot, r.code);
      if k.None? then Err(AbsentCode)
      else
        var moved := Transition(snapshot[k.value], r);
        if moved.Err? then Err(moved.error)
        else Ok(snapshot[..k.value] + [moved.value] + snapshot[k.value + 1..])
  }

  // ---- one step of a snapshot ----

  ghost predicate Valid(snapshot: seq<Activity>) {
    SnapshotObjection(snapshot).None? && forall i | 0 <= i < |snapshot| :: Objection(snapshot[i]).None?
  }

  /** What one accepted transition does at its index and nowhere else. */
  ghost predicate OneStep(before: seq<Activity>, after: seq<Activity>, k: nat) {
    && k < |before| == |after|
    && (forall i | 0 <= i < |before| && i != k :: after[i] == before[i])
    && after[k].code == before[k].code
    && Allowed(before[k].status, after[k].status)
    && (before[k].startedAt.Some? ==> after[k].startedAt == before[k].startedAt)
    && after[k].startedAt.Some?
  }

  lemma StepChangesOneIndex(snapshot: seq<Activity>, r: Request) returns (k: nat)
    requires Valid(snapshot) && TransitionSnapshot(snapshot, r).Ok?
    ensures OneStep(snapshot, TransitionSnapshot(snapshot, r).value, k)
    ensures TransitionSnapshot(snapshot, r).value[k].status == r.status && snapshot[k].code == r.code
    ensures var moved := TransitionSnapshot(snapshot, r).value[k];
            && moved.startedAt == (if snapshot[k].startedAt.None? then Some(r.at) else snapshot[k].startedAt)
            && moved.completedAt == (if Terminal(r.status) then Some(r.at) else None)
            && moved.outcome == r.outcome
            && moved.detail == if r.detail.Some? then r.detail else snapshot[k].detail
    ensures Valid(TransitionSnapshot(snapshot, r).value)
  {
    IndexOfCodeIsFirst(snapshot, r.code);
    k := IndexOfCode(snapshot, r.code).value;
    var after := TransitionSnapshot(snapshot, r).value;
    forall i, j | 0 <= i < j < |after| ensures after[i].code != after[j].code {
      assert snapshot[i].code != snapshot[j].code;
    }
  }

  /** A request to a valid snapshot: refused when no activity has its code, and otherwise decided by that activity alone. */
  lemma SnapshotOutcome(snapshot: seq<Activity>, r: Request)
    requires Valid(snapshot)
    ensures (forall i | 0 <= i < |snapshot| :: snapshot[i].code != r.code) ==> TransitionSnapshot(snapshot, r) == Err(AbsentCode)
    ensures forall k | 0 <= k < |snapshot| && snapshot[k].code == r.code ::
              var moved := Transition(snapshot[k], r);
              TransitionSnapshot(snapshot, r) == if moved.Ok? then Ok(snapshot[k := moved.value]) else Err(moved.error)
  {
    IndexOfCodeIsFirst(snapshot, r.code);
    forall k | 0 <= k < |snapshot| && snapshot[k].code == r.code
      ensures var moved := Transition(snapshot[k], r);
              TransitionSnapshot(snapshot, r) == if moved.Ok? then Ok(snapshot[k := moved.value]) else Err(moved.error)
    {
      OnlyIndexOfCode(snapshot, r.code, k);
      var moved := Transition(snapshot[k], r);
      assert moved.Ok? ==> snapshot[..k] + [moved.value] + snapshot[k + 1..] == snapshot[k := moved.value];
    }
  }

  // ---- whole runs ----

  function RunAll(snapshot: seq<Activity>, requests: seq<Request>): Result<seq<Activity>, ActivityError>
    decreases |requests|
  {
    if requests == [] then Ok(snapshot)
    else
      var next := TransitionSnapshot(snapshot, requests[0]);
      if next.Err? then next else RunAll(next.value, requests[1..])
  }

  /** The changes a run may make to one activity. */
  ghost predicate Evolves(before: Activity, after: Activity) {
    && after.code == before.code
    && (before.startedAt.Some? ==> after.startedAt == before.startedAt)
    && (Terminal(before.status) ==> after == before)
  }

  /** Every accepted run keeps validity, order, codes, set start times, and finished activities. */
  lemma {:induction false} RunsEvolve(snapshot: seq<Activity>, requests: seq<Request>)
    requires Valid(snapshot) && RunAll(snapshot, requests).Ok?
    ensures var final := RunAll(snapshot, requests).value;
            Valid(final) && |final| == |snapshot| && forall i | 0 <= i < |snapshot| :: Evolves(snapshot[i], final[i])
    decreases |requests|
  {
    if requests != [] {
      var next := TransitionSnapshot(snapshot, requests[0]).value;
      var k := StepChangesOneIndex(snapshot, requests[0]);
      RunsEvolve(next, requests[1..]);
      forall i | 0 <= i < |snapshot| ensures Evolves(snapshot[i], RunAll(snapshot, requests).value[i]) {
        assert Evolves(next[i], RunAll(next, requests[1..]).value[i]);
      }
    }
  }

  /** Steps an activity can still take. */
  function Remaining(a: Activity): nat {
    if a.status == Pending then 2 else if a.status == Running then 1 else 0
  }

  function TotalRemaining(snapshot: seq<Activity>): nat {
    if snapshot == [] then 0 else Remaining(snapshot[0]) + TotalRemaining(snapshot[1..])
  }

  lemma {:induction false} StepUsesRemaining(before: seq<Activity>, after: seq<Activity>, k: nat)
    requires OneStep(before, after, k)
    ensures TotalRemaining(after) < TotalRemaining(before)
    decreases k
  {
    if k == 0 {
      assert before[1..] == after[1..];
    } else {
      StepUsesRemaining(before[1..], after[1..], k - 1);
    }
  }

  lemma {:induction false} RunLengthBounded(snapshot: seq<Activity>, requests: seq<Request>)
    requires Valid(snapshot) && RunAll(snapshot, requests).Ok?
    ensures |requests| <= TotalRemaining(snapshot)
    decreases |requests|
  {
    if requests != [] {
      var k := StepChangesOneIndex(snapshot, requests[0]);
      var next := TransitionSnapshot(snapshot, requests[0]).value;
      StepUsesRemaining(snapshot, next, k);
      RunLengthBounded(next, requests[1..]);
    }
  }

  lemma {:induction false} RemainingAtMostTwice(snapshot: seq<Activity>)
    ensures TotalRemaining(snapshot) <= 2 * |snapshot|
  {
    if snapshot != [] {
      RemainingAtMostTwice(snapshot[1..]);
    }
  }

  /** No accepted run over n activities has more than 2n steps. */
  lemma {:induction false} RunsAreShort(snapshot: seq<Activity>, requests: seq<Request>)
    requires Valid(snapshot) && RunAll(snapshot, requests).Ok?
    ensures |requests| <= 2 * |snapshot|
  {
    RunLengthBounded(snapshot, requests);
    RemainingAtMostTwice(snapshot);
  }

  // ---- runs that respect the clock are never rejected ----

  /** The run is permitted by statuses alone, whatever the timestamps. */
  ghost predicate Permitted(snapshot: seq<Activity>, requests: seq<Request>)
    decreases |requests|
  {
    requests == []
    || exists k | 0 <= k < |snapshot| ::
         && snapshot[k].code == requests[0].code
         && Allowed(snapshot[k].status, requests[0].status)
         && Permitted(snapshot[k := snapshot[k].(status := requests[0].status)], requests[1..])
  }

  ghost predicate Clocked(requests: seq<Request>, since: int)
    decreases |requests|
  {
    requests == []
    || (requests[0].at.aware && since <= requests[0].at.instant && Clocked(requests[1..], requests[0].at.instant))
  }

  ghost predicate OutcomeOnlyOnCompletion(requests: seq<Request>) {
    forall i | 0 <= i < |requests| :: requests[i].outcome.Some? ==> requests[i].status == Completed
  }

  ghost predicate StartedBy(snapshot: seq<Activity>, now: int) {
    forall i | 0 <= i < |snapshot| && snapshot[i].startedAt.Some? :: snapshot[i].startedAt.value.instant <= now
  }

  ghost predicate SameStatuses(a: seq<Activity>, b: seq<Activity>) {
    |a| == |b| && forall i | 0 <= i < |a| :: a[i].code == b[i].code && a[i].status == b[i].status
  }

  lemma {:induction false} PermittedBySharedStatuses(a: seq<Activity>, b: seq<Activity>, requests: seq<Request>)
    requires SameStatuses(a, b) && Permitted(a, requests)
    ensures Permitted(b, requests)
    decreases |requests|
  {
    if requests != [] {
      var k :| 0 <= k < |a| && a[k].code == requests[0].code && Allowed(a[k].status, requests[0].status)
               && Permitted(a[k := a[k].(status := requests[0].status)], requests[1..]);
      PermittedBySharedStatuses(a[k := a[k].(status := requests[0].status)],
                                b[k := b[k].(status := requests[0].status)], requests[1..]);
    }
  }

  lemma OutcomeOnlyTail(requests: seq<Request>)
    requires requests != [] && OutcomeOnlyOnCompletion(requests)
    ensures OutcomeOnlyOnCompletion(requests[1..])
  {
    assert forall i | 0 <= i < |requests[1..]| :: requests[1..][i] == requests[i + 1];
  }

  /** The first step of such a run is accepted and leaves the rest of the run as respectful as before. */
  lemma PermittedStep(snapshot: seq<Activity>, requests: seq<Request>, now: int) returns (next: seq<Activity>)
    requires requests != [] && Valid(snapshot) && StartedBy(snapshot, now)
    requires Permitted(snapshot, requests) && Clocked(requests, now) && OutcomeOnlyOnCompletion(requests)
    ensures TransitionSnapshot(snapshot, requests[0]) == Ok(next)
    ensures Valid(next) && StartedBy(next, requests[0].at.instant) && Permitted(next, requests[1..])
  {
    var r := requests[0];
    var k :| 0 <= k < |snapshot| && snapshot[k].code == r.code && Allowed(snapshot[k].status, r.status)
             && Permitted(snapshot[k := snapshot[k].(status := r.status)], requests[1..]);
    OnlyIndexOfCode(snapshot, r.code, k);
    TransitionAcceptedIff(snapshot[k], r);
    next := TransitionSnapshot(snapshot, r).value;
    var j := StepChangesOneIndex(snapshot, r);
    PermittedBySharedStatuses(snapshot[k := snapshot[k].(status := r.status)], next, requests[1..]);
  }

  lemma OnlyIndexOfCode(snapshot: seq<Activity>, code: Code, k: nat)
    requires Valid(snapshot) && k < |snapshot| && snapshot[k].code == code
    ensures IndexOfCode(snapshot, code) == Some(k)
  {
    IndexOfCodeIsFirst(snapshot, code);
    var j := IndexOfCode(snapshot, code).value;
    assert snapshot[j].code == snapshot[k].code;
  }

  /** Timestamps that never go back, from a clock at or after every start, cannot get a permitted run rejected. */
  lemma {:induction false} PermittedRunAccepted(snapshot: seq<Activity>, requests: seq<Request>, now: int)
    requires Valid(snapshot) && StartedBy(snapshot, now)
    requires Permitted(snapshot, requests) && Clocked(requests, now) && OutcomeOnlyOnCompletion(requests)
    ensures RunAll(snapshot, requests).Ok?
    decreases |requests|
  {
    if requests != [] {
      var next := PermittedStep(snapshot, requests, now);
      OutcomeOnlyTail(requests);
      PermittedRunAccepted(next, requests[1..], requests[0].at.instant);
    }
  }

  function FreshSnapshot(codes: seq<Code>): seq<Activity> {
    seq(|codes|, i requires 0 <= i < |codes| => PendingActivity(codes[i]))
  }

  /** The lifecycle from its start: every permitted, clocked run over fresh activities is accepted, valid and short. */
  lemma FreshRuns(codes: seq<Code>, requests: seq<Request>, now: int)
    requires |codes| <= MAX_CHAT_ACTIVITIES && forall i, j | 0 <= i < j < |codes| :: codes[i] != codes[j]
    requires Permitted(FreshSnapshot(codes), requests) && Clocked(requests, now) && OutcomeOnlyOnCompletion(requests)
    ensures var run := RunAll(FreshSnapshot(codes), requests);
            && run.Ok? && Valid(run.value) && |run.value| == |codes|
            && (forall i | 0 <= i < |codes| :: run.value[i].code == codes[i])
            && |requests| <= 2 * |codes|
  {
    var start := FreshSnapshot(codes);
    PermittedRunAccepted(start, requests, now);
    RunsEvolve(start, requests);
    RunsAreShort(start, requests);
    forall i | 0 <= i < |codes| ensures RunAll(start, requests).value[i].code == codes[i] {
      assert Evolves(start[i], RunAll(start, requests).value[i]);
    }
  }
}
