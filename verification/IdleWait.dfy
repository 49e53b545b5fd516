/** Waiting for an evaluation job to finish, bounded by how long it may stand still. */
module IdleWait {
  import opened Wrappers
  import opened Ordering

  datatype JobState =
    | Accepted | Validating | Queued | Running | Collecting | Succeeded | PartiallySucceeded | Failed
    | CancellationRequested | Cancelled

  predicate Terminal(state: JobState) {
    state in {Succeeded, PartiallySucceeded, Failed, Cancelled}
  }

  /** A unit's id and the value of its state. */
  type UnitRow = (string, string)

  datatype Job = Job(state: JobState, updatedAt: int)

  /** What one poll finds; the job may be gone. */
  datatype Poll = Gone | Found(job: Job, units: seq<UnitRow>)

  /** Everything the wait observes: its i-th poll, and the clock as read once before the first poll and once in each. */
  datatype Trace = Trace(poll: nat -> Poll, clock: nat -> real)

  datatype Outcome = Returned(job: Job) | Disappeared | NoProgress(state: JobState)

  datatype Snapshot = Snapshot(job: Job, units: seq<UnitRow>)

  // ---- order of the unit rows ----

  predicate RowLe(a: UnitRow, b: UnitRow) {
    if a.0 == b.0 then StringLe(a.1, b.1) else StringLe(a.0, b.0)
  }

  lemma RowLeTotalOrder()
    ensures TotalOrder(RowLe)
  {
    StringLeTotalOrder();
    forall a: UnitRow, b: UnitRow, c: UnitRow | RowLe(a, b) && RowLe(b, c) ensures RowLe(a, c) {
      assert StringLe(a.0, b.0) && StringLe(b.0, c.0);
      assert StringLe(a.0, c.0);
      if a.0 == c.0 {
        assert StringLe(b.0, a.0) && a.0 == b.0;
      }
    }
  }

  function SnapshotOf(poll: Poll): Option<Snapshot> {
    if poll.Gone? then None else Some(Snapshot(poll.job, Sort(RowLe, poll.units)))
  }

  ghost predicate SameUpToUnitOrder(a: Poll, b: Poll) {
    match (a, b)
    case (Gone, Gone) => true
    case (Found(j, us), Found(k, vs)) => j == k && multiset(us) == multiset(vs)
    case _ => false
  }

  /** Two polls show the same progress exactly when job and unit rows agree, in whatever order the rows came. */
  lemma SameSnapshotIff(a: Poll, b: Poll)
    ensures SnapshotOf(a) == SnapshotOf(b) <==> SameUpToUnitOrder(a, b)
  {
    if a.Found? && b.Found? {
      RowLeTotalOrder();
      SortEqualIffPermutation(RowLe, a.units, b.units);
    }
  }

  // ---- standing still, for any kind of progress ----

  predicate Changes<K(==)>(progress: nat -> K, i: nat) {
    i == 0 || progress(i) != progress(i - 1)
  }

  /** The latest poll, up to the i-th, that showed something new. */
  function LastChange<K(==)>(progress: nat -> K, i: nat): (c: nat)
    ensures c <= i && Changes(progress, c)
    ensures forall j | c < j <= i :: !Changes(progress, j)
  {
    if Changes(progress, i) then i else LastChange(progress, i - 1)
  }

  /** At the i-th poll nothing has moved for longer than the timeout. */
  predicate Stalled<K(==)>(progress: nat -> K, clock: nat -> real, timeout: real, i: nat) {
    !Changes(progress, i) && clock(i + 1) - clock(LastChange(progress, i) + 1) > timeout
  }

  lemma {:induction false} UnchangedSince<K>(progress: nat -> K, i: nat, c: nat)
    requires c <= i && forall j | c < j <= i :: !Changes(progress, j)
    ensures forall j | c <= j <= i :: progress(j) == progress(i)
  {
    if c < i {
      UnchangedSince(progress, i - 1, c);
      assert !Changes(progress, i);
    }
  }

  lemma StallBegan<K>(progress: nat -> K, clock: nat -> real, timeout: real, i: nat) returns (since: nat)
    requires Stalled(progress, clock, timeout, i)
    ensures since < i && clock(i + 1) - clock(since + 1) > timeout
    ensures forall j | since <= j <= i :: progress(j) == progress(i)
  {
    since := LastChange(progress, i);
    UnchangedSince(progress, i, since);
  }

  lemma {:induction false} SameChanges<K>(a: nat -> K, b: nat -> K, i: nat)
    requires forall j: nat :: a(j) == b(j)
    ensures Changes(a, i) == Changes(b, i)
    ensures LastChange(a, i) == LastChange(b, i)
  {
    if i > 0 {
      SameChanges(a, b, i - 1);
    }
  }

  lemma SameStalls<K>(a: nat -> K, b: nat -> K, clock: nat -> real, timeout: real, i: nat)
    requires forall j: nat :: a(j) == b(j)
    ensures Stalled(a, clock, timeout, i) == Stalled(b, clock, timeout, i)
  {
    SameChanges(a, b, i);
  }

  function ChangesBefore<K(==)>(progress: nat -> K, n: nat): nat {
    if n == 0 then 0 else ChangesBefore(progress, n - 1) + if Changes(progress, n - 1) then 1 else 0
  }

  lemma {:induction false} ChangesBetween<K>(progress: nat -> K, a: nat, b: nat)
    requires a <= b
    ensures ChangesBefore(progress, a) <= ChangesBefore(progress, b)
    ensures (forall j: nat | a <= j < b :: !Changes(progress, j)) ==> ChangesBefore(progress, b) == ChangesBefore(progress, a)
    decreases b - a
  {
    if a < b {
      ChangesBetween(progress, a, b - 1);
    }
  }

  lemma ChangesBounded<K>(progress: nat -> K, settled: nat, n: nat)
    requires forall i: nat | i >= settled :: !Changes(progress, i)
    ensures ChangesBefore(progress, n) <= ChangesBefore(progress, settled)
  {
    if n <= settled {
      ChangesBetween(progress, n, settled);
    } else {
      ChangesBetween(progress, settled, n);
    }
  }

  // ---- how long standing still can last ----

  /**
   Between the clock readings of any two polls at least the poll interval passes. Reading 0 precedes the first
   poll without a pause, so nothing is assumed of it.
   */
  ghost predicate Ticks(clock: nat -> real, interval: real) {
    interval > 0.0 && forall i: nat, j: nat | 1 <= i < j :: clock(j) - clock(i) >= interval
  }

  /** This many polls at the given interval outlast the timeout. */
  function IdleBudget(timeout: real, interval: real): nat
    requires interval > 0.0
  {
    if timeout < 0.0 then 1 else (timeout / interval).Floor + 1
  }

  lemma BudgetOutlastsTimeout(timeout: real, interval: real)
    requires interval > 0.0
    ensures IdleBudget(timeout, interval) as real * interval > timeout
  {
    if timeout >= 0.0 {
      var q := timeout / interval;
      assert q * interval == timeout;
      ScaleStrictly(q, (q.Floor + 1) as real, interval);
    }
  }

  lemma ScaleStrictly(a: real, b: real, factor: real)
    requires a < b && factor > 0.0
    ensures a * factor < b * factor
  {
  }

  lemma ScaleWeakly(a: nat, b: nat, factor: real)
    requires a <= b && factor > 0.0
    ensures a as real * factor <= b as real * factor
  {
  }

  lemma {:induction false} ClockAdvances(clock: nat -> real, interval: real, a: nat, polls: nat)
    requires Ticks(clock, interval) && 1 <= a
    ensures clock(a + polls) - clock(a) >= polls as real * interval
    decreases polls
  {
    if polls > 0 {
      ClockAdvances(clock, interval, a, polls - 1);
      assert clock(a + polls) - clock(a + polls - 1) >= interval;
      OneMore(polls, interval);
    }
  }

  lemma OneMore(polls: nat, interval: real)
    requires polls > 0
    ensures polls as real * interval == (polls - 1) as real * interval + interval
  {
  }

  /** A poll that is not stalled is less than a budget away from the last change. */
  lemma WithinBudget<K>(progress: nat -> K, clock: nat -> real, timeout: real, interval: real, i: nat)
    requires Ticks(clock, interval) && !Stalled(progress, clock, timeout, i)
    ensures i - LastChange(progress, i) < IdleBudget(timeout, interval)
  {
    var c := LastChange(progress, i);
    var polls: nat := i - c;
    if polls > 0 {
      ClockAdvances(clock, interval, c + 1, polls);
      assert clock(c + 1 + polls) - clock(c + 1) <= timeout;
      BudgetCovers(polls, timeout, interval);
    }
  }

  lemma BudgetCovers(polls: nat, timeout: real, interval: real)
    requires interval > 0.0 && polls as real * interval <= timeout
    ensures polls < IdleBudget(timeout, interval)
  {
    var budget := IdleBudget(timeout, interval);
    BudgetOutlastsTimeout(timeout, interval);
    if polls >= budget {
      ScaleWeakly(budget, polls, interval);
      assert false;
    }
  }

  /** However many polls have passed without a stall, they number at most the changes seen times the idle budget. */
  lemma {:induction false} PollsBoundedByChanges<K>(progress: nat -> K, clock: nat -> real, timeout: real, interval: real, n: nat)
    requires Ticks(clock, interval) && forall i: nat | i < n :: !Stalled(progress, clock, timeout, i)
    ensures n <= ChangesBefore(progress, n) * IdleBudget(timeout, interval)
  {
    if n > 0 {
      var c, budget := LastChange(progress, n - 1), IdleBudget(timeout, interval);
      PollsBoundedByChanges(progress, clock, timeout, interval, c);
      WithinBudget(progress, clock, timeout, interval, n - 1);
      ChangesBetween(progress, c + 1, n);
      assert ChangesBefore(progress, n) == ChangesBefore(progress, c) + 1;
      Distribute(ChangesBefore(progress, c), budget);
    }
  }

  lemma Distribute(a: nat, b: nat)
    ensures (a + 1) * b == a * b + b
  {
  }

  // ---- what each poll decides ----

  function Progress(tr: Trace): nat -> Option<Snapshot> {
    (i: nat) => SnapshotOf(tr.poll(i))
  }

  function Verdict(tr: Trace, timeout: real, i: nat): Option<Outcome> {
    match tr.poll(i)
    case Gone => Some(Disappeared)
    case Found(job, _) =>
      if Terminal(job.state) then Some(Returned(job))
      else if Stalled(Progress(tr), tr.clock, timeout, i) then Some(NoProgress(job.state))
      else None
  }

  ghost predicate Undecided(tr: Trace, timeout: real, n: nat) {
    forall i: nat | i < n :: Verdict(tr, timeout, i).None?
  }

  lemma ProgressShowsJobAndUnits(tr: Trace, i: nat, j: nat)
    ensures Progress(tr)(i) == Progress(tr)(j) <==> SameUpToUnitOrder(tr.poll(i), tr.poll(j))
  {
    SameSnapshotIff(tr.poll(i), tr.poll(j));
  }

  /** The polls from `since` to i all found the job alive, with the same state, timestamp and unit rows. */
  ghost predicate StoodStill(tr: Trace, since: nat, i: nat) {
    forall j | since <= j <= i ::
      SameUpToUnitOrder(tr.poll(j), tr.poll(i)) && tr.poll(j).Found? && !Terminal(tr.poll(j).job.state)
  }

  lemma UnchangedJobStandsStill(tr: Trace, since: nat, i: nat)
    requires since <= i && tr.poll(i).Found? && !Terminal(tr.poll(i).job.state)
    requires forall j | since <= j <= i :: Progress(tr)(j) == Progress(tr)(i)
    ensures StoodStill(tr, since, i)
  {
    forall j | since <= j <= i
      ensures SameUpToUnitOrder(tr.poll(j), tr.poll(i))
    {
      ProgressShowsJobAndUnits(tr, j, i);
    }
  }

  /** Since this poll, and no earlier one, every poll up to the i-th found what the i-th found. */
  ghost predicate SameSince(tr: Trace, since: nat, i: nat) {
    && since <= i
    && (forall j | since <= j <= i :: SameUpToUnitOrder(tr.poll(j), tr.poll(i)))
    && (since > 0 ==> !SameUpToUnitOrder(tr.poll(since - 1), tr.poll(i)))
  }

  /** Nothing has changed from that poll to the i-th, for longer than the timeout. */
  ghost predicate StoodSince(tr: Trace, timeout: real, since: nat, i: nat) {
    since < i && SameSince(tr, since, i) && tr.clock(i + 1) - tr.clock(since + 1) > timeout
  }

  predicate IsOver(job: Job) {
    job.state == Succeeded || job.state == PartiallySucceeded || job.state == Failed || job.state == Cancelled
  }

  /** The i-th poll ends the wait: the job is gone, is over, or has been as it is for longer than the timeout. */
  ghost predicate Decides(tr: Trace, timeout: real, i: nat, outcome: Outcome) {
    match outcome
    case Disappeared => tr.poll(i).Gone?
    case Returned(job) => tr.poll(i).Found? && tr.poll(i).job == job && IsOver(job)
    case NoProgress(state) =>
      && tr.poll(i).Found? && tr.poll(i).job.state == state && !IsOver(tr.poll(i).job)
      && exists since: nat :: StoodSince(tr, timeout, since, i)
  }

  lemma LastChangeIs<K>(progress: nat -> K, i: nat, since: nat)
    requires since <= i && Changes(progress, since) && forall j | since < j <= i :: !Changes(progress, j)
    ensures LastChange(progress, i) == since
  {
  }

  lemma SameAsThird(a: Poll, b: Poll, c: Poll)
    requires SameUpToUnitOrder(b, c)
    ensures SameUpToUnitOrder(a, b) <==> SameUpToUnitOrder(a, c)
  {
  }

  lemma ChangesShow(tr: Trace, j: nat)
    requires j > 0
    ensures Changes(Progress(tr), j) <==> !SameUpToUnitOrder(tr.poll(j - 1), tr.poll(j))
  {
    var progress := Progress(tr);
    assert progress(j) == SnapshotOf(tr.poll(j)) && progress(j - 1) == SnapshotOf(tr.poll(j - 1));
    assert progress(j) == progress(j - 1) <==> SameUpToUnitOrder(tr.poll(j - 1), tr.poll(j)) by {
      SameSnapshotIff(tr.poll(j - 1), tr.poll(j));
    }
  }

  lemma {:induction false} UnchangedPolls(tr: Trace, since: nat, j: nat, i: nat)
    requires since <= j <= i && forall k | since < k <= i :: !Changes(Progress(tr), k)
    ensures SameUpToUnitOrder(tr.poll(j), tr.poll(i))
    decreases i - j
  {
    if j < i {
      UnchangedPolls(tr, since, j + 1, i);
      ChangesShow(tr, j + 1);
      SameAsThird(tr.poll(j), tr.poll(j + 1), tr.poll(i));
    }
  }

  lemma UnchangedAt(tr: Trace, since: nat, i: nat, j: nat)
    requires SameSince(tr, since, i) && since < j <= i
    ensures !Changes(Progress(tr), j)
  {
    ChangesShow(tr, j);
    SameAsThird(tr.poll(j - 1), tr.poll(j), tr.poll(i));
  }

  lemma ChangedAt(tr: Trace, since: nat, i: nat)
    requires SameSince(tr, since, i)
    ensures Changes(Progress(tr), since)
  {
    if since > 0 {
      ChangesShow(tr, since);
      SameAsThird(tr.poll(since - 1), tr.poll(since), tr.poll(i));
    }
  }

  lemma LastChangeIsSince(tr: Trace, i: nat, since: nat)
    requires SameSince(tr, since, i)
    ensures LastChange(Progress(tr), i) == since
  {
    forall j | since < j <= i ensures !Changes(Progress(tr), j) {
      UnchangedAt(tr, since, i, j);
    }
    ChangedAt(tr, since, i);
    LastChangeIs(Progress(tr), i, since);
  }

  lemma SinceLastChange(tr: Trace, i: nat)
    ensures SameSince(tr, LastChange(Progress(tr), i), i)
  {
    var since := LastChange(Progress(tr), i);
    forall j | since <= j <= i ensures SameUpToUnitOrder(tr.poll(j), tr.poll(i)) {
      UnchangedPolls(tr, since, j, i);
    }
    if since > 0 {
      ChangesShow(tr, since);
      SameAsThird(tr.poll(since - 1), tr.poll(since), tr.poll(i));
    }
  }

  lemma StandstillStalls(tr: Trace, timeout: real, since: nat, i: nat)
    requires StoodSince(tr, timeout, since, i)
    ensures Stalled(Progress(tr), tr.clock, timeout, i)
  {
    UnchangedAt(tr, since, i, i);
    LastChangeIsSince(tr, i, since);
    StallFrom(Progress(tr), tr.clock, timeout, since, i);
  }

  lemma StallFrom<K>(progress: nat -> K, clock: nat -> real, timeout: real, since: nat, i: nat)
    requires !Changes(progress, i) && LastChange(progress, i) == since && clock(i + 1) - clock(since + 1) > timeout
    ensures Stalled(progress, clock, timeout, i)
  {
  }

  lemma StallStandsStill(tr: Trace, timeout: real, i: nat)
    requires Stalled(Progress(tr), tr.clock, timeout, i)
    ensures StoodSince(tr, timeout, LastChange(Progress(tr), i), i)
  {
    StalledMeans(Progress(tr), tr.clock, timeout, i);
    SinceLastChange(tr, i);
  }

  lemma StalledMeans<K>(progress: nat -> K, clock: nat -> real, timeout: real, i: nat)
    requires Stalled(progress, clock, timeout, i)
    ensures LastChange(progress, i) < i && clock(i + 1) - clock(LastChange(progress, i) + 1) > timeout
  {
  }

  lemma StalledIff(tr: Trace, timeout: real, i: nat)
    ensures Stalled(Progress(tr), tr.clock, timeout, i) <==> exists since: nat :: StoodSince(tr, timeout, since, i)
  {
    if Stalled(Progress(tr), tr.clock, timeout, i) {
      StallStandsStill(tr, timeout, i);
    }
    if since: nat :| StoodSince(tr, timeout, since, i) {
      StandstillStalls(tr, timeout, since, i);
    }
  }

  /** Each verdict, in terms of the polls and the clock. */
  lemma VerdictIff(tr: Trace, timeout: real, i: nat, outcome: Outcome)
    ensures Verdict(tr, timeout, i) == Some(outcome) <==> Decides(tr, timeout, i, outcome)
  {
    if tr.poll(i).Found? {
      TerminalIff(tr.poll(i).job);
      StalledIff(tr, timeout, i);
    }
  }

  lemma TerminalIff(job: Job)
    ensures Terminal(job.state) <==> IsOver(job)
  {
  }

  /** The first poll to decide decides this. */
  ghost predicate FirstDecided(tr: Trace, timeout: real, outcome: Outcome) {
    exists n: nat :: Decides(tr, timeout, n, outcome) && forall m: nat, o: Outcome | m < n :: !Decides(tr, timeout, m, o)
  }

  /** The idle error means that the live job showed the same progress in every poll of a period longer than the timeout. */
  lemma IdleOnlyAfterStandstill(tr: Trace, timeout: real, i: nat)
    requires Verdict(tr, timeout, i).Some? && Verdict(tr, timeout, i).value.NoProgress?
    ensures exists since: nat | since < i :: StoodStill(tr, since, i) && tr.clock(i + 1) - tr.clock(since + 1) > timeout
  {
    var since := StallBegan(Progress(tr), tr.clock, timeout, i);
    UnchangedJobStandsStill(tr, since, i);
  }

  ghost predicate Moves(tr: Trace, i: nat) {
    Changes(Progress(tr), i) || tr.poll(i).Gone? || Terminal(tr.poll(i).job.state)
  }

  ghost predicate Monotone(clock: nat -> real) {
    forall i: nat, j: nat | i <= j :: clock(i) <= clock(j)
  }

  /** The job shows something new, ends or vanishes within the timeout of each change. */
  ghost predicate KeepsMoving(tr: Trace, timeout: real) {
    forall c: nat | Changes(Progress(tr), c) ::
      exists d: nat :: c < d && Moves(tr, d) && tr.clock(d + 1) - tr.clock(c + 1) <= timeout
  }

  /** A job whose observed changes follow each other within the timeout never trips the bound. */
  lemma MovingJobNeverTrips(tr: Trace, timeout: real, i: nat)
    requires Monotone(tr.clock) && KeepsMoving(tr, timeout)
    requires Undecided(tr, timeout, i)
    ensures Verdict(tr, timeout, i).Some? ==> !Verdict(tr, timeout, i).value.NoProgress?
  {
    var c := LastChange(Progress(tr), i);
    var d: nat :| c < d && Moves(tr, d) && tr.clock(d + 1) - tr.clock(c + 1) <= timeout;
    MoveIsNotSkipped(tr, timeout, i, d);
    assert tr.clock(i + 1) <= tr.clock(d + 1);
  }

  /** While undecided, the job's next move after its last change is still to come. */
  lemma MoveIsNotSkipped(tr: Trace, timeout: real, i: nat, d: nat)
    requires Undecided(tr, timeout, i) && Moves(tr, d) && LastChange(Progress(tr), i) < d
    ensures i <= d
  {
    var atMove, moved := Verdict(tr, timeout, d), Changes(Progress(tr), d);
  }

  lemma SameProgress(a: Trace, b: Trace)
    requires forall j: nat :: SameUpToUnitOrder(a.poll(j), b.poll(j))
    ensures forall j: nat :: Progress(a)(j) == Progress(b)(j)
  {
    forall j: nat ensures Progress(a)(j) == Progress(b)(j) {
      assert SameUpToUnitOrder(a.poll(j), b.poll(j));
      SameSnapshotIff(a.poll(j), b.poll(j));
    }
  }

  /** The order in which the repository lists unit rows never matters. */
  lemma UnitOrderIsIrrelevant(a: Trace, b: Trace, timeout: real, i: nat)
    requires a.clock == b.clock
    requires forall j: nat :: SameUpToUnitOrder(a.poll(j), b.poll(j))
    ensures Verdict(a, timeout, i) == Verdict(b, timeout, i)
  {
    SameProgress(a, b);
    SameStalls(Progress(a), Progress(b), a.clock, timeout, i);
    assert SameUpToUnitOrder(a.poll(i), b.poll(i));
  }

  /** A wait that is still undecided has made a number of polls that depends only on the changes it saw. */
  lemma WaitIsBounded(tr: Trace, timeout: real, interval: real, n: nat)
    requires Ticks(tr.clock, interval) && Undecided(tr, timeout, n)
    ensures n <= ChangesBefore(Progress(tr), n) * IdleBudget(timeout, interval)
  {
    forall i: nat | i < n ensures !Stalled(Progress(tr), tr.clock, timeout, i) {
      assert Verdict(tr, timeout, i).None?;
    }
    PollsBoundedByChanges(Progress(tr), tr.clock, timeout, interval, n);
  }

  // ---- the loop ----

  ghost function AtLeastZero(n: int): nat {
    if n < 0 then 0 else n
  }

  ghost function ChangesLeft<K>(progress: nat -> K, settled: nat, i: nat): nat {
    AtLeastZero(ChangesBefore(progress, settled) - ChangesBefore(progress, i))
  }

  ghost function BudgetLeft<K>(progress: nat -> K, timeout: real, interval: real, i: nat): nat
    requires interval > 0.0
  {
    if i == 0 then 0 else AtLeastZero(IdleBudget(timeout, interval) - (i - 1 - LastChange(progress, i - 1)))
  }

  /** Fewer changes are left after the i-th poll, or as many and less idle budget. */
  ghost predicate UsesUp<K>(progress: nat -> K, timeout: real, interval: real, settled: nat, i: nat)
    requires interval > 0.0
  {
    || ChangesLeft(progress, settled, i + 1) < ChangesLeft(progress, settled, i)
    || (&& ChangesLeft(progress, settled, i + 1) == ChangesLeft(progress, settled, i)
        && BudgetLeft(progress, timeout, interval, i + 1) < BudgetLeft(progress, timeout, interval, i))
  }

  /** A round without a stall uses up a change still to come or some idle budget. */
  lemma RoundUsesUp<K>(progress: nat -> K, clock: nat -> real, timeout: real, interval: real, settled: nat, i: nat)
    requires Ticks(clock, interval) && !Stalled(progress, clock, timeout, i)
    requires forall j: nat | j >= settled :: !Changes(progress, j)
    ensures UsesUp(progress, timeout, interval, settled, i)
  {
    WithinBudget(progress, clock, timeout, interval, i);
    ChangesBounded(progress, settled, i + 1);
  }

  /** What the loop remembers before its i-th poll. */
  ghost predicate Remembers(tr: Trace, i: nat, lastProgress: Option<Snapshot>, lastProgressAt: real) {
    if i == 0 then lastProgress == None
    else lastProgress == Progress(tr)(i - 1) && lastProgressAt == tr.clock(LastChange(Progress(tr), i - 1) + 1)
  }

  /** Two remembered values suffice to tell a stall, and to remember on. */
  lemma RememberedStall<K>(progress: nat -> K, clock: nat -> real, timeout: real, i: nat, lastProgressAt: real)
    requires i > 0 ==> lastProgressAt == clock(LastChange(progress, i - 1) + 1)
    ensures Stalled(progress, clock, timeout, i)
            <==> i > 0 && progress(i) == progress(i - 1) && clock(i + 1) - lastProgressAt > timeout
    ensures clock(LastChange(progress, i) + 1) == if i > 0 && progress(i) == progress(i - 1) then lastProgressAt else clock(i + 1)
  {
  }

  /** One round of the loop: the error or the job it ends with, or what it remembers for the next round. */
  method Round(tr: Trace, timeout: real, i: nat, lastProgress: Option<Snapshot>, lastProgressAt: real)
    returns (outcome: Option<Outcome>, progress: Option<Snapshot>, progressAt: real)
    requires Remembers(tr, i, lastProgress, lastProgressAt)
    ensures outcome == Verdict(tr, timeout, i)
    ensures outcome.None? ==> Remembers(tr, i + 1, progress, progressAt) && !Stalled(Progress(tr), tr.clock, timeout, i)
  {
    progress, progressAt := lastProgress, lastProgressAt;
    var poll := tr.poll(i);
    if poll.Gone? {
      return Some(Disappeared), progress, progressAt;
    }
    if Terminal(poll.job.state) {
      return Some(Returned(poll.job)), progress, progressAt;
    }
    progress := SnapshotOf(poll);
    RememberedStall(Progress(tr), tr.clock, timeout, i, lastProgressAt);
    if progress != lastProgress {
      progressAt := tr.clock(i + 1);
    } else if tr.clock(i + 1) - lastProgressAt > timeout {
      return Some(NoProgress(poll.job.state)), progress, progressAt;
    }
    outcome := None;
  }

  /** When the job stops changing at some point, no wait stays undecided for ever: its changes and the budget of each run out. */
  lemma WaitLimit(tr: Trace, timeout: real, interval: real, settled: nat) returns (limit: nat)
    requires Ticks(tr.clock, interval)
    requires forall i: nat | i >= settled :: !Changes(Progress(tr), i)
    ensures forall n: nat | Undecided(tr, timeout, n) :: n <= limit
  {
    var budget := IdleBudget(timeout, interval);
    limit := ChangesBefore(Progress(tr), settled) * budget;
    forall n: nat | Undecided(tr, timeout, n) ensures n <= limit {
      WaitIsBounded(tr, timeout, interval, n);
      ChangesBounded(Progress(tr), settled, n);
      FactorsGrow(ChangesBefore(Progress(tr), n), ChangesBefore(Progress(tr), settled), budget);
    }
  }

  lemma FactorsGrow(a: nat, b: nat, factor: nat)
    requires a <= b
    ensures a * factor <= b * factor
  {
  }

  lemma FirstVerdictDecides(tr: Trace, timeout: real, n: nat, outcome: Outcome)
    requires Verdict(tr, timeout, n) == Some(outcome) && Undecided(tr, timeout, n)
    ensures FirstDecided(tr, timeout, outcome)
  {
    VerdictIff(tr, timeout, n, outcome);
    forall m: nat, o: Outcome | m < n ensures !Decides(tr, timeout, m, o) {
      VerdictIff(tr, timeout, m, o);
    }
  }

  /** The loop at the head of its i-th round. */
  ghost predicate Waiting(tr: Trace, timeout: real, i: nat, lastProgress: Option<Snapshot>, lastProgressAt: real) {
    Undecided(tr, timeout, i) && Remembers(tr, i, lastProgress, lastProgressAt)
  }

  lemma RoundKeepsWaiting(tr: Trace, timeout: real, i: nat, ended: Option<Outcome>, progress: Option<Snapshot>, progressAt: real)
    requires Undecided(tr, timeout, i) && ended == Verdict(tr, timeout, i)
    requires ended.None? ==> Remembers(tr, i + 1, progress, progressAt)
    ensures ended.Some? ==> FirstDecided(tr, timeout, ended.value)
    ensures ended.None? ==> Waiting(tr, timeout, i + 1, progress, progressAt)
  {
    if ended.Some? {
      FirstVerdictDecides(tr, timeout, i, ended.value);
    }
  }

  /**
   The wait returns the first poll's verdict. It ends whenever the job stops changing at some point (after the
   poll `settled`) and the interval passes between polls.
   */
  method WaitForTerminalJob(tr: Trace, timeout: real, ghost settled: nat, ghost interval: real) returns (outcome: Outcome)
    requires Ticks(tr.clock, interval)
    requires forall i: nat | i >= settled :: !Changes(Progress(tr), i)
    ensures FirstDecided(tr, timeout, outcome)
  {
    var lastProgress: Option<Snapshot>, lastProgressAt := None, tr.clock(0);
    var i: nat := 0;
    ghost var limit := WaitLimit(tr, timeout, interval, settled);
    while true
      invariant Waiting(tr, timeout, i, lastProgress, lastProgressAt)
      decreases limit - i
    {
      var ended;
      ended, lastProgress, lastProgressAt := Round(tr, timeout, i, lastProgress, lastProgressAt);
      RoundKeepsWaiting(tr, timeout, i, ended, lastProgress, lastProgressAt);
      if ended.Some? {
        return ended.value;
      }
      i := i + 1;
    }
  }
}
