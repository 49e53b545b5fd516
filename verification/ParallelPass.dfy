/**
 The first pass of the parallel memory evaluation: one task per probe, three arms in turn, under a
 semaphore and a lock. A run is any sequence of events, so it covers every interleaving of the tasks
 and every behaviour of the model call. Critical sections are split into their read and their write.
 */
module ParallelPass {
  import opened Wrappers
  import opened MemoryCalls

  datatype Phase =
    | Waiting                                       // for the semaphore, or finished when no arm is left
    | Permitted                                     // holds a permit
    | Counting(seen: nat)                           // holds the lock, has read the progress counter
    | Asking(index: nat)                            // the model call is in flight
    | Answered(call: Graded)
    | Recording(call: Graded, slot: Option<nat>)    // holds the lock, has searched the transcript
    | Recorded(call: Graded)
    | Failing(reason: string)
    | Queueing(reason: string)                      // holds the lock
    | Leaving

  datatype Task = Task(arm: nat, phase: Phase, results: seq<Reply>)

  datatype Config = Config(probes: seq<Probe>, concurrency: nat)

  datatype State = State(
    tasks: seq<Task>,
    permits: nat,
    lock: Option<nat>,
    progress: nat,
    indices: seq<nat>,          // every progress index handed out, oldest first
    askErrors: seq<Complaint>,
    recorded: seq<Row>,
    failed: seq<FailedCall>)

  datatype Event =
    | Advance(task: nat)
    | Complain(task: nat, lines: seq<string>)       // the call in flight appends to `session.ask_errors`
    | Answer(task: nat, call: Graded)               // the call in flight returns or raises

  const ARM_COUNT := 3

  function ArmAt(a: nat): Arm {
    if a == 0 then Full else if a == 1 then Ablated else Control
  }

  function CallAt(cfg: Config, i: nat, a: nat): Key
    requires i < |cfg.probes|
  {
    (cfg.probes[i].probeId, ArmAt(a))
  }

  function Start(cfg: Config): State {
    State(seq(|cfg.probes|, _ => Task(0, Waiting, [])), cfg.concurrency, None, 0, [], [], [], [])
  }

  // ---- one step of one task ----

  function AdvanceTask(cfg: Config, s: State, i: nat): Option<State>
    requires i < |s.tasks| == |cfg.probes|
  {
    var t := s.tasks[i];
    var probe, arm, key := cfg.probes[i], ArmAt(t.arm), CallAt(cfg, i, t.arm);
    if t.arm >= ARM_COUNT then None
    else match t.phase
      case Waiting =>
        if s.permits == 0 then None
        else Some(Move(s, i, t.(phase := Permitted)).(permits := s.permits - 1))
      case Permitted =>
        if s.lock.Some? then None
        else Some(Move(s, i, t.(phase := Counting(s.progress))).(lock := Some(i)))
      case Counting(seen) =>
        Some(Move(s, i, t.(phase := Asking(seen + 1))).(
               lock := None, progress := seen + 1, indices := s.indices + [seen + 1]))
      case Asking(_) => None
      case Answered(call) =>
        if s.lock.Some? then None
        else Some(Move(s, i, t.(phase := Recording(call, FindRow(s.recorded, key)))).(lock := Some(i)))
      case Recording(call, slot) =>
        Some(Move(s, i, t.(phase := Recorded(call))).(
               lock := None,
               recorded := WriteRow(s.recorded, slot, RowFor(probe, arm, MaskedScope(probe, arm), call))))
      case Recorded(call) =>
        var lines := AskErrorLines(s.askErrors, key);
        var next := if Unanswered(call.reply) && ClassifyEmptyFailure(lines) == Transient
                    then Failing(EmptyFailureReason(lines)) else Leaving;
        Some(Move(s, i, t.(phase := next, results := t.results + [call.reply])))
      case Failing(reason) =>
        if s.lock.Some? then None
        else Some(Move(s, i, t.(phase := Queueing(reason))).(lock := Some(i)))
      case Queueing(reason) =>
        Some(Move(s, i, t.(phase := Leaving)).(
               lock := None, failed := s.failed + [FailedCall(probe, arm, MaskedScope(probe, arm), reason)]))
      case Leaving =>
        Some(Move(s, i, t.(arm := t.arm + 1, phase := Waiting)).(permits := s.permits + 1))
  }

  function Move(s: State, i: nat, t: Task): State
    requires i < |s.tasks|
  {
    s.(tasks := s.tasks[i := t])
  }

  function Next(cfg: Config, s: State, e: Event): Option<State> {
    if |s.tasks| != |cfg.probes| || e.task >= |s.tasks| then None
    else match e
      case Advance(i) => AdvanceTask(cfg, s, i)
      case Complain(i, lines) =>
        var t := s.tasks[i];
        if t.phase.Asking?
        then Some(s.(askErrors := s.askErrors + [Complaint(cfg.probes[i].probeId, ArmAt(t.arm), lines)]))
        else None
      case Answer(i, call) =>
        var t := s.tasks[i];
        if t.phase.Asking? then Some(Move(s, i, t.(phase := Answered(call)))) else None
  }

  function Run(cfg: Config, s: State, events: seq<Event>): Option<State>
    decreases |events|
  {
    if events == [] then Some(s)
    else
      var next := Next(cfg, s, events[0]);
      if next.None? then None else Run(cfg, next.value, events[1..])
  }

  /** `asyncio.gather` returns: every task has finished its three arms. */
  ghost predicate Joined(s: State) {
    forall i | 0 <= i < |s.tasks| :: s.tasks[i].arm == ARM_COUNT
  }

  // ---- quantities summed over tasks ----

  function Sum(tasks: seq<Task>, f: Task -> nat): nat {
    if tasks == [] then 0 else f(tasks[0]) + Sum(tasks[1..], f)
  }

  lemma {:induction false} SumUpdate(tasks: seq<Task>, i: nat, t: Task, f: Task -> nat)
    requires i < |tasks|
    ensures Sum(tasks[i := t], f) + f(tasks[i]) == Sum(tasks, f) + f(t)
  {
    if i == 0 {
      assert tasks[i := t][1..] == tasks[1..];
    } else {
      SumUpdate(tasks[1..], i - 1, t, f);
      assert tasks[i := t][1..] == tasks[1..][i - 1 := t];
    }
  }

  lemma {:induction false} SumConstant(tasks: seq<Task>, f: Task -> nat, c: nat)
    requires forall i | 0 <= i < |tasks| :: f(tasks[i]) == c
    ensures Sum(tasks, f) == c * |tasks|
  {
    if tasks != [] {
      SumConstant(tasks[1..], f, c);
    }
  }

  lemma {:induction false} SumBound(tasks: seq<Task>, f: Task -> nat, g: Task -> nat)
    requires forall t :: f(t) <= g(t)
    ensures Sum(tasks, f) <= Sum(tasks, g)
  {
    if tasks != [] {
      SumBound(tasks[1..], f, g);
    }
  }

  function HoldsPermit(t: Task): nat {
    if t.phase.Waiting? then 0 else 1
  }

  function InFlight(t: Task): nat {
    if t.phase.Asking? then 1 else 0
  }

  /** Arms of this task that have been given a progress index. */
  function Indexed(t: Task): nat {
    t.arm + if t.phase.Waiting? || t.phase.Permitted? || t.phase.Counting? then 0 else 1
  }

  /** Arms of this task whose row is in the transcript. */
  function Written(t: Task): nat {
    t.arm + if t.phase.Recorded? || t.phase.Failing? || t.phase.Queueing? || t.phase.Leaving? then 1 else 0
  }

  /** Arms of this task whose reply has been judged and, if need be, queued. */
  function Settled(t: Task): nat {
    t.arm + if t.phase.Leaving? then 1 else 0
  }

  // ---- the invariant ----

  ghost predicate DistinctProbes(cfg: Config) {
    forall i, j :: 0 <= i < j < |cfg.probes| ==> cfg.probes[i].probeId != cfg.probes[j].probeId
  }

  predicate UsesLock(p: Phase) {
    p.Counting? || p.Recording? || p.Queueing?
  }

  ghost predicate TaskShape(t: Task) {
    && t.arm <= ARM_COUNT
    && (t.arm == ARM_COUNT ==> t.phase.Waiting?)
    && |t.results| == t.arm + if t.phase.Failing? || t.phase.Queueing? || t.phase.Leaving? then 1 else 0
  }

  ghost predicate Shape(cfg: Config, s: State) {
    && |s.tasks| == |cfg.probes|
    && forall i | 0 <= i < |s.tasks| :: TaskShape(s.tasks[i])
  }

  ghost predicate LockInv(cfg: Config, s: State)
    requires Shape(cfg, s)
  {
    && (s.lock.Some? ==> s.lock.value < |s.tasks|)
    && (forall i | 0 <= i < |s.tasks| :: UsesLock(s.tasks[i].phase) <==> s.lock == Some(i))
    && (forall i | 0 <= i < |s.tasks| ::
          && (s.tasks[i].phase.Counting? ==> s.tasks[i].phase.seen == s.progress)
          && (s.tasks[i].phase.Recording? ==>
                s.tasks[i].phase.slot == FindRow(s.recorded, CallAt(cfg, i, s.tasks[i].arm))))
  }

  ghost predicate PermitInv(cfg: Config, s: State) {
    s.permits + Sum(s.tasks, HoldsPermit) == cfg.concurrency
  }

  ghost predicate ProgressInv(s: State) {
    && s.progress == Sum(s.tasks, Indexed) == |s.indices|
    && forall k | 0 <= k < |s.indices| :: s.indices[k] == k + 1
  }

  /** The transcript's entry for arm a of probe i is the reply that call got, and exists once written. */
  ghost predicate RowOk(cfg: Config, s: State, i: nat, a: nat)
    requires Shape(cfg, s) && i < |s.tasks|
  {
    var t, probe, row := s.tasks[i], cfg.probes[i], Lookup(s.recorded, CallAt(cfg, i, a));
    if a >= Written(t) then row.None?
    else
      && row.Some?
      && row.value == RowFor(probe, ArmAt(a), MaskedScope(probe, ArmAt(a)), Graded(row.value.reply, row.value.why))
      && (a < |t.results| ==> row.value.reply == t.results[a])
      && (a == t.arm && t.phase.Recorded? ==> row.value.reply == t.phase.call.reply)
  }

  ghost predicate TranscriptInv(cfg: Config, s: State)
    requires Shape(cfg, s)
  {
    && DistinctRows(s.recorded)
    && |s.recorded| == Sum(s.tasks, Written)
    && forall i, a | 0 <= i < |s.tasks| && 0 <= a < ARM_COUNT :: RowOk(cfg, s, i, a)
  }

  /** The entry the failed-call queue owes to arm a of probe i, given the reply and the complaints so far. */
  ghost function Owed(cfg: Config, s: State, i: nat, a: nat): Option<FailedCall>
    requires Shape(cfg, s) && i < |s.tasks|
  {
    var t, lines := s.tasks[i], AskErrorLines(s.askErrors, CallAt(cfg, i, a));
    if a < |t.results| && Unanswered(t.results[a]) && ClassifyEmptyFailure(lines) == Transient
    then Some(FailedCall(cfg.probes[i], ArmAt(a), MaskedScope(cfg.probes[i], ArmAt(a)), EmptyFailureReason(lines)))
    else None
  }

  ghost predicate DistinctCalls(failed: seq<FailedCall>) {
    forall i, j :: 0 <= i < j < |failed| ==> CallKey(failed[i]) != CallKey(failed[j])
  }

  ghost predicate QueueOk(cfg: Config, s: State, i: nat, a: nat)
    requires Shape(cfg, s) && i < |s.tasks|
  {
    var t := s.tasks[i];
    if a < Settled(t) then
      && (Owed(cfg, s, i, a).Some? ==> Owed(cfg, s, i, a).value in s.failed)
      && forall k | 0 <= k < |s.failed| && CallKey(s.failed[k]) == CallAt(cfg, i, a) :: Owed(cfg, s, i, a) == Some(s.failed[k])
    else
      && (forall k | 0 <= k < |s.failed| :: CallKey(s.failed[k]) != CallAt(cfg, i, a))
      && (a == t.arm && t.phase.Failing? ==> Owed(cfg, s, i, a).Some? && Owed(cfg, s, i, a).value.errorReason == t.phase.reason)
      && (a == t.arm && t.phase.Queueing? ==> Owed(cfg, s, i, a).Some? && Owed(cfg, s, i, a).value.errorReason == t.phase.reason)
  }

  ghost predicate QueueInv(cfg: Config, s: State)
    requires Shape(cfg, s)
  {
    && DistinctCalls(s.failed)
    && (forall k | 0 <= k < |s.failed| :: s.failed[k].probe in cfg.probes)
    && forall i, a | 0 <= i < |s.tasks| && 0 <= a < ARM_COUNT :: QueueOk(cfg, s, i, a)
  }

  ghost predicate Inv(cfg: Config, s: State) {
    Shape(cfg, s) && LockInv(cfg, s) && PermitInv(cfg, s) && ProgressInv(s) && TranscriptInv(cfg, s) && QueueInv(cfg, s)
  }

  lemma StartInv(cfg: Config)
    ensures Inv(cfg, Start(cfg))
  {
    var tasks := Start(cfg).tasks;
    SumConstant(tasks, HoldsPermit, 0);
    SumConstant(tasks, Indexed, 0);
    SumConstant(tasks, Written, 0);
  }

  lemma CallsDistinct(cfg: Config, i: nat, a: nat, j: nat, b: nat)
    requires DistinctProbes(cfg) && i < |cfg.probes| && j < |cfg.probes| && a < ARM_COUNT && b < ARM_COUNT
    ensures CallAt(cfg, i, a) == CallAt(cfg, j, b) <==> i == j && a == b
  {
  }

  lemma ShapeStep(cfg: Config, s: State, e: Event)
    requires Shape(cfg, s) && Next(cfg, s, e).Some?
    ensures Shape(cfg, Next(cfg, s, e).value)
    ensures s.tasks[e.task].arm < ARM_COUNT
    ensures forall i | 0 <= i < |s.tasks| && i != e.task :: Next(cfg, s, e).value.tasks[i] == s.tasks[i]
  {
    assert TaskShape(s.tasks[e.task]);
  }

  lemma LockStep(cfg: Config, s: State, e: Event)
    requires Shape(cfg, s) && LockInv(cfg, s) && Next(cfg, s, e).Some?
    requires Shape(cfg, Next(cfg, s, e).value)
    ensures LockInv(cfg, Next(cfg, s, e).value)
  {
    var s' := Next(cfg, s, e).value;
    assert UsesLock(s.tasks[e.task].phase) <==> s.lock == Some(e.task);
    forall i | 0 <= i < |s'.tasks|
      ensures UsesLock(s'.tasks[i].phase) <==> s'.lock == Some(i)
      ensures s'.tasks[i].phase.Counting? ==> s'.tasks[i].phase.seen == s'.progress
      ensures s'.tasks[i].phase.Recording? ==>
                s'.tasks[i].phase.slot == FindRow(s'.recorded, CallAt(cfg, i, s'.tasks[i].arm))
    {
      assert UsesLock(s.tasks[i].phase) <==> s.lock == Some(i);
    }
  }

  /** What a step that writes no row may do to the stepping task: keep its rows, and file the reply they show. */
  ghost predicate Quiet(t: Task, t': Task) {
    && Written(t') == Written(t)
    && t.arm <= t'.arm
    && (t'.phase.Recorded? ==> t' == t)
    && (t'.results == t.results
        || (t.phase.Recorded? && t'.arm == t.arm && t'.results == t.results + [t.phase.call.reply]))
  }

  predicate Writes(s: State, e: Event) {
    e.Advance? && e.task < |s.tasks| && s.tasks[e.task].phase.Recording?
  }

  /** One step as its effect on the counters and on the stepping task. */
  lemma StepEffect(cfg: Config, s: State, e: Event)
    requires Shape(cfg, s) && LockInv(cfg, s) && Next(cfg, s, e).Some?
    ensures var s', i := Next(cfg, s, e).value, e.task;
            && |s'.tasks| == |s.tasks| && s'.tasks == s.tasks[i := s'.tasks[i]]
            && s'.permits + HoldsPermit(s'.tasks[i]) == s.permits + HoldsPermit(s.tasks[i])
            && s'.progress + Indexed(s.tasks[i]) == s.progress + Indexed(s'.tasks[i])
            && (s'.indices == if s'.progress == s.progress then s.indices else s.indices + [s.progress + 1])
            && s.progress <= s'.progress <= s.progress + 1
            && (!Writes(s, e) ==> s'.recorded == s.recorded && Quiet(s.tasks[i], s'.tasks[i]))
  {
    assert TaskShape(s.tasks[e.task]);
  }

  lemma PermitStep(cfg: Config, s: State, s': State, i: nat)
    requires PermitInv(cfg, s) && i < |s.tasks| == |s'.tasks| && s'.tasks == s.tasks[i := s'.tasks[i]]
    requires s'.permits + HoldsPermit(s'.tasks[i]) == s.permits + HoldsPermit(s.tasks[i])
    ensures PermitInv(cfg, s')
  {
    SumUpdate(s.tasks, i, s'.tasks[i], HoldsPermit);
  }

  lemma ProgressStep(s: State, s': State, i: nat)
    requires ProgressInv(s) && i < |s.tasks| == |s'.tasks| && s'.tasks == s.tasks[i := s'.tasks[i]]
    requires s'.progress + Indexed(s.tasks[i]) == s.progress + Indexed(s'.tasks[i])
    requires s.progress <= s'.progress <= s.progress + 1
    requires s'.indices == if s'.progress == s.progress then s.indices else s.indices + [s.progress + 1]
    ensures ProgressInv(s')
  {
    SumUpdate(s.tasks, i, s'.tasks[i], Indexed);
  }

  lemma TranscriptStep(cfg: Config, s: State, s': State, i: nat)
    requires Shape(cfg, s) && Shape(cfg, s') && TranscriptInv(cfg, s)
    requires i < |s.tasks| && s'.tasks == s.tasks[i := s'.tasks[i]]
    requires s'.recorded == s.recorded && Quiet(s.tasks[i], s'.tasks[i])
    ensures TranscriptInv(cfg, s')
  {
    SumUpdate(s.tasks, i, s'.tasks[i], Written);
    assert TaskShape(s.tasks[i]) && TaskShape(s'.tasks[i]);
    forall j, a | 0 <= j < |s'.tasks| && 0 <= a < ARM_COUNT ensures RowOk(cfg, s', j, a) {
      assert RowOk(cfg, s, j, a);
    }
  }

  lemma TranscriptAfterWrite(cfg: Config, s: State, i: nat)
    requires DistinctProbes(cfg) && Inv(cfg, s) && i < |s.tasks| && s.tasks[i].phase.Recording?
    requires Next(cfg, s, Advance(i)).Some? && Shape(cfg, Next(cfg, s, Advance(i)).value)
    ensures TranscriptInv(cfg, Next(cfg, s, Advance(i)).value)
  {
    var s' := Next(cfg, s, Advance(i)).value;
    var t := s.tasks[i];
    assert TaskShape(t) && RowOk(cfg, s, i, t.arm);
    SumUpdate(s.tasks, i, s'.tasks[i], Written);
    var row := RowFor(cfg.probes[i], ArmAt(t.arm), MaskedScope(cfg.probes[i], ArmAt(t.arm)), t.phase.call);
    assert s'.recorded == Upsert(s.recorded, row);
    UpsertIsTableWrite(s.recorded, row);
    forall j, a | 0 <= j < |s'.tasks| && 0 <= a < ARM_COUNT ensures RowOk(cfg, s', j, a) {
      CallsDistinct(cfg, j, a, i, t.arm);
      assert RowOk(cfg, s, j, a);
    }
  }

  /** Steps that neither judge a reply nor queue a call leave what task t owes, and when, as it was. */
  ghost predicate SettlesNothing(t: Task, t': Task) {
    && t'.results == t.results
    && Settled(t') == Settled(t)
    && (t'.phase.Failing? ==> t' == t)
    && (t'.phase.Queueing? ==> t' == t || t == t'.(phase := Failing(t'.phase.reason)))
  }

  lemma QueueEntryQuiet(cfg: Config, s: State, s': State, i: nat, a: nat)
    requires Shape(cfg, s) && Shape(cfg, s') && i < |s.tasks|
    requires s'.failed == s.failed && s'.askErrors == s.askErrors
    requires SettlesNothing(s.tasks[i], s'.tasks[i])
    requires QueueOk(cfg, s, i, a)
    ensures QueueOk(cfg, s', i, a)
  {
  }

  lemma QueueEntryJudged(cfg: Config, s: State, i: nat, a: nat)
    requires Shape(cfg, s) && i < |s.tasks| && s.tasks[i].phase.Recorded?
    requires Next(cfg, s, Advance(i)).Some? && Shape(cfg, Next(cfg, s, Advance(i)).value)
    requires QueueOk(cfg, s, i, a)
    ensures QueueOk(cfg, Next(cfg, s, Advance(i)).value, i, a)
  {
    assert TaskShape(s.tasks[i]);
  }

  lemma StepSettlesNothing(cfg: Config, s: State, e: Event)
    requires Shape(cfg, s) && Next(cfg, s, e).Some? && !e.Complain?
    requires !(e.Advance? && (s.tasks[e.task].phase.Queueing? || s.tasks[e.task].phase.Recorded?))
    ensures SettlesNothing(s.tasks[e.task], Next(cfg, s, e).value.tasks[e.task])
  {
    assert TaskShape(s.tasks[e.task]);
  }

  lemma QueueStep(cfg: Config, s: State, e: Event)
    requires DistinctProbes(cfg) && Inv(cfg, s) && Next(cfg, s, e).Some?
    requires Shape(cfg, Next(cfg, s, e).value)
    ensures QueueInv(cfg, Next(cfg, s, e).value)
  {
    var s' := Next(cfg, s, e).value;
    ShapeStep(cfg, s, e);
    if e.Complain? {
      QueueAfterComplaint(cfg, s, e);
    } else if e.Advance? && s.tasks[e.task].phase.Queueing? {
      QueueAfterEnqueue(cfg, s, e.task);
    } else {
      assert s'.failed == s.failed && s'.askErrors == s.askErrors;
      forall j, a | 0 <= j < |s'.tasks| && 0 <= a < ARM_COUNT ensures QueueOk(cfg, s', j, a) {
        assert QueueOk(cfg, s, j, a);
        if j == e.task {
          if e.Advance? && s.tasks[j].phase.Recorded? {
            QueueEntryJudged(cfg, s, j, a);
          } else {
            StepSettlesNothing(cfg, s, e);
            QueueEntryQuiet(cfg, s, s', j, a);
          }
        } else {
          assert Owed(cfg, s', j, a) == Owed(cfg, s, j, a);
        }
      }
    }
  }

  lemma QueueAfterComplaint(cfg: Config, s: State, e: Event)
    requires DistinctProbes(cfg) && Inv(cfg, s) && e.Complain? && Next(cfg, s, e).Some?
    ensures Shape(cfg, Next(cfg, s, e).value) && QueueInv(cfg, Next(cfg, s, e).value)
  {
    var s' := Next(cfg, s, e).value;
    var i := e.task;
    var c := Complaint(cfg.probes[i].probeId, ArmAt(s.tasks[i].arm), e.lines);
    assert TaskShape(s.tasks[i]);
    forall j, a | 0 <= j < |s'.tasks| && 0 <= a < ARM_COUNT ensures QueueOk(cfg, s', j, a) {
      assert QueueOk(cfg, s, j, a);
      assert TaskShape(s.tasks[j]);
      CallsDistinct(cfg, j, a, i, s.tasks[i].arm);
      if j != i || a != s.tasks[i].arm {
        ComplaintsOfOthers(s.askErrors, c, CallAt(cfg, j, a));
      }
    }
  }

  lemma QueueAfterEnqueue(cfg: Config, s: State, i: nat)
    requires DistinctProbes(cfg) && Inv(cfg, s) && i < |s.tasks| && s.tasks[i].phase.Queueing?
    requires Next(cfg, s, Advance(i)).Some? && Shape(cfg, Next(cfg, s, Advance(i)).value)
    ensures QueueInv(cfg, Next(cfg, s, Advance(i)).value)
  {
    var s' := Next(cfg, s, Advance(i)).value;
    var t := s.tasks[i];
    assert TaskShape(t) && QueueOk(cfg, s, i, t.arm);
    var call := FailedCall(cfg.probes[i], ArmAt(t.arm), MaskedScope(cfg.probes[i], ArmAt(t.arm)), t.phase.reason);
    assert s'.failed == s.failed + [call];
    assert Owed(cfg, s, i, t.arm) == Some(call);
    forall j, a | 0 <= j < |s'.tasks| && 0 <= a < ARM_COUNT ensures QueueOk(cfg, s', j, a) {
      assert QueueOk(cfg, s, j, a);
      CallsDistinct(cfg, j, a, i, t.arm);
      assert Owed(cfg, s', j, a) == Owed(cfg, s, j, a);
    }
  }

  lemma InvStep(cfg: Config, s: State, e: Event)
    requires DistinctProbes(cfg) && Inv(cfg, s) && Next(cfg, s, e).Some?
    ensures Inv(cfg, Next(cfg, s, e).value)
  {
    var s' := Next(cfg, s, e).value;
    ShapeStep(cfg, s, e);
    StepEffect(cfg, s, e);
    LockStep(cfg, s, e);
    PermitStep(cfg, s, s', e.task);
    ProgressStep(s, s', e.task);
    if Writes(s, e) {
      TranscriptAfterWrite(cfg, s, e.task);
    } else {
      TranscriptStep(cfg, s, s', e.task);
    }
    QueueStep(cfg, s, e);
  }

  lemma {:induction false} RunKeepsInv(cfg: Config, s: State, events: seq<Event>)
    requires DistinctProbes(cfg) && Inv(cfg, s) && Run(cfg, s, events).Some?
    ensures Inv(cfg, Run(cfg, s, events).value)
    decreases |events|
  {
    if events != [] {
      InvStep(cfg, s, events[0]);
      RunKeepsInv(cfg, Next(cfg, s, events[0]).value, events[1..]);
    }
  }

  // ---- what every interleaving guarantees ----

  /** At any moment of any run. */
  lemma EveryMoment(cfg: Config, events: seq<Event>)
    requires DistinctProbes(cfg) && Run(cfg, Start(cfg), events).Some?
    ensures var s := Run(cfg, Start(cfg), events).value;
            && |InCall(s.tasks)| <= cfg.concurrency
            && (forall k | 0 <= k < |s.indices| :: s.indices[k] == k + 1)
            && DistinctRows(s.recorded)
            && DistinctCalls(s.failed)
  {
    StartInv(cfg);
    RunKeepsInv(cfg, Start(cfg), events);
    SumBound(Run(cfg, Start(cfg), events).value.tasks, InFlight, HoldsPermit);
    InCallCount(Run(cfg, Start(cfg), events).value.tasks);
  }

  /** The tasks that await a model call's answer. */
  ghost function InCall(tasks: seq<Task>): set<int> {
    set i | 0 <= i < |tasks| && tasks[i].phase.Asking?
  }

  lemma {:induction false} InCallCount(tasks: seq<Task>)
    ensures |InCall(tasks)| == Sum(tasks, InFlight)
  {
    if tasks != [] {
      var front, last := tasks[..|tasks| - 1], |tasks| - 1;
      InCallCount(front);
      SumLast(tasks, InFlight);
      assert InCall(tasks) == InCall(front) + if tasks[last].phase.Asking? then {last} else {};
    }
  }

  lemma {:induction false} SumLast(tasks: seq<Task>, f: Task -> nat)
    requires tasks != []
    ensures Sum(tasks, f) == Sum(tasks[..|tasks| - 1], f) + f(tasks[|tasks| - 1])
  {
    if |tasks| > 1 {
      SumLast(tasks[1..], f);
      assert tasks[1..][..|tasks| - 2] == tasks[..|tasks| - 1][1..];
    }
  }

  /**
   What the join hands on: indices 1 to 3n were given out once each; the transcript has 3n rows, one per
   (probe, arm), showing the reply that call got; and the queue holds exactly the calls that went unanswered
   for a transient reason, once each.
   */
  ghost predicate Delivered(cfg: Config, s: State) {
    && |s.tasks| == |cfg.probes|
    && (forall i | 0 <= i < |s.tasks| :: |s.tasks[i].results| == ARM_COUNT)
    && s.indices == seq(ARM_COUNT * |cfg.probes|, k => k + 1)
    && |s.recorded| == ARM_COUNT * |cfg.probes| && DistinctRows(s.recorded)
    && DistinctCalls(s.failed)
    && (forall k | 0 <= k < |s.failed| :: s.failed[k].probe in cfg.probes)
    && forall i, a | 0 <= i < |cfg.probes| && 0 <= a < ARM_COUNT :: RowDelivered(cfg, s, i, a) && QueuedExactly(cfg, s, i, a)
  }

  ghost predicate RowDelivered(cfg: Config, s: State, i: nat, a: nat)
    requires i < |s.tasks| == |cfg.probes| && a < |s.tasks[i].results|
  {
    var row := Lookup(s.recorded, CallAt(cfg, i, a));
    && row.Some?
    && row.value == RowFor(cfg.probes[i], ArmAt(a), MaskedScope(cfg.probes[i], ArmAt(a)),
                           Graded(s.tasks[i].results[a], row.value.why))
  }

  lemma AtJoin(cfg: Config, events: seq<Event>)
    requires DistinctProbes(cfg) && Run(cfg, Start(cfg), events).Some?
    requires Joined(Run(cfg, Start(cfg), events).value)
    ensures Delivered(cfg, Run(cfg, Start(cfg), events).value)
  {
    StartInv(cfg);
    RunKeepsInv(cfg, Start(cfg), events);
    InvDelivers(cfg, Run(cfg, Start(cfg), events).value);
  }

  lemma InvDelivers(cfg: Config, s: State)
    requires Inv(cfg, s) && Joined(s)
    ensures Delivered(cfg, s)
  {
    forall i | 0 <= i < |s.tasks| ensures |s.tasks[i].results| == Indexed(s.tasks[i]) == Written(s.tasks[i]) == ARM_COUNT {
      assert TaskShape(s.tasks[i]);
    }
    SumConstant(s.tasks, Indexed, ARM_COUNT);
    SumConstant(s.tasks, Written, ARM_COUNT);
    forall i, a | 0 <= i < |cfg.probes| && 0 <= a < ARM_COUNT
      ensures RowDelivered(cfg, s, i, a) && QueuedExactly(cfg, s, i, a)
    {
      assert TaskShape(s.tasks[i]) && RowOk(cfg, s, i, a) && QueueOk(cfg, s, i, a);
    }
  }

  /** Arm a of probe i is queued, with its reason, exactly when its reply was empty and not a contract rejection. */
  ghost predicate QueuedExactly(cfg: Config, s: State, i: nat, a: nat)
    requires i < |s.tasks| == |cfg.probes| && a < |s.tasks[i].results|
  {
    var lines := AskErrorLines(s.askErrors, CallAt(cfg, i, a));
    && ((exists call | call in s.failed :: CallKey(call) == CallAt(cfg, i, a))
        <==> Unanswered(s.tasks[i].results[a]) && ClassifyEmptyFailure(lines) == Transient)
    && forall call | call in s.failed && CallKey(call) == CallAt(cfg, i, a) ::
         call == FailedCall(cfg.probes[i], ArmAt(a), MaskedScope(cfg.probes[i], ArmAt(a)), EmptyFailureReason(lines))
  }

  // ---- progress ----

  /** An event that would move some task: not merely another complaint. */
  ghost predicate CanMove(cfg: Config, s: State) {
    exists e: Event :: !e.Complain? && Next(cfg, s, e).Some?
  }

  lemma {:induction false} SomeoneHoldsPermit(tasks: seq<Task>) returns (i: nat)
    requires Sum(tasks, HoldsPermit) > 0
    ensures i < |tasks| && HoldsPermit(tasks[i]) == 1
  {
    if HoldsPermit(tasks[0]) == 1 {
      i := 0;
    } else {
      i := SomeoneHoldsPermit(tasks[1..]);
      i := i + 1;
    }
  }

  lemma HolderCanMove(cfg: Config, s: State, i: nat)
    requires Inv(cfg, s) && i < |s.tasks| && !s.tasks[i].phase.Waiting?
    requires s.lock.None? || s.lock == Some(i)
    ensures CanMove(cfg, s)
  {
    assert TaskShape(s.tasks[i]);
    assert UsesLock(s.tasks[i].phase) <==> s.lock == Some(i);
    if s.tasks[i].phase.Asking? {
      assert Next(cfg, s, Answer(i, Graded(Reply(Pass, true, 0, ""), ""))).Some?;
    } else {
      assert Next(cfg, s, Advance(i)).Some?;
    }
  }

  /** With at least one permit, the pass never deadlocks: some task can move until all have finished. */
  lemma NoDeadlock(cfg: Config, events: seq<Event>)
    requires DistinctProbes(cfg) && Run(cfg, Start(cfg), events).Some? && cfg.concurrency > 0
    ensures CanMove(cfg, Run(cfg, Start(cfg), events).value) <==> !Joined(Run(cfg, Start(cfg), events).value)
  {
    var s := Run(cfg, Start(cfg), events).value;
    StartInv(cfg);
    RunKeepsInv(cfg, Start(cfg), events);
    if !Joined(s) {
      var j :| 0 <= j < |s.tasks| && s.tasks[j].arm != ARM_COUNT;
      assert TaskShape(s.tasks[j]);
      if s.lock.Some? {
        assert UsesLock(s.tasks[s.lock.value].phase);
        HolderCanMove(cfg, s, s.lock.value);
      } else if !s.tasks[j].phase.Waiting? {
        HolderCanMove(cfg, s, j);
      } else if s.permits > 0 {
        assert Next(cfg, s, Advance(j)).Some?;
      } else {
        var i := SomeoneHoldsPermit(s.tasks);
        HolderCanMove(cfg, s, i);
      }
    } else {
      forall e: Event | !e.Complain? ensures Next(cfg, s, e).None? {
        if e.task < |s.tasks| {
          assert TaskShape(s.tasks[e.task]);
        }
      }
    }
  }

  /** A semaphore of zero stops the pass before its first call. */
  lemma ZeroConcurrencyStops(cfg: Config)
    requires cfg.concurrency == 0
    ensures !CanMove(cfg, Start(cfg)) && (Joined(Start(cfg)) <==> cfg.probes == [])
  {
    var s := Start(cfg);
    forall e: Event | !e.Complain? ensures Next(cfg, s, e).None? {
      if e.task < |s.tasks| {
        assert s.tasks[e.task] == Task(0, Waiting, []);
      }
    }
    if cfg.probes != [] {
      assert s.tasks[0].arm == 0;
    }
  }

  const STEPS_PER_ARM := 10

  /** Steps this task has taken; it only grows, and stops at its third arm. */
  function Work(t: Task): nat {
    STEPS_PER_ARM * t.arm
    + match t.phase
      case Waiting => 0
      case Permitted => 1
      case Counting(_) => 2
      case Asking(_) => 3
      case Answered(_) => 4
      case Recording(_, _) => 5
      case Recorded(_) => 6
      case Failing(_) => 7
      case Queueing(_) => 8
      case Leaving => 9
  }

  function Moves(events: seq<Event>): nat {
    if events == [] then 0 else (if events[0].Complain? then 0 else 1) + Moves(events[1..])
  }

  lemma TaskWorks(cfg: Config, s: State, e: Event)
    requires Shape(cfg, s) && Next(cfg, s, e).Some? && !e.Complain?
    ensures Work(Next(cfg, s, e).value.tasks[e.task]) >= Work(s.tasks[e.task]) + 1
  {
    assert TaskShape(s.tasks[e.task]);
  }

  lemma WorkStep(cfg: Config, s: State, e: Event)
    requires Shape(cfg, s) && LockInv(cfg, s) && Next(cfg, s, e).Some? && !e.Complain?
    ensures Sum(Next(cfg, s, e).value.tasks, Work) >= Sum(s.tasks, Work) + 1
  {
    var s' := Next(cfg, s, e).value;
    StepEffect(cfg, s, e);
    TaskWorks(cfg, s, e);
    SumUpdate(s.tasks, e.task, s'.tasks[e.task], Work);
  }

  lemma {:induction false} MovesBounded(cfg: Config, s: State, events: seq<Event>)
    requires DistinctProbes(cfg) && Inv(cfg, s) && Run(cfg, s, events).Some?
    ensures Sum(s.tasks, Work) + Moves(events) <= Sum(Run(cfg, s, events).value.tasks, Work)
    decreases |events|
  {
    if events != [] {
      InvStep(cfg, s, events[0]);
      MovesBounded(cfg, Next(cfg, s, events[0]).value, events[1..]);
      if !events[0].Complain? {
        WorkStep(cfg, s, events[0]);
      }
    }
  }

  /** No run moves more than ten times per call; with NoDeadlock, every maximal run reaches the join. */
  lemma RunsAreBounded(cfg: Config, events: seq<Event>)
    requires DistinctProbes(cfg) && Run(cfg, Start(cfg), events).Some?
    ensures Moves(events) <= STEPS_PER_ARM * ARM_COUNT * |cfg.probes|
  {
    StartInv(cfg);
    RunKeepsInv(cfg, Start(cfg), events);
    MovesBounded(cfg, Start(cfg), events);
    var s := Run(cfg, Start(cfg), events).value;
    forall i | 0 <= i < |s.tasks| ensures Work(s.tasks[i]) <= STEPS_PER_ARM * ARM_COUNT {
      assert TaskShape(s.tasks[i]);
    }
    SumAtMost(s.tasks, Work, STEPS_PER_ARM * ARM_COUNT);
  }

  lemma {:induction false} SumAtMost(tasks: seq<Task>, f: Task -> nat, c: nat)
    requires forall i | 0 <= i < |tasks| :: f(tasks[i]) <= c
    ensures Sum(tasks, f) <= c * |tasks|
  {
    if tasks != [] {
      SumAtMost(tasks[1..], f, c);
    }
  }
}
