/** What the first pass hands on, read off the events of the run alone. */
module PassOneJoin {
  import opened Wrappers
  import opened MemoryCalls
  import opened ParallelPass
  import Text

  // ---- what the events say ----

  const ARMS := [Full, Ablated, Control]

  function ArmNumber(n: nat): Arm {
    if n < |ARMS| then ARMS[n] else Control
  }

  /** What the model calls of task i returned, oldest first. */
  function Answers(events: seq<Event>, i: nat): seq<Graded> {
    if events == [] then []
    else
      var front, e := events[..|events| - 1], events[|events| - 1];
      Answers(front, i) + if e.Answer? && e.task == i then [e.call] else []
  }

  /** Every complaint, oldest first, under its task's probe and the arm whose answer was still awaited. */
  function Logged(probes: seq<Probe>, events: seq<Event>): seq<Complaint> {
    if events == [] then []
    else
      var front, e := events[..|events| - 1], events[|events| - 1];
      Logged(probes, front)
      + if e.Complain? && e.task < |probes|
        then [Complaint(probes[e.task].probeId, ArmNumber(|Answers(front, e.task)|), e.lines)] else []
  }

  // ---- the last complaint about a call, and why the call failed ----

  predicate About(errors: seq<Complaint>, j: nat, probe: string, arm: Arm) {
    j < |errors| && errors[j].probe == probe && errors[j].arm == arm
  }

  ghost predicate LastAbout(errors: seq<Complaint>, j: nat, probe: string, arm: Arm) {
    About(errors, j, probe, arm) && forall k: nat | j < k :: !About(errors, k, probe, arm)
  }

  /** The lines of the last complaint about the call; none without a complaint. */
  ghost predicate LastLines(errors: seq<Complaint>, probe: string, arm: Arm, lines: seq<string>) {
    && (forall j: nat | LastAbout(errors, j, probe, arm) :: lines == errors[j].lines)
    && ((forall j: nat :: !About(errors, j, probe, arm)) ==> lines == [])
  }

  lemma {:induction false} LastComplaint(errors: seq<Complaint>, probe: string, arm: Arm)
    ensures LastLines(errors, probe, arm, AskErrorLines(errors, (probe, arm)))
  {
    if errors != [] {
      var front, last := errors[..|errors| - 1], |errors| - 1;
      LastComplaint(front, probe, arm);
      assert forall j: nat | j < last :: About(front, j, probe, arm) <==> About(errors, j, probe, arm);
      if About(errors, last, probe, arm) {
        assert forall j: nat | LastAbout(errors, j, probe, arm) :: !(j < last);
      } else {
        forall j: nat | LastAbout(errors, j, probe, arm) ensures LastAbout(front, j, probe, arm) {
        }
      }
    }
  }

  /** Some line of the last complaint about the call holds the code of a response-contract rejection. */
  ghost predicate ContractRejected(errors: seq<Complaint>, probe: string, arm: Arm) {
    exists j: nat, l: nat, k: nat :: LastAbout(errors, j, probe, arm) && CodeAt(errors[j].lines, l, k)
  }

  predicate CodeAt(lines: seq<string>, l: nat, k: nat) {
    l < |lines| && k + 21 <= |lines[l]| && lines[l][k..k + 21] == "chat_response_invalid"
  }

  lemma ClassifyIff(lines: seq<string>)
    ensures ClassifyEmptyFailure(lines) == Contract <==> exists l: nat, k: nat :: CodeAt(lines, l, k)
  {
    forall line ensures Text.Contains(line, "chat_response_invalid")
                        <==> exists k: nat :: Text.OccursAt(line, "chat_response_invalid", k) {
      Text.ContainsIff(line, "chat_response_invalid");
    }
    if line :| line in lines && Text.Contains(line, "chat_response_invalid") {
      var l :| 0 <= l < |lines| && lines[l] == line;
      var k: nat :| Text.OccursAt(line, "chat_response_invalid", k);
      assert CodeAt(lines, l, k);
    }
    if l: nat, k: nat :| CodeAt(lines, l, k) {
      assert lines[l] in lines && Text.OccursAt(lines[l], "chat_response_invalid", k);
    }
  }

  lemma {:induction false} SomeLastAbout(errors: seq<Complaint>, j: nat, probe: string, arm: Arm) returns (last: nat)
    requires About(errors, j, probe, arm)
    ensures LastAbout(errors, last, probe, arm)
    decreases |errors| - j
  {
    last := j;
    if k: nat :| j < k && About(errors, k, probe, arm) {
      last := SomeLastAbout(errors, k, probe, arm);
    }
  }

  lemma RejectedIff(errors: seq<Complaint>, probe: string, arm: Arm)
    ensures ClassifyEmptyFailure(AskErrorLines(errors, (probe, arm))) == Contract <==> ContractRejected(errors, probe, arm)
  {
    var lines := AskErrorLines(errors, (probe, arm));
    LastComplaint(errors, probe, arm);
    ClassifyIff(lines);
    if l: nat, k: nat :| CodeAt(lines, l, k) {
      var about: nat :| About(errors, about, probe, arm);
      var j := SomeLastAbout(errors, about, probe, arm);
      assert CodeAt(errors[j].lines, l, k);
    }
    if j: nat, l: nat, k: nat :| LastAbout(errors, j, probe, arm) && CodeAt(errors[j].lines, l, k) {
      assert CodeAt(lines, l, k);
    }
  }

  /** The line up to its first colon; all of it when it has none. */
  predicate UpToColon(line: string, head: string) {
    head <= line && ':' !in head && (|head| < |line| ==> line[|head|] == ':')
  }

  lemma {:induction false} BeforeColonIs(line: string)
    ensures UpToColon(line, BeforeColon(line))
  {
    if line != [] && line[0] != ':' {
      BeforeColonIs(line[1..]);
      assert line == [line[0]] + line[1..];
    }
  }

  /** The trimmed code the first line starts with; a fixed word without a line or without a code. */
  ghost predicate IsReason(lines: seq<string>, reason: string) {
    if lines == [] then reason == "empty_reply"
    else exists head, code :: UpToColon(lines[0], head) && Text.Trimmed(head, code)
                              && reason == if code == "" then "empty_reply" else code
  }

  lemma ReasonIs(lines: seq<string>)
    ensures IsReason(lines, EmptyFailureReason(lines))
  {
    if lines != [] {
      BeforeColonIs(lines[0]);
      Text.StripTrims(BeforeColon(lines[0]));
    }
  }

  // ---- rows and queue entries of a call ----

  ghost function RowsOf(recorded: seq<Row>, probe: string, arm: Arm): set<int> {
    set r | 0 <= r < |recorded| && recorded[r].probe == probe && recorded[r].arm == arm
  }

  ghost function EntriesOf(failed: seq<FailedCall>, probe: string, arm: Arm): set<int> {
    set k | 0 <= k < |failed| && failed[k].probe.probeId == probe && failed[k].arm == arm
  }

  predicate LeftUnanswered(reply: Reply) {
    reply.outcome == NoAnswer || forall c | c in reply.text :: Text.IsSpace(c)
  }

  /** Only the ablated arm masks a scope: the one the probe targets. */
  predicate Masks(probe: Probe, arm: Arm, masked: Option<string>) {
    && (arm == Ablated ==> masked == Some(probe.targets))
    && (arm != Ablated ==> masked == None)
  }

  predicate RowTells(row: Row, probe: Probe, arm: Arm, call: Graded) {
    && row.probe == probe.probeId && row.targets == probe.targets && row.question == probe.question
    && row.arm == arm && Masks(probe, arm, row.masked)
    && row.reply == call.reply && row.why == call.why
  }

  ghost predicate EntryTells(entry: FailedCall, probe: Probe, arm: Arm, errors: seq<Complaint>) {
    && entry.probe == probe && entry.arm == arm && Masks(probe, arm, entry.masked)
    && exists lines :: LastLines(errors, probe.probeId, arm, lines) && IsReason(lines, entry.errorReason)
  }

  ghost predicate OneRow(recorded: seq<Row>, probe: Probe, arm: Arm, call: Graded) {
    exists r :: RowsOf(recorded, probe.probeId, arm) == {r} && RowTells(recorded[r], probe, arm, call)
  }

  ghost predicate OneEntry(failed: seq<FailedCall>, probe: Probe, arm: Arm, errors: seq<Complaint>) {
    exists k :: EntriesOf(failed, probe.probeId, arm) == {k} && EntryTells(failed[k], probe, arm, errors)
  }

  /**
   One transcript row with the answer; one queue entry when the answer was empty and the last complaint was
   no contract rejection; no entry otherwise.
   */
  ghost predicate CallSettled(s: State, probe: Probe, arm: Arm, call: Graded) {
    && OneRow(s.recorded, probe, arm, call)
    && if LeftUnanswered(call.reply) && !ContractRejected(s.askErrors, probe.probeId, arm)
       then OneEntry(s.failed, probe, arm, s.askErrors)
       else EntriesOf(s.failed, probe.probeId, arm) == {}
  }

  /** Every task had three answers, each of them settled; nothing else is in the transcript or in the queue. */
  ghost predicate JoinStates(cfg: Config, events: seq<Event>, s: State) {
    && s.askErrors == Logged(cfg.probes, events)
    && |s.recorded| == 3 * |cfg.probes|
    && (forall k | 0 <= k < |s.failed| :: s.failed[k].probe in cfg.probes)
    && |s.tasks| == |cfg.probes|
    && forall i | 0 <= i < |cfg.probes| ::
         var calls := Answers(events, i);
         && |calls| == 3
         && s.tasks[i].results == [calls[0].reply, calls[1].reply, calls[2].reply]
         && forall a | 0 <= a < 3 :: CallSettled(s, cfg.probes[i], ARMS[a], calls[a])
  }

  // ---- that every run keeps to its events ----

  predicate HasAnswer(p: Phase) {
    !(p.Waiting? || p.Permitted? || p.Counting? || p.Asking?)
  }

  ghost predicate TaskHistory(cfg: Config, s: State, i: nat, calls: seq<Graded>)
    requires Shape(cfg, s) && i < |s.tasks|
  {
    var t := s.tasks[i];
    RepliesOf(t, calls) && forall a | 0 <= a < Written(t) :: RowGot(cfg, s.recorded, i, a, calls[a])
  }

  /** The task's replies are those of its calls, and so is the one it has not filed yet. */
  predicate RepliesOf(t: Task, calls: seq<Graded>) {
    && |calls| == t.arm + (if HasAnswer(t.phase) then 1 else 0)
    && |t.results| <= |calls| && Written(t) <= |calls|
    && (forall a | 0 <= a < |t.results| :: t.results[a] == calls[a].reply)
    && (t.phase.Answered? || t.phase.Recording? || t.phase.Recorded? ==> t.phase.call == calls[t.arm])
  }

  ghost predicate RowGot(cfg: Config, recorded: seq<Row>, i: nat, a: nat, call: Graded)
    requires i < |cfg.probes|
  {
    Lookup(recorded, CallAt(cfg, i, a)) == Some(RowFor(cfg.probes[i], ArmAt(a), MaskedScope(cfg.probes[i], ArmAt(a)), call))
  }

  ghost predicate History(cfg: Config, s: State, events: seq<Event>)
    requires Shape(cfg, s)
  {
    && s.askErrors == Logged(cfg.probes, events)
    && forall i | 0 <= i < |s.tasks| :: TaskHistory(cfg, s, i, Answers(events, i))
  }

  lemma {:induction false} RunAppend(cfg: Config, s: State, events: seq<Event>, e: Event)
    ensures Run(cfg, s, events + [e])
            == if Run(cfg, s, events).None? then None else Next(cfg, Run(cfg, s, events).value, e)
    decreases |events|
  {
    if events == [] {
      assert [e][1..] == [];
    } else {
      assert (events + [e])[1..] == events[1..] + [e];
      var next := Next(cfg, s, events[0]);
      if next.Some? {
        RunAppend(cfg, next.value, events[1..], e);
      }
    }
  }

  lemma AnswersAppend(probes: seq<Probe>, events: seq<Event>, e: Event, i: nat)
    ensures Answers(events + [e], i) == Answers(events, i) + if e.Answer? && e.task == i then [e.call] else []
    ensures Logged(probes, events + [e])
            == Logged(probes, events)
               + if e.Complain? && e.task < |probes|
                 then [Complaint(probes[e.task].probeId, ArmNumber(|Answers(events, e.task)|), e.lines)] else []
  {
    assert (events + [e])[..|events|] == events;
  }

  /** The row written last is the one of the stepping call; all other rows stay. */
  lemma RowsAfterStep(cfg: Config, s: State, e: Event, j: nat, a: nat, call: Graded)
    requires DistinctProbes(cfg) && Inv(cfg, s) && Next(cfg, s, e).Some?
    requires j < |s.tasks| && a < ARM_COUNT
    requires RowGot(cfg, s.recorded, j, a, call)
    requires Writes(s, e) ==> !(j == e.task && a == s.tasks[j].arm)
    ensures RowGot(cfg, Next(cfg, s, e).value.recorded, j, a, call)
  {
    ShapeStep(cfg, s, e);
    StepEffect(cfg, s, e);
    if Writes(s, e) {
      var i, t := e.task, s.tasks[e.task];
      CallsDistinct(cfg, j, a, i, t.arm);
      RowWritten(cfg, s, i);
    }
  }

  lemma RowWritten(cfg: Config, s: State, i: nat)
    requires Inv(cfg, s) && i < |s.tasks| && s.tasks[i].phase.Recording? && Next(cfg, s, Advance(i)).Some?
    ensures var t, s' := s.tasks[i], Next(cfg, s, Advance(i)).value;
            && RowGot(cfg, s'.recorded, i, t.arm, t.phase.call)
            && forall k | k != CallAt(cfg, i, t.arm) :: Lookup(s'.recorded, k) == Lookup(s.recorded, k)
  {
    var t := s.tasks[i];
    assert TaskShape(t);
    UpsertIsTableWrite(s.recorded, RowFor(cfg.probes[i], ArmAt(t.arm), MaskedScope(cfg.probes[i], ArmAt(t.arm)), t.phase.call));
  }

  lemma RepliesStep(cfg: Config, s: State, e: Event, calls: seq<Graded>)
    requires Shape(cfg, s) && Next(cfg, s, e).Some? && RepliesOf(s.tasks[e.task], calls)
    ensures RepliesOf(Next(cfg, s, e).value.tasks[e.task], calls + if e.Answer? then [e.call] else [])
  {
    assert TaskShape(s.tasks[e.task]);
    assert !e.Answer? ==> calls + [] == calls;
  }

  lemma RowsStep(cfg: Config, s: State, e: Event, i: nat, calls: seq<Graded>)
    requires DistinctProbes(cfg) && Inv(cfg, s) && Next(cfg, s, e).Some? && Shape(cfg, Next(cfg, s, e).value)
    requires i < |s.tasks| && TaskHistory(cfg, s, i, calls)
    ensures var s' := Next(cfg, s, e).value;
            Written(s'.tasks[i]) <= |calls| + (if e.Answer? && e.task == i then 1 else 0)
            && forall a | 0 <= a < Written(s'.tasks[i]) :: a < |calls| && RowGot(cfg, s'.recorded, i, a, calls[a])
  {
    var s' := Next(cfg, s, e).value;
    ShapeStep(cfg, s, e);
    StepEffect(cfg, s, e);
    assert TaskShape(s.tasks[i]);
    forall a | 0 <= a < Written(s.tasks[i]) ensures RowGot(cfg, s'.recorded, i, a, calls[a]) {
      RowsAfterStep(cfg, s, e, i, a, calls[a]);
    }
    if Writes(s, e) && e.task == i {
      RowWritten(cfg, s, i);
    }
  }

  lemma TaskHistoryStep(cfg: Config, s: State, e: Event, i: nat, calls: seq<Graded>)
    requires DistinctProbes(cfg) && Inv(cfg, s) && Next(cfg, s, e).Some? && Shape(cfg, Next(cfg, s, e).value)
    requires i < |s.tasks| && TaskHistory(cfg, s, i, calls)
    ensures TaskHistory(cfg, Next(cfg, s, e).value, i, calls + if e.Answer? && e.task == i then [e.call] else [])
  {
    ShapeStep(cfg, s, e);
    RowsStep(cfg, s, e, i, calls);
    assert e.task == i ==> RepliesOf(Next(cfg, s, e).value.tasks[i], calls + if e.Answer? then [e.call] else []) by {
      if e.task == i {
        RepliesStep(cfg, s, e, calls);
      }
    }
    assert calls + [] == calls;
  }

  lemma HistoryStep(cfg: Config, s: State, events: seq<Event>, e: Event)
    requires DistinctProbes(cfg) && Inv(cfg, s) && Next(cfg, s, e).Some? && Shape(cfg, Next(cfg, s, e).value)
    requires History(cfg, s, events)
    ensures History(cfg, Next(cfg, s, e).value, events + [e])
  {
    var s' := Next(cfg, s, e).value;
    forall i | 0 <= i < |s'.tasks| ensures TaskHistory(cfg, s', i, Answers(events + [e], i)) {
      AnswersAppend(cfg.probes, events, e, i);
      TaskHistoryStep(cfg, s, e, i, Answers(events, i));
    }
    AnswersAppend(cfg.probes, events, e, e.task);
    assert TaskHistory(cfg, s, e.task, Answers(events, e.task)) && TaskShape(s.tasks[e.task]);
  }

  lemma {:induction false} RunKeepsHistory(cfg: Config, events: seq<Event>)
    requires DistinctProbes(cfg) && Run(cfg, Start(cfg), events).Some?
    ensures Inv(cfg, Run(cfg, Start(cfg), events).value)
    ensures History(cfg, Run(cfg, Start(cfg), events).value, events)
  {
    if events == [] {
      StartInv(cfg);
    } else {
      var front, e := events[..|events| - 1], events[|events| - 1];
      assert events == front + [e];
      RunAppend(cfg, Start(cfg), front, e);
      RunKeepsHistory(cfg, front);
      var s := Run(cfg, Start(cfg), front).value;
      InvStep(cfg, s, e);
      HistoryStep(cfg, s, front, e);
    }
  }

  // ---- at the join ----

  lemma OneRowIs(cfg: Config, recorded: seq<Row>, i: nat, a: nat, call: Graded)
    requires DistinctRows(recorded) && i < |cfg.probes| && a < ARM_COUNT && RowGot(cfg, recorded, i, a, call)
    ensures OneRow(recorded, cfg.probes[i], ARMS[a], call)
  {
    var r := FindRow(recorded, CallAt(cfg, i, a)).value;
    LookupUnique(recorded, CallAt(cfg, i, a));
    forall k | k in RowsOf(recorded, cfg.probes[i].probeId, ARMS[a]) ensures k == r {
      assert RowKey(recorded[k]) == CallAt(cfg, i, a);
    }
    assert RowsOf(recorded, cfg.probes[i].probeId, ARMS[a]) == {r};
  }

  lemma QueueIs(cfg: Config, s: State, i: nat, a: nat)
    requires Delivered(cfg, s) && i < |cfg.probes| && a < ARM_COUNT
    ensures var probe, arm := cfg.probes[i], ARMS[a];
            if LeftUnanswered(s.tasks[i].results[a]) && !ContractRejected(s.askErrors, probe.probeId, arm)
            then OneEntry(s.failed, probe, arm, s.askErrors)
            else EntriesOf(s.failed, probe.probeId, arm) == {}
  {
    var probe, arm, key := cfg.probes[i], ARMS[a], CallAt(cfg, i, a);
    assert QueuedExactly(cfg, s, i, a);
    RejectedIff(s.askErrors, probe.probeId, arm);
    if LeftUnanswered(s.tasks[i].results[a]) && !ContractRejected(s.askErrors, probe.probeId, arm) {
      var call :| call in s.failed && CallKey(call) == key;
      var k :| 0 <= k < |s.failed| && s.failed[k] == call;
      EntryIs(cfg, s, i, a, k);
      assert EntriesOf(s.failed, probe.probeId, arm) == {k};
    } else {
      forall k: nat | k < |s.failed| ensures CallKey(s.failed[k]) != key {
        assert s.failed[k] in s.failed;
      }
      assert EntriesOf(s.failed, probe.probeId, arm) == {};
    }
  }

  lemma EntryIs(cfg: Config, s: State, i: nat, a: nat, k: nat)
    requires Delivered(cfg, s) && i < |cfg.probes| && a < ARM_COUNT
    requires k < |s.failed| && CallKey(s.failed[k]) == CallAt(cfg, i, a)
    ensures EntryTells(s.failed[k], cfg.probes[i], ARMS[a], s.askErrors)
  {
    var lines := AskErrorLines(s.askErrors, CallAt(cfg, i, a));
    assert QueuedExactly(cfg, s, i, a);
    assert s.failed[k] in s.failed;
    LastComplaint(s.askErrors, cfg.probes[i].probeId, ARMS[a]);
    ReasonIs(lines);
  }

  lemma SettledAtJoin(cfg: Config, events: seq<Event>, s: State, i: nat)
    requires Shape(cfg, s) && Joined(s) && Delivered(cfg, s) && History(cfg, s, events) && i < |cfg.probes|
    ensures var calls := Answers(events, i);
            && |calls| == 3
            && s.tasks[i].results == [calls[0].reply, calls[1].reply, calls[2].reply]
            && forall a | 0 <= a < 3 :: CallSettled(s, cfg.probes[i], ARMS[a], calls[a])
  {
    var calls := Answers(events, i);
    assert TaskShape(s.tasks[i]) && TaskHistory(cfg, s, i, calls);
    forall a | 0 <= a < 3 ensures CallSettled(s, cfg.probes[i], ARMS[a], calls[a]) {
      assert RowGot(cfg, s.recorded, i, a, calls[a]);
      OneRowIs(cfg, s.recorded, i, a, calls[a]);
      QueueIs(cfg, s, i, a);
    }
  }

  /** The join, for every interleaving: transcript, complaints and queue are what the events of each task say. */
  lemma JoinFollowsEvents(cfg: Config, events: seq<Event>)
    requires DistinctProbes(cfg) && Run(cfg, Start(cfg), events).Some?
    requires Joined(Run(cfg, Start(cfg), events).value)
    ensures JoinStates(cfg, events, Run(cfg, Start(cfg), events).value)
  {
    var s := Run(cfg, Start(cfg), events).value;
    RunKeepsHistory(cfg, events);
    InvDelivers(cfg, s);
    forall i | 0 <= i < |cfg.probes|
      ensures var calls := Answers(events, i);
              && |calls| == 3
              && s.tasks[i].results == [calls[0].reply, calls[1].reply, calls[2].reply]
              && forall a | 0 <= a < 3 :: CallSettled(s, cfg.probes[i], ARMS[a], calls[a])
    {
      SettledAtJoin(cfg, events, s, i);
    }
  }
}
