/** The second pass: bounded, one-by-one retries of the queued calls, and the rows assembled from both passes. */
module RecoveryPass {
  import opened Wrappers
  import opened MemoryCalls
  import P = ParallelPass
  import J = PassOneJoin

  type ArmMap = map<string, map<Arm, Reply>>

  /** What `ask_live` does in the end: it returns a text and its latency, or raises after some time. */
  datatype Asked = Returned(text: string, latencyMs: nat) | Raised(message: string, latencyMs: nat)

  /** Everything one model call does, seen from outside; `wallMs` is the time the evaluator itself measured. */
  datatype CallOutcome = CallOutcome(complaints: seq<seq<string>>, reachesSeeding: bool, asked: Asked, wallMs: nat)

  datatype Scored = Scored(outcome: Outcome, certain: bool, why: string)

  /** The environment: what the k-th call of the pass will do, and how replies are scored. */
  datatype Oracle = Oracle(call: nat -> CallOutcome, score: (string, Probe) -> Scored)

  /** The reply as `execute_single_arm` hands it on: an exception reads as no text, a latency of zero as unmeasured. */
  function GradedCall(oracle: Oracle, k: nat, probe: Probe): Graded {
    var outcome := oracle.call(k);
    var text := if outcome.asked.Raised? then "" else outcome.asked.text;
    var scored := oracle.score(text, probe);
    Graded(Reply(scored.outcome, scored.certain, if outcome.asked.latencyMs == 0 then outcome.wallMs else outcome.asked.latencyMs, text),
           scored.why)
  }

  /** The complaints of the call; an exception adds one of its own at the end. */
  function CallComplaints(oracle: Oracle, k: nat): seq<seq<string>> {
    var outcome := oracle.call(k);
    outcome.complaints + if outcome.asked.Raised? then [["exception: " + outcome.asked.message]] else []
  }

  datatype Store = Store(
    recorded: seq<Row>,
    armMap: ArmMap,
    askErrors: seq<Complaint>,
    seeded: set<string>,
    calls: nat,              // model calls made so far in this pass
    slept: nat)              // seconds of backoff so far in this pass

  function ArmValue(arm: Arm): string {
    match arm
    case Full => "full"
    case Ablated => "ablated"
    case Control => "control"
  }

  /** The key the recovery loop discards from the seeded set. */
  function ScopeSessionId(namespace: string, probe: Probe, arm: Arm): string {
    namespace + "-" + probe.probeId + "-" + ArmValue(arm)
  }

  /** The key under which a session is actually marked as seeded. */
  function SessionIdFor(namespace: string, probe: Probe, arm: Arm): string {
    "memeval-" + namespace + "-" + probe.probeId + "-" + ArmValue(arm)
  }

  function Complaints(probe: Probe, arm: Arm, lines: seq<seq<string>>): seq<Complaint> {
    seq(|lines|, i requires 0 <= i < |lines| => Complaint(probe.probeId, arm, lines[i]))
  }

  /** The control arm is never seeded, and a call may fail before it gets there. */
  function SeededBy(oracle: Oracle, k: nat, namespace: string, probe: Probe, arm: Arm): set<string> {
    if arm == Control || !oracle.call(k).reachesSeeding then {} else {SessionIdFor(namespace, probe, arm)}
  }

  lemma ComplaintsConcat(oracle: Oracle, k: nat, probe: Probe, arm: Arm)
    ensures var outcome := oracle.call(k);
            Complaints(probe, arm, CallComplaints(oracle, k))
            == Complaints(probe, arm, outcome.complaints)
               + if outcome.asked.Raised? then [Complaint(probe.probeId, arm, ["exception: " + outcome.asked.message])] else []
  {
  }

  /** `execute_single_arm`: ask, note complaints, and write the transcript row. */
  function AskOnce(oracle: Oracle, namespace: string, store: Store, probe: Probe, arm: Arm, masked: Option<string>): Store {
    store.(
      recorded := Upsert(store.recorded, RowFor(probe, arm, masked, GradedCall(oracle, store.calls, probe))),
      askErrors := store.askErrors + Complaints(probe, arm, CallComplaints(oracle, store.calls)),
      seeded := store.seeded + SeededBy(oracle, store.calls, namespace, probe, arm),
      calls := store.calls + 1)
  }

  function BackOff(namespace: string, store: Store, call: FailedCall, attempt: nat): Store {
    store.(slept := store.slept + 2 * attempt,
           seeded := store.seeded - {ScopeSessionId(namespace, call.probe, call.arm)})
  }

  function SetReply(armMap: ArmMap, key: Key, reply: Reply): ArmMap
    requires key.0 in armMap
  {
    armMap[key.0 := armMap[key.0][key.1 := reply]]
  }

  function AfterAttempt(oracle: Oracle, namespace: string, store: Store, call: FailedCall, attempt: nat): Store
    requires call.probe.probeId in store.armMap
  {
    var asked := AskOnce(oracle, namespace, BackOff(namespace, store, call, attempt), call.probe, call.arm, call.masked);
    var reply := GradedCall(oracle, store.calls, call.probe).reply;
    if Unanswered(reply) then asked else asked.(armMap := SetReply(asked.armMap, CallKey(call), reply))
  }

  /** Attempts `attempt`, `attempt + 1`, ... up to the limit, stopping at the first answer. */
  function Retry(oracle: Oracle, namespace: string, store: Store, call: FailedCall, attempt: nat, limit: int): (Store, bool)
    requires call.probe.probeId in store.armMap
    decreases limit - attempt
  {
    if attempt > limit then (store, false)
    else
      var after := AfterAttempt(oracle, namespace, store, call, attempt);
      if Unanswered(GradedCall(oracle, store.calls, call.probe).reply) then Retry(oracle, namespace, after, call, attempt + 1, limit)
      else (after, true)
  }

  lemma RetryStep(oracle: Oracle, namespace: string, store: Store, call: FailedCall, attempt: nat, limit: int)
    requires call.probe.probeId in store.armMap && attempt <= limit
    ensures var after := AfterAttempt(oracle, namespace, store, call, attempt);
            && call.probe.probeId in after.armMap
            && Retry(oracle, namespace, store, call, attempt, limit) ==
               if Unanswered(GradedCall(oracle, store.calls, call.probe).reply)
               then Retry(oracle, namespace, after, call, attempt + 1, limit)
               else (after, true)
  {
  }

  ghost predicate Known(armMap: ArmMap, failed: seq<FailedCall>) {
    forall k | 0 <= k < |failed| :: failed[k].probe.probeId in armMap
  }

  lemma {:induction false} RetryKeepsProbes(oracle: Oracle, namespace: string, store: Store, call: FailedCall, attempt: nat, limit: int)
    requires call.probe.probeId in store.armMap
    ensures Retry(oracle, namespace, store, call, attempt, limit).0.armMap.Keys == store.armMap.Keys
    decreases limit - attempt
  {
    if attempt <= limit {
      var asked := AskOnce(oracle, namespace, BackOff(namespace, store, call, attempt), call.probe, call.arm, call.masked);
      if Unanswered(GradedCall(oracle, store.calls, call.probe).reply) {
        RetryKeepsProbes(oracle, namespace, asked, call, attempt + 1, limit);
      }
    }
  }

  /** The whole pass: what the store becomes, and which calls remain failed. */
  function Recover(oracle: Oracle, namespace: string, store: Store, failed: seq<FailedCall>, limit: int): (Store, seq<FailedCall>)
    requires Known(store.armMap, failed)
    decreases |failed|
  {
    if failed == [] then (store, [])
    else
      var (retried, recovered) := Retry(oracle, namespace, store, failed[0], 1, limit);
      RetryKeepsProbes(oracle, namespace, store, failed[0], 1, limit);
      assert Known(retried.armMap, failed[1..]);
      var (final, remaining) := Recover(oracle, namespace, retried, failed[1..], limit);
      (final, if recovered then remaining else [failed[0]] + remaining)
  }

  // ---- the pass as the source runs it ----

  class Session {
    const namespace: string
    var recorded: seq<Row>
    var probeArmMap: ArmMap
    var askErrors: seq<Complaint>
    var seeded: set<string>
    var calls: nat
    var slept: nat

    constructor (namespace: string, recorded: seq<Row>, probeArmMap: ArmMap, askErrors: seq<Complaint>, seeded: set<string>)
      ensures this.namespace == namespace
      ensures Contents() == Store(recorded, probeArmMap, askErrors, seeded, 0, 0)
    {
      this.namespace := namespace;
      this.recorded, this.probeArmMap, this.askErrors, this.seeded := recorded, probeArmMap, askErrors, seeded;
      calls, slept := 0, 0;
    }

    ghost function Contents(): Store
      reads this
    {
      Store(recorded, probeArmMap, askErrors, seeded, calls, slept)
    }

    /** The model call: complaints are noted, the session is marked as seeded, and an exception reads as no text. */
    method AskLive(oracle: Oracle, probe: Probe, arm: Arm) returns (graded: Graded)
      modifies this`askErrors, this`seeded, this`calls
      ensures graded == GradedCall(oracle, old(calls), probe)
      ensures askErrors == old(askErrors) + Complaints(probe, arm, CallComplaints(oracle, old(calls)))
      ensures seeded == old(seeded) + SeededBy(oracle, old(calls), namespace, probe, arm)
      ensures calls == old(calls) + 1
    {
      var outcome := oracle.call(calls);
      seeded := seeded + SeededBy(oracle, calls, namespace, probe, arm);
      ComplaintsConcat(oracle, calls, probe, arm);
      var lines := Complaints(probe, arm, outcome.complaints);
      var text, latency := "", outcome.asked.latencyMs;
      if outcome.asked.Returned? {
        text := outcome.asked.text;
      } else {
        lines := lines + [Complaint(probe.probeId, arm, ["exception: " + outcome.asked.message])];
      }
      askErrors := askErrors + lines;
      if latency == 0 {
        latency := outcome.wallMs;
      }
      var scored := oracle.score(text, probe);
      graded := Graded(Reply(scored.outcome, scored.certain, latency, text), scored.why);
      calls := calls + 1;
    }

    method ExecuteSingleArm(oracle: Oracle, probe: Probe, arm: Arm, masked: Option<string>) returns (reply: Reply)
      modifies this
      ensures Contents() == AskOnce(oracle, namespace, old(Contents()), probe, arm, masked)
      ensures reply == GradedCall(oracle, old(calls), probe).reply
    {
      var graded := AskLive(oracle, probe, arm);
      var row := RowFor(probe, arm, masked, graded);
      var existing := FindRow(recorded, RowKey(row));
      if existing.Some? {
        recorded := recorded[existing.value := row];
      } else {
        recorded := recorded + [row];
      }
      reply := graded.reply;
    }

    /** One attempt: back off, discard the key, ask, and keep an answer in the arm map. */
    method RetryOnce(oracle: Oracle, call: FailedCall, attempt: nat) returns (answered: bool)
      requires call.probe.probeId in probeArmMap
      modifies this
      ensures answered == !Unanswered(GradedCall(oracle, old(calls), call.probe).reply)
      ensures Contents() == AfterAttempt(oracle, namespace, old(Contents()), call, attempt)
    {
      slept := slept + 2 * attempt;
      seeded := seeded - {ScopeSessionId(namespace, call.probe, call.arm)};
      var reply := ExecuteSingleArm(oracle, call.probe, call.arm, call.masked);
      answered := !Unanswered(reply);
      if answered {
        probeArmMap := SetReply(probeArmMap, CallKey(call), reply);
      }
    }

    method RetryCall(oracle: Oracle, call: FailedCall, maxAttempts: int) returns (recovered: bool)
      requires call.probe.probeId in probeArmMap
      modifies this
      ensures (Contents(), recovered) == Retry(oracle, namespace, old(Contents()), call, 1, maxAttempts)
    {
      var attempt := 1;
      while attempt <= maxAttempts
        invariant attempt >= 1
        invariant call.probe.probeId in probeArmMap
        invariant Retry(oracle, namespace, Contents(), call, attempt, maxAttempts)
                  == Retry(oracle, namespace, old(Contents()), call, 1, maxAttempts)
        decreases maxAttempts - attempt
      {
        RetryStep(oracle, namespace, Contents(), call, attempt, maxAttempts);
        var answered := RetryOnce(oracle, call, attempt);
        if answered {
          return true;
        }
        attempt := attempt + 1;
      }
      return false;
    }

    method RunRecoveryPass(oracle: Oracle, failedCalls: seq<FailedCall>, maxAttempts: int) returns (remaining: seq<FailedCall>)
      requires Known(probeArmMap, failedCalls)
      modifies this
      ensures (Contents(), remaining) == Recover(oracle, namespace, old(Contents()), failedCalls, maxAttempts)
    {
      remaining := [];
      assert failedCalls[0..] == failedCalls;
      assert [] + Recover(oracle, namespace, Contents(), failedCalls, maxAttempts).1
             == Recover(oracle, namespace, Contents(), failedCalls, maxAttempts).1;
      for i := 0 to |failedCalls|
        invariant Known(probeArmMap, failedCalls[i..])
        invariant Recover(oracle, namespace, old(Contents()), failedCalls, maxAttempts)
                  == var (final, rest) := Recover(oracle, namespace, Contents(), failedCalls[i..], maxAttempts);
                     (final, remaining + rest)
      {
        RetryKeepsProbes(oracle, namespace, Contents(), failedCalls[i], 1, maxAttempts);
        ghost var before := remaining;
        assert failedCalls[i..][0] == failedCalls[i] && failedCalls[i..][1..] == failedCalls[i + 1..];
        var recovered := RetryCall(oracle, failedCalls[i], maxAttempts);
        if !recovered {
          remaining := remaining + [failedCalls[i]];
        }
        ghost var rest := Recover(oracle, namespace, Contents(), failedCalls[i + 1..], maxAttempts).1;
        assert !recovered ==> before + ([failedCalls[i]] + rest) == remaining + rest;
      }
      assert failedCalls[|failedCalls|..] == [];
      assert remaining + [] == remaining;
    }
  }

  // ---- what a retry does ----

  function MapAt(armMap: ArmMap, key: Key): Option<Reply> {
    if key.0 in armMap && key.1 in armMap[key.0] then Some(armMap[key.0][key.1]) else None
  }

  function RowReply(recorded: seq<Row>, key: Key): Option<Reply> {
    var row := Lookup(recorded, key);
    if row.Some? then Some(row.value.reply) else None
  }

  lemma SetReplyAt(armMap: ArmMap, key: Key, reply: Reply)
    requires key.0 in armMap
    ensures forall k :: MapAt(SetReply(armMap, key, reply), k) == if k == key then Some(reply) else MapAt(armMap, k)
  {
  }

  /** Seconds of backoff of attempts `attempt` to `limit`. */
  function Backoff(attempt: nat, limit: int): nat
    decreases limit - attempt
  {
    if attempt > limit then 0 else 2 * attempt + Backoff(attempt + 1, limit)
  }

  lemma {:induction false} BackoffClosedForm(attempt: nat, limit: int)
    requires 1 <= attempt <= limit + 1
    ensures Backoff(attempt, limit) == limit * (limit + 1) - (attempt - 1) * attempt
    decreases limit - attempt
  {
    if attempt <= limit {
      BackoffClosedForm(attempt + 1, limit);
    }
  }

  function Attempts(attempt: nat, limit: int): nat {
    if attempt > limit then 0 else limit - attempt + 1
  }

  /**
   A retry touches its own call only. If it recovers, transcript and map show the one answer; if not, the map
   is untouched and the row, once asked again, is still unanswered.
   */
  ghost predicate RetryEffect(before: Store, after: Store, recovered: bool, key: Key, attempted: bool) {
    && DistinctRows(after.recorded)
    && (forall k | k != key :: Lookup(after.recorded, k) == Lookup(before.recorded, k))
    && (forall k | k != key :: MapAt(after.armMap, k) == MapAt(before.armMap, k))
    && (Lookup(before.recorded, key).Some? ==> RowKeys(after.recorded) == RowKeys(before.recorded))
    && (recovered ==>
          && MapAt(after.armMap, key).Some? && !Unanswered(MapAt(after.armMap, key).value)
          && RowReply(after.recorded, key) == MapAt(after.armMap, key))
    && (!recovered ==>
          && after.armMap == before.armMap
          && if !attempted then after.recorded == before.recorded
             else RowReply(after.recorded, key).Some? && Unanswered(RowReply(after.recorded, key).value))
  }

  function RowKeys(recorded: seq<Row>): seq<Key> {
    seq(|recorded|, i requires 0 <= i < |recorded| => RowKey(recorded[i]))
  }

  lemma AskOnceEffect(oracle: Oracle, namespace: string, store: Store, call: FailedCall)
    requires DistinctRows(store.recorded)
    ensures var after, key := AskOnce(oracle, namespace, store, call.probe, call.arm, call.masked), CallKey(call);
            && DistinctRows(after.recorded)
            && (forall k | k != key :: Lookup(after.recorded, k) == Lookup(store.recorded, k))
            && RowReply(after.recorded, key) == Some(GradedCall(oracle, store.calls, call.probe).reply)
            && (Lookup(store.recorded, key).Some? ==> RowKeys(after.recorded) == RowKeys(store.recorded))
  {
    var row := RowFor(call.probe, call.arm, call.masked, GradedCall(oracle, store.calls, call.probe));
    UpsertIsTableWrite(store.recorded, row);
  }

  lemma {:induction false} RetryDoes(oracle: Oracle, namespace: string, store: Store, call: FailedCall, attempt: nat, limit: int)
    requires call.probe.probeId in store.armMap && DistinctRows(store.recorded)
    ensures var (after, recovered) := Retry(oracle, namespace, store, call, attempt, limit);
            RetryEffect(store, after, recovered, CallKey(call), attempt <= limit)
    decreases limit - attempt
  {
    if attempt <= limit {
      var rested := BackOff(namespace, store, call, attempt);
      var asked := AskOnce(oracle, namespace, rested, call.probe, call.arm, call.masked);
      AskOnceEffect(oracle, namespace, rested, call);
      if Unanswered(GradedCall(oracle, store.calls, call.probe).reply) {
        RetryDoes(oracle, namespace, asked, call, attempt + 1, limit);
      } else {
        SetReplyAt(asked.armMap, CallKey(call), GradedCall(oracle, store.calls, call.probe).reply);
      }
    }
  }

  /** A retry that gives up has used every attempt; one that recovers has used no more. */
  lemma {:induction false} RetryCosts(oracle: Oracle, namespace: string, store: Store, call: FailedCall, attempt: nat, limit: int)
    requires call.probe.probeId in store.armMap
    ensures var (after, recovered) := Retry(oracle, namespace, store, call, attempt, limit);
            && store.calls <= after.calls <= store.calls + Attempts(attempt, limit)
            && store.slept <= after.slept <= store.slept + Backoff(attempt, limit)
            && (!recovered ==> after.calls == store.calls + Attempts(attempt, limit)
                               && after.slept == store.slept + Backoff(attempt, limit))
    decreases limit - attempt
  {
    if attempt <= limit && Unanswered(GradedCall(oracle, store.calls, call.probe).reply) {
      var asked := AskOnce(oracle, namespace, BackOff(namespace, store, call, attempt), call.probe, call.arm, call.masked);
      RetryCosts(oracle, namespace, asked, call, attempt + 1, limit);
    }
  }

  // ---- what the pass does ----

  /** The calls of `failed` that the map still shows unanswered, in order. */
  function StillUnanswered(armMap: ArmMap, failed: seq<FailedCall>): seq<FailedCall> {
    if failed == [] then []
    else
      var entry := MapAt(armMap, CallKey(failed[0]));
      (if entry.Some? && !Unanswered(entry.value) then [] else [failed[0]]) + StillUnanswered(armMap, failed[1..])
  }

  ghost predicate Among(failed: seq<FailedCall>, key: Key) {
    exists k | 0 <= k < |failed| :: CallKey(failed[k]) == key
  }

  /** Transcript and map tell the same story about this call. */
  ghost predicate Agree(store: Store, key: Key) {
    var row, entry := RowReply(store.recorded, key), MapAt(store.armMap, key);
    && row.Some? && entry.Some?
    && if Unanswered(entry.value) then Unanswered(row.value) else row == entry
  }

  ghost predicate Pending(armMap: ArmMap, failed: seq<FailedCall>) {
    forall k | 0 <= k < |failed| ::
      MapAt(armMap, CallKey(failed[k])).Some? && Unanswered(MapAt(armMap, CallKey(failed[k])).value)
  }

  lemma {:induction false} UnansweredFrame(left: ArmMap, right: ArmMap, failed: seq<FailedCall>)
    requires forall k | 0 <= k < |failed| :: MapAt(left, CallKey(failed[k])) == MapAt(right, CallKey(failed[k]))
    ensures StillUnanswered(left, failed) == StillUnanswered(right, failed)
  {
    if failed != [] {
      UnansweredFrame(left, right, failed[1..]);
    }
  }

  lemma TailIsReady(oracle: Oracle, namespace: string, store: Store, failed: seq<FailedCall>, limit: int)
    requires P.DistinctCalls(failed) && failed != [] && DistinctRows(store.recorded)
    requires Known(store.armMap, failed) && Pending(store.armMap, failed)
    ensures var retried := Retry(oracle, namespace, store, failed[0], 1, limit).0;
            && P.DistinctCalls(failed[1..]) && Known(retried.armMap, failed[1..]) && Pending(retried.armMap, failed[1..])
            && DistinctRows(retried.recorded)
            && !Among(failed[1..], CallKey(failed[0]))
  {
    RetryDoes(oracle, namespace, store, failed[0], 1, limit);
    RetryKeepsProbes(oracle, namespace, store, failed[0], 1, limit);
    forall k | 0 <= k < |failed[1..]| ensures CallKey(failed[1..][k]) != CallKey(failed[0]) {
      assert failed[1..][k] == failed[k + 1];
    }
  }

  lemma AmongTail(failed: seq<FailedCall>, key: Key)
    requires failed != []
    ensures Among(failed, key) <==> key == CallKey(failed[0]) || Among(failed[1..], key)
  {
    if Among(failed[1..], key) {
      var k :| 0 <= k < |failed[1..]| && CallKey(failed[1..][k]) == key;
      assert CallKey(failed[k + 1]) == key;
    }
    if Among(failed, key) {
      var k :| 0 <= k < |failed| && CallKey(failed[k]) == key;
      assert k > 0 ==> failed[1..][k - 1] == failed[k];
    }
  }

  /** Calls that were not queued keep their row and their map entry; no row is added, dropped or moved. */
  lemma {:induction false} RecoverFrame(oracle: Oracle, namespace: string, store: Store, failed: seq<FailedCall>, limit: int)
    requires P.DistinctCalls(failed) && DistinctRows(store.recorded)
    requires Known(store.armMap, failed) && Pending(store.armMap, failed)
    ensures var final := Recover(oracle, namespace, store, failed, limit).0;
            && DistinctRows(final.recorded)
            && (forall key | !Among(failed, key) :: Lookup(final.recorded, key) == Lookup(store.recorded, key))
            && (forall key | !Among(failed, key) :: MapAt(final.armMap, key) == MapAt(store.armMap, key))
    decreases |failed|
  {
    if failed != [] {
      var retried := Retry(oracle, namespace, store, failed[0], 1, limit).0;
      RetryDoes(oracle, namespace, store, failed[0], 1, limit);
      TailIsReady(oracle, namespace, store, failed, limit);
      RecoverFrame(oracle, namespace, retried, failed[1..], limit);
      forall key | !Among(failed, key) ensures key != CallKey(failed[0]) && !Among(failed[1..], key) {
        AmongTail(failed, key);
      }
    }
  }

  /**
   The calls that remain are those of `failed` that are still unanswered, in their original order;
   the recovered ones are therefore exactly the rest.
   */
  lemma {:induction false} RecoverRemaining(oracle: Oracle, namespace: string, store: Store, failed: seq<FailedCall>, limit: int)
    requires P.DistinctCalls(failed) && DistinctRows(store.recorded)
    requires Known(store.armMap, failed) && Pending(store.armMap, failed)
    ensures var (final, remaining) := Recover(oracle, namespace, store, failed, limit);
            remaining == StillUnanswered(final.armMap, failed)
    decreases |failed|
  {
    if failed != [] {
      var retried := Retry(oracle, namespace, store, failed[0], 1, limit).0;
      RetryDoes(oracle, namespace, store, failed[0], 1, limit);
      TailIsReady(oracle, namespace, store, failed, limit);
      RecoverFrame(oracle, namespace, retried, failed[1..], limit);
      RecoverRemaining(oracle, namespace, retried, failed[1..], limit);
    }
  }

  lemma RetryKeepsAgreement(oracle: Oracle, namespace: string, store: Store, call: FailedCall, limit: int, key: Key)
    requires call.probe.probeId in store.armMap && DistinctRows(store.recorded)
    requires MapAt(store.armMap, CallKey(call)).Some? && Unanswered(MapAt(store.armMap, CallKey(call)).value)
    requires Agree(store, key)
    ensures Agree(Retry(oracle, namespace, store, call, 1, limit).0, key)
  {
    RetryDoes(oracle, namespace, store, call, 1, limit);
  }

  /** Transcript and map agree about every call they agreed about before. */
  lemma {:induction false} RecoverAgrees(oracle: Oracle, namespace: string, store: Store, failed: seq<FailedCall>, limit: int, key: Key)
    requires P.DistinctCalls(failed) && DistinctRows(store.recorded)
    requires Known(store.armMap, failed) && Pending(store.armMap, failed)
    requires Agree(store, key)
    ensures Agree(Recover(oracle, namespace, store, failed, limit).0, key)
    decreases |failed|
  {
    if failed != [] {
      RetryKeepsAgreement(oracle, namespace, store, failed[0], limit, key);
      TailIsReady(oracle, namespace, store, failed, limit);
      RecoverAgrees(oracle, namespace, Retry(oracle, namespace, store, failed[0], 1, limit).0, failed[1..], limit, key);
    }
  }

  lemma {:induction false} RecoverKeepsRowOrder(oracle: Oracle, namespace: string, store: Store, failed: seq<FailedCall>, limit: int)
    requires P.DistinctCalls(failed) && DistinctRows(store.recorded)
    requires Known(store.armMap, failed) && Pending(store.armMap, failed)
    requires forall k | 0 <= k < |failed| :: Lookup(store.recorded, CallKey(failed[k])).Some?
    ensures RowKeys(Recover(oracle, namespace, store, failed, limit).0.recorded) == RowKeys(store.recorded)
    decreases |failed|
  {
    if failed != [] {
      var retried := Retry(oracle, namespace, store, failed[0], 1, limit).0;
      RetryDoes(oracle, namespace, store, failed[0], 1, limit);
      TailIsReady(oracle, namespace, store, failed, limit);
      forall k | 0 <= k < |failed[1..]| ensures Lookup(retried.recorded, CallKey(failed[1..][k])).Some? {
        assert failed[1..][k] == failed[k + 1];
      }
      RecoverKeepsRowOrder(oracle, namespace, retried, failed[1..], limit);
    }
  }

  /** One call's cost, at most a unit and a whole one when given up, on top of the others'. */
  lemma CostsAdd(start: nat, between: nat, end: nat, unit: nat, rest: nat, restLeft: nat, recovered: bool)
    requires start <= between <= start + unit && (!recovered ==> between == start + unit)
    requires between + unit * restLeft <= end <= between + unit * rest
    ensures start + unit * (restLeft + if recovered then 0 else 1) <= end <= start + unit * (rest + 1)
  {
    assert unit * (rest + 1) == unit * rest + unit;
    assert unit * (restLeft + 1) == unit * restLeft + unit;
  }

  lemma {:induction false} RecoverCalls(oracle: Oracle, namespace: string, store: Store, failed: seq<FailedCall>, limit: int)
    requires Known(store.armMap, failed)
    ensures var (final, remaining), a := Recover(oracle, namespace, store, failed, limit), Attempts(1, limit);
            store.calls + a * |remaining| <= final.calls <= store.calls + a * |failed|
    decreases |failed|
  {
    if failed != [] {
      var (retried, recovered) := Retry(oracle, namespace, store, failed[0], 1, limit);
      RetryKeepsProbes(oracle, namespace, store, failed[0], 1, limit);
      RetryCosts(oracle, namespace, store, failed[0], 1, limit);
      assert Known(retried.armMap, failed[1..]);
      RecoverCalls(oracle, namespace, retried, failed[1..], limit);
      var (final, rest) := Recover(oracle, namespace, retried, failed[1..], limit);
      CostsAdd(store.calls, retried.calls, final.calls, Attempts(1, limit), |failed[1..]|, |rest|, recovered);
    }
  }

  lemma {:induction false} RecoverBackoff(oracle: Oracle, namespace: string, store: Store, failed: seq<FailedCall>, limit: int)
    requires Known(store.armMap, failed)
    ensures var (final, remaining), b := Recover(oracle, namespace, store, failed, limit), Backoff(1, limit);
            store.slept + b * |remaining| <= final.slept <= store.slept + b * |failed|
    decreases |failed|
  {
    if failed != [] {
      var (retried, recovered) := Retry(oracle, namespace, store, failed[0], 1, limit);
      RetryKeepsProbes(oracle, namespace, store, failed[0], 1, limit);
      RetryCosts(oracle, namespace, store, failed[0], 1, limit);
      assert Known(retried.armMap, failed[1..]);
      RecoverBackoff(oracle, namespace, retried, failed[1..], limit);
      var (final, rest) := Recover(oracle, namespace, retried, failed[1..], limit);
      CostsAdd(store.slept, retried.slept, final.slept, Backoff(1, limit), |failed[1..]|, |rest|, recovered);
    }
  }

  /** With a attempts allowed: at most a calls and a(a + 1) seconds of backoff per queued call, and all of it when given up. */
  lemma RecoverCosts(oracle: Oracle, namespace: string, store: Store, failed: seq<FailedCall>, a: nat)
    requires Known(store.armMap, failed)
    ensures var (final, remaining) := Recover(oracle, namespace, store, failed, a);
            && store.calls + a * |remaining| <= final.calls <= store.calls + a * |failed|
            && store.slept + a * (a + 1) * |remaining| <= final.slept <= store.slept + a * (a + 1) * |failed|
  {
    RecoverCalls(oracle, namespace, store, failed, a);
    RecoverBackoff(oracle, namespace, store, failed, a);
    BackoffClosedForm(1, a);
  }

  // ---- both passes together ----

  function ArmReplies(results: seq<Reply>): map<Arm, Reply>
    requires |results| == P.ARM_COUNT
  {
    map[Full := results[0], Ablated := results[1], Control := results[2]]
  }

  /** The dict comprehension over the joined tasks; a repeated probe id would keep its last entry. */
  function ArmMapOf(probes: seq<Probe>, tasks: seq<P.Task>): ArmMap
    requires |probes| == |tasks| && forall i | 0 <= i < |tasks| :: |tasks[i].results| == P.ARM_COUNT
  {
    if probes == [] then map[]
    else
      var last := |probes| - 1;
      ArmMapOf(probes[..last], tasks[..last])[probes[last].probeId := ArmReplies(tasks[last].results)]
  }

  lemma {:induction false} ArmMapEntries(probes: seq<Probe>, tasks: seq<P.Task>)
    requires |probes| == |tasks| && forall i | 0 <= i < |tasks| :: |tasks[i].results| == P.ARM_COUNT
    requires forall i, j :: 0 <= i < j < |probes| ==> probes[i].probeId != probes[j].probeId
    ensures forall i | 0 <= i < |probes| ::
              && probes[i].probeId in ArmMapOf(probes, tasks)
              && ArmMapOf(probes, tasks)[probes[i].probeId] == ArmReplies(tasks[i].results)
    decreases |probes|
  {
    if probes != [] {
      var last := |probes| - 1;
      ArmMapEntries(probes[..last], tasks[..last]);
      forall i | 0 <= i < last
        ensures probes[i].probeId in ArmMapOf(probes, tasks)
        ensures ArmMapOf(probes, tasks)[probes[i].probeId] == ArmReplies(tasks[i].results)
      {
        assert probes[..last][i] == probes[i] && tasks[..last][i] == tasks[i];
      }
    }
  }

  function StoreAtJoin(cfg: P.Config, s: P.State, seeded: set<string>): Store
    requires |s.tasks| == |cfg.probes| && forall i | 0 <= i < |s.tasks| :: |s.tasks[i].results| == P.ARM_COUNT
  {
    Store(s.recorded, ArmMapOf(cfg.probes, s.tasks), s.askErrors, seeded, 0, 0)
  }

  /** A queued call belongs to some task's arm, which was left unanswered. */
  lemma QueuedCallIsATask(cfg: P.Config, s: P.State, k: nat) returns (i: nat, a: nat)
    requires P.Delivered(cfg, s) && k < |s.failed|
    ensures i < |cfg.probes| && a < P.ARM_COUNT && P.CallAt(cfg, i, a) == CallKey(s.failed[k])
    ensures Unanswered(s.tasks[i].results[a])
  {
    i :| 0 <= i < |cfg.probes| && cfg.probes[i] == s.failed[k].probe;
    a := match s.failed[k].arm case Full => 0 case Ablated => 1 case Control => 2;
    assert P.QueuedExactly(cfg, s, i, a);
    assert s.failed[k] in s.failed;
  }

  /** The first pass hands the second everything it relies on. */
  lemma JoinIsReady(cfg: P.Config, s: P.State, seeded: set<string>)
    requires P.DistinctProbes(cfg) && P.Delivered(cfg, s)
    ensures var store := StoreAtJoin(cfg, s, seeded);
            && Known(store.armMap, s.failed) && Pending(store.armMap, s.failed)
            && (forall k | 0 <= k < |s.failed| :: Lookup(store.recorded, CallKey(s.failed[k])).Some?)
            && forall i, a | 0 <= i < |cfg.probes| && 0 <= a < P.ARM_COUNT :: Agree(store, P.CallAt(cfg, i, a))
  {
    ArmMapEntries(cfg.probes, s.tasks);
    var store := StoreAtJoin(cfg, s, seeded);
    forall i, a | 0 <= i < |cfg.probes| && 0 <= a < P.ARM_COUNT
      ensures MapAt(store.armMap, P.CallAt(cfg, i, a)) == Some(s.tasks[i].results[a])
      ensures Agree(store, P.CallAt(cfg, i, a))
    {
      assert P.RowDelivered(cfg, s, i, a);
    }
    forall k | 0 <= k < |s.failed|
      ensures s.failed[k].probe.probeId in store.armMap
      ensures MapAt(store.armMap, CallKey(s.failed[k])).Some? && Unanswered(MapAt(store.armMap, CallKey(s.failed[k])).value)
      ensures Lookup(store.recorded, CallKey(s.failed[k])).Some?
    {
      var i, a := QueuedCallIsATask(cfg, s, k);
      assert P.RowDelivered(cfg, s, i, a);
    }
  }

  /**
   The transcript still has one row per (probe, arm), in the order pass one wrote them; transcript and map
   agree on every call; the calls reported as unrecovered are the queued ones left unanswered; and the model
   was asked at most 3n + a * |failed| times, a being the attempts allowed.
   */
  ghost predicate Reconciled(cfg: P.Config, s: P.State, final: Store, unrecovered: seq<FailedCall>, a: nat) {
    && DistinctRows(final.recorded)
    && RowKeys(final.recorded) == RowKeys(s.recorded) && |final.recorded| == P.ARM_COUNT * |cfg.probes|
    && (forall i, arm | 0 <= i < |cfg.probes| && 0 <= arm < P.ARM_COUNT :: Agree(final, P.CallAt(cfg, i, arm)))
    && unrecovered == StillUnanswered(final.armMap, s.failed)
    && |s.indices| + final.calls <= P.ARM_COUNT * |cfg.probes| + a * |s.failed|
  }

  lemma RecoveryReconciles(cfg: P.Config, s: P.State, seeded: set<string>, oracle: Oracle, namespace: string, limit: nat)
    requires P.DistinctProbes(cfg) && P.Delivered(cfg, s)
    ensures var store := StoreAtJoin(cfg, s, seeded);
            && Known(store.armMap, s.failed)
            && var (final, unrecovered) := Recover(oracle, namespace, store, s.failed, limit);
               Reconciled(cfg, s, final, unrecovered, limit)
  {
    JoinIsReady(cfg, s, seeded);
    var store := StoreAtJoin(cfg, s, seeded);
    RecoverFrame(oracle, namespace, store, s.failed, limit);
    RecoverRemaining(oracle, namespace, store, s.failed, limit);
    RecoverCosts(oracle, namespace, store, s.failed, limit);
    RecoverKeepsRowOrder(oracle, namespace, store, s.failed, limit);
    var final := Recover(oracle, namespace, store, s.failed, limit).0;
    assert |RowKeys(final.recorded)| == |RowKeys(s.recorded)|;
    forall i, a | 0 <= i < |cfg.probes| && 0 <= a < P.ARM_COUNT ensures Agree(final, P.CallAt(cfg, i, a)) {
      RecoverAgrees(oracle, namespace, store, s.failed, limit, P.CallAt(cfg, i, a));
    }
  }

  /** Both passes, whatever the interleaving of the first and whatever the model does in either. */
  lemma WholeEvaluation(cfg: P.Config, events: seq<P.Event>, seeded: set<string>, oracle: Oracle, namespace: string, limit: nat)
    requires P.DistinctProbes(cfg) && P.Run(cfg, P.Start(cfg), events).Some?
    requires P.Joined(P.Run(cfg, P.Start(cfg), events).value)
    ensures var s := P.Run(cfg, P.Start(cfg), events).value;
            && P.Delivered(cfg, s)
            && J.JoinStates(cfg, events, s)
            && var store := StoreAtJoin(cfg, s, seeded);
            && Known(store.armMap, s.failed)
            && var (final, unrecovered) := Recover(oracle, namespace, store, s.failed, limit);
               Reconciled(cfg, s, final, unrecovered, limit)
  {
    P.AtJoin(cfg, events);
    J.JoinFollowsEvents(cfg, events);
    RecoveryReconciles(cfg, P.Run(cfg, P.Start(cfg), events).value, seeded, oracle, namespace, limit);
  }

  // ---- the report's rows ----

  datatype ProbeRow = ProbeRow(
    probeId: string,
    targets: string,
    test: string,
    full: Outcome,
    ablated: Outcome,
    control: Outcome,
    certain: bool,
    latencyMs: nat)

  ghost predicate Complete(armMap: ArmMap, probes: seq<Probe>) {
    forall i | 0 <= i < |probes| :: probes[i].probeId in armMap && armMap[probes[i].probeId].Keys == {Full, Ablated, Control}
  }

  /** The probe's own columns, each arm's outcome, certain when all three are, and the three latencies together. */
  predicate RowTells(row: ProbeRow, probe: Probe, full: Reply, ablated: Reply, control: Reply) {
    && row.probeId == probe.probeId && row.targets == probe.targets && row.test == probe.test
    && row.full == full.outcome && row.ablated == ablated.outcome && row.control == control.outcome
    && (row.certain <==> full.certain && ablated.certain && control.certain)
    && row.latencyMs == full.latencyMs + ablated.latencyMs + control.latencyMs
  }

  ghost predicate RowFromMap(row: ProbeRow, probe: Probe, armMap: ArmMap) {
    && probe.probeId in armMap
    && var replies := armMap[probe.probeId];
    && Full in replies && Ablated in replies && Control in replies
    && RowTells(row, probe, replies[Full], replies[Ablated], replies[Control])
  }

  method AssembleRows(probes: seq<Probe>, armMap: ArmMap) returns (rows: seq<ProbeRow>)
    requires Complete(armMap, probes)
    ensures |rows| == |probes|
    ensures forall i | 0 <= i < |probes| :: RowFromMap(rows[i], probes[i], armMap)
  {
    rows := [];
    for i := 0 to |probes|
      invariant |rows| == i
      invariant forall j | 0 <= j < i :: RowFromMap(rows[j], probes[j], armMap)
    {
      var arms := armMap[probes[i].probeId];
      var certain, latencyTotal := true, 0;
      for a := 0 to P.ARM_COUNT
        invariant certain == forall b | 0 <= b < a :: arms[P.ArmAt(b)].certain
        invariant latencyTotal == (if a > 0 then arms[Full].latencyMs else 0) + (if a > 1 then arms[Ablated].latencyMs else 0)
                                  + (if a > 2 then arms[Control].latencyMs else 0)
      {
        certain := certain && arms[P.ArmAt(a)].certain;
        latencyTotal := latencyTotal + arms[P.ArmAt(a)].latencyMs;
      }
      assert certain <==> arms[P.ArmAt(0)].certain && arms[P.ArmAt(1)].certain && arms[P.ArmAt(2)].certain;
      rows := rows + [ProbeRow(probes[i].probeId, probes[i].targets, probes[i].test, arms[Full].outcome, arms[Ablated].outcome,
                               arms[Control].outcome, certain, latencyTotal)];
    }
  }

  /** Assembly never misses a key: every probe has its three replies. */
  lemma ReconciledIsComplete(cfg: P.Config, s: P.State, final: Store, unrecovered: seq<FailedCall>, a: nat)
    requires Reconciled(cfg, s, final, unrecovered, a)
    ensures Complete(final.armMap, cfg.probes)
  {
    forall i | 0 <= i < |cfg.probes|
      ensures cfg.probes[i].probeId in final.armMap && final.armMap[cfg.probes[i].probeId].Keys == {Full, Ablated, Control}
    {
      assert Agree(final, P.CallAt(cfg, i, 0)) && Agree(final, P.CallAt(cfg, i, 1)) && Agree(final, P.CallAt(cfg, i, 2));
      forall arm ensures arm in final.armMap[cfg.probes[i].probeId] && arm in {Full, Ablated, Control} {
        match arm case Full => case Ablated => case Control =>
      }
    }
  }

  /** The transcript's one row for this probe and arm is at r. */
  ghost predicate OnlyRow(recorded: seq<Row>, r: nat, probe: string, arm: Arm) {
    r < |recorded| && J.RowsOf(recorded, probe, arm) == {r}
  }

  /** A row of the report is what the transcript's three rows of that probe spell out. */
  ghost predicate RowFromTranscript(row: ProbeRow, probe: Probe, recorded: seq<Row>) {
    exists full: nat, ablated: nat, control: nat ::
      && OnlyRow(recorded, full, probe.probeId, Full)
      && OnlyRow(recorded, ablated, probe.probeId, Ablated)
      && OnlyRow(recorded, control, probe.probeId, Control)
      && RowTells(row, probe, recorded[full].reply, recorded[ablated].reply, recorded[control].reply)
  }

  lemma AnsweredEntryIsItsRow(cfg: P.Config, final: Store, i: nat, a: nat) returns (r: nat)
    requires DistinctRows(final.recorded) && i < |cfg.probes| && a < P.ARM_COUNT
    requires Agree(final, P.CallAt(cfg, i, a)) && !Unanswered(MapAt(final.armMap, P.CallAt(cfg, i, a)).value)
    ensures OnlyRow(final.recorded, r, cfg.probes[i].probeId, P.ArmAt(a))
    ensures MapAt(final.armMap, P.CallAt(cfg, i, a)) == Some(final.recorded[r].reply)
  {
    r := FindRow(final.recorded, P.CallAt(cfg, i, a)).value;
    LookupUnique(final.recorded, P.CallAt(cfg, i, a));
    forall k | k in J.RowsOf(final.recorded, cfg.probes[i].probeId, P.ArmAt(a)) ensures k == r {
      assert RowKey(final.recorded[k]) == P.CallAt(cfg, i, a);
    }
    assert J.RowsOf(final.recorded, cfg.probes[i].probeId, P.ArmAt(a)) == {r};
  }

  /** A probe answered under all three arms has the report row its transcript rows spell out. */
  lemma ReportRowMatchesTranscript(cfg: P.Config, s: P.State, final: Store, unrecovered: seq<FailedCall>, a: nat, i: nat,
                                   row: ProbeRow)
    requires Reconciled(cfg, s, final, unrecovered, a) && Complete(final.armMap, cfg.probes) && i < |cfg.probes|
    requires var replies := final.armMap[cfg.probes[i].probeId];
             forall arm | arm in replies :: !J.LeftUnanswered(replies[arm])
    requires RowFromMap(row, cfg.probes[i], final.armMap)
    ensures RowFromTranscript(row, cfg.probes[i], final.recorded)
  {
    assert Agree(final, P.CallAt(cfg, i, 0)) && Agree(final, P.CallAt(cfg, i, 1)) && Agree(final, P.CallAt(cfg, i, 2));
    var replies := final.armMap[cfg.probes[i].probeId];
    assert forall arm | arm in replies :: !Unanswered(replies[arm]);
    var full := AnsweredEntryIsItsRow(cfg, final, i, 0);
    var ablated := AnsweredEntryIsItsRow(cfg, final, i, 1);
    var control := AnsweredEntryIsItsRow(cfg, final, i, 2);
  }

  // ---- the session reset that a retry announces ----

  /**
   The discarded key lacks the prefix under which the session was marked, so it never names the call's own
   session: a session seeded before a retry is still marked as seeded when the retry asks.
   */
  lemma RetryNeverResetsItsSession(namespace: string, store: Store, call: FailedCall, attempt: nat)
    ensures SessionIdFor(namespace, call.probe, call.arm) in store.seeded
            <==> SessionIdFor(namespace, call.probe, call.arm) in BackOff(namespace, store, call, attempt).seeded
  {
    assert |SessionIdFor(namespace, call.probe, call.arm)| == |ScopeSessionId(namespace, call.probe, call.arm)| + 8;
  }

  predicate ArmWord(arm: Arm, word: string) {
    (arm == Full && word == "full") || (arm == Ablated && word == "ablated") || (arm == Control && word == "control")
  }

  /** The two keys spelled out: what a call marks as seeded, and what its retry discards. */
  lemma SessionKeys(oracle: Oracle, namespace: string, store: Store, call: FailedCall, attempt: nat, word: string)
    requires ArmWord(call.arm, word)
    ensures var own := "memeval-" + namespace + "-" + call.probe.probeId + "-" + word;
            SeededBy(oracle, store.calls, namespace, call.probe, call.arm)
            == if call.arm != Control && oracle.call(store.calls).reachesSeeding then {own} else {}
    ensures BackOff(namespace, store, call, attempt).seeded
            == store.seeded - {namespace + "-" + call.probe.probeId + "-" + word}
  {
  }
}
