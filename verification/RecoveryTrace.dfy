/** The recovery pass read off what the model does: which call belongs to which attempt, and what each leaves behind. */
module RecoveryTrace {
  import opened Wrappers
  import opened MemoryCalls
  import opened RecoveryPass
  import Text
  import P = ParallelPass
  import J = PassOneJoin

  // ---- one model call ----

  function TextOf(asked: Asked): string {
    match asked
    case Returned(text, _) => text
    case Raised(_, _) => ""
  }

  /** The k-th call, asked for this probe, leaves the call unanswered. */
  predicate IsEmpty(oracle: Oracle, k: nat, probe: Probe) {
    var text := TextOf(oracle.call(k).asked);
    oracle.score(text, probe).outcome == NoAnswer || forall c | c in text :: Text.IsSpace(c)
  }

  /** The reply is the text the k-th call returned, scored, with the latency reported or else measured. */
  predicate IsReplyOf(oracle: Oracle, k: nat, probe: Probe, reply: Reply, why: string) {
    var made := oracle.call(k);
    && reply.text == TextOf(made.asked)
    && oracle.score(reply.text, probe) == Scored(reply.outcome, reply.certain, why)
    && (made.asked.latencyMs != 0 ==> reply.latencyMs == made.asked.latencyMs)
    && (made.asked.latencyMs == 0 ==> reply.latencyMs == made.wallMs)
  }

  predicate IsRowOf(oracle: Oracle, k: nat, call: FailedCall, row: Row) {
    && row.probe == call.probe.probeId && row.targets == call.probe.targets && row.question == call.probe.question
    && row.arm == call.arm && row.masked == call.masked
    && IsReplyOf(oracle, k, call.probe, row.reply, row.why)
  }

  /** One complaint for each set of lines the calls from..end noted, and one for each of them that raised. */
  function FiledBy(oracle: Oracle, call: FailedCall, from: nat, end: nat): seq<Complaint>
    decreases end
  {
    if end <= from then []
    else
      var made := oracle.call(end - 1);
      FiledBy(oracle, call, from, end - 1)
      + seq(|made.complaints|, i requires 0 <= i < |made.complaints| =>
              Complaint(call.probe.probeId, call.arm, made.complaints[i]))
      + if made.asked.Raised? then [Complaint(call.probe.probeId, call.arm, ["exception: " + made.asked.message])] else []
  }

  lemma {:induction false} FiledByFirst(oracle: Oracle, call: FailedCall, from: nat, end: nat)
    requires from < end
    ensures FiledBy(oracle, call, from, end) == FiledBy(oracle, call, from, from + 1) + FiledBy(oracle, call, from + 1, end)
    decreases end
  {
    if from + 1 < end {
      FiledByFirst(oracle, call, from, end - 1);
    }
  }

  lemma FiledByOne(oracle: Oracle, call: FailedCall, k: nat)
    ensures FiledBy(oracle, call, k, k + 1) == Complaints(call.probe, call.arm, CallComplaints(oracle, k))
  {
    var made, filed := oracle.call(k), FiledBy(oracle, call, k, k + 1);
    ComplaintsConcat(oracle, k, call.probe, call.arm);
    assert FiledBy(oracle, call, k, k) == [];
    assert made.asked.Raised? ==>
        filed == [] + Complaints(call.probe, call.arm, made.complaints)
                 + [Complaint(call.probe.probeId, call.arm, ["exception: " + made.asked.message])];
  }

  lemma GradedCallIs(oracle: Oracle, k: nat, probe: Probe)
    ensures var graded := GradedCall(oracle, k, probe);
            && IsReplyOf(oracle, k, probe, graded.reply, graded.why)
            && (Unanswered(graded.reply) <==> IsEmpty(oracle, k, probe))
  {
  }

  // ---- the attempts at one call ----

  /** Model calls from..end are this call's attempts: all but the last came back empty, and the last did only at the limit. */
  ghost predicate Attempted(oracle: Oracle, call: FailedCall, from: nat, end: nat, limit: nat) {
    && from < end <= from + limit
    && (forall k | from <= k < end - 1 :: IsEmpty(oracle, k, call.probe))
    && (IsEmpty(oracle, end - 1, call.probe) ==> end == from + limit)
  }

  /** The n-th attempt waits 2n seconds. */
  function Waited(attempts: int): nat {
    if attempts <= 0 then 0 else Waited(attempts - 1) + 2 * attempts
  }

  /** Row and map entry after the last attempt, which was model call k. */
  ghost predicate LeftBy(oracle: Oracle, call: FailedCall, k: nat, before: ArmMap, after: Store) {
    var row, entry := Lookup(after.recorded, CallKey(call)), MapAt(after.armMap, CallKey(call));
    && row.Some? && IsRowOf(oracle, k, call, row.value)
    && if IsEmpty(oracle, k, call.probe) then entry == MapAt(before, CallKey(call)) else entry == Some(row.value.reply)
  }

  ghost predicate RetryStates(oracle: Oracle, call: FailedCall, attempt: nat, limit: nat, before: Store, after: Store,
                              recovered: bool)
    requires 0 < attempt <= limit
  {
    && Attempted(oracle, call, before.calls, after.calls, limit - attempt + 1)
    && recovered == !IsEmpty(oracle, after.calls - 1, call.probe)
    && LeftBy(oracle, call, after.calls - 1, before.armMap, after)
    && after.askErrors == before.askErrors + FiledBy(oracle, call, before.calls, after.calls)
    && after.slept + Waited(attempt - 1) == before.slept + Waited(attempt - 1 + (after.calls - before.calls))
  }

  lemma AttemptStates(oracle: Oracle, namespace: string, store: Store, call: FailedCall, attempt: nat)
    requires call.probe.probeId in store.armMap && DistinctRows(store.recorded)
    ensures var after := AfterAttempt(oracle, namespace, store, call, attempt);
            && DistinctRows(after.recorded)
            && after.calls == store.calls + 1 && after.slept == store.slept + 2 * attempt
            && after.askErrors == store.askErrors + FiledBy(oracle, call, store.calls, store.calls + 1)
            && LeftBy(oracle, call, store.calls, store.armMap, after)
            && (IsEmpty(oracle, store.calls, call.probe) ==> after.armMap == store.armMap)
  {
    GradedCallIs(oracle, store.calls, call.probe);
    FiledByOne(oracle, call, store.calls);
    var row := RowFor(call.probe, call.arm, call.masked, GradedCall(oracle, store.calls, call.probe));
    UpsertIsTableWrite(store.recorded, row);
    SetReplyAt(store.armMap, CallKey(call), row.reply);
  }

  /** An empty attempt, and then the remaining ones. */
  lemma AttemptThenRetry(oracle: Oracle, call: FailedCall, attempt: nat, limit: nat, before: Store, asked: Store, after: Store,
                         recovered: bool)
    requires 0 < attempt < limit && IsEmpty(oracle, before.calls, call.probe)
    requires asked.calls == before.calls + 1 && asked.slept == before.slept + 2 * attempt && asked.armMap == before.armMap
    requires asked.askErrors == before.askErrors + FiledBy(oracle, call, before.calls, before.calls + 1)
    requires RetryStates(oracle, call, attempt + 1, limit, asked, after, recovered)
    ensures RetryStates(oracle, call, attempt, limit, before, after, recovered)
  {
    assert after.askErrors == before.askErrors + FiledBy(oracle, call, before.calls, after.calls) by {
      FiledByFirst(oracle, call, before.calls, after.calls);
    }
    assert Waited(attempt) == Waited(attempt - 1) + 2 * attempt;
  }

  lemma {:induction false} RetryIs(oracle: Oracle, namespace: string, store: Store, call: FailedCall, attempt: nat, limit: nat)
    requires call.probe.probeId in store.armMap && DistinctRows(store.recorded)
    requires 0 < attempt <= limit
    ensures var (after, recovered) := Retry(oracle, namespace, store, call, attempt, limit);
            RetryStates(oracle, call, attempt, limit, store, after, recovered)
    decreases limit - attempt
  {
    var asked := AfterAttempt(oracle, namespace, store, call, attempt);
    AttemptStates(oracle, namespace, store, call, attempt);
    GradedCallIs(oracle, store.calls, call.probe);
    RetryStep(oracle, namespace, store, call, attempt, limit);
    if IsEmpty(oracle, store.calls, call.probe) && attempt < limit {
      RetryIs(oracle, namespace, asked, call, attempt + 1, limit);
      var (after, recovered) := Retry(oracle, namespace, asked, call, attempt + 1, limit);
      AttemptThenRetry(oracle, call, attempt, limit, store, asked, after, recovered);
    } else {
      LastAttempt(oracle, call, attempt, limit, store, asked);
    }
  }

  lemma LastAttempt(oracle: Oracle, call: FailedCall, attempt: nat, limit: nat, before: Store, asked: Store)
    requires 0 < attempt <= limit && (IsEmpty(oracle, before.calls, call.probe) ==> attempt == limit)
    requires asked.calls == before.calls + 1 && asked.slept == before.slept + 2 * attempt
    requires asked.askErrors == before.askErrors + FiledBy(oracle, call, before.calls, before.calls + 1)
    requires LeftBy(oracle, call, before.calls, before.armMap, asked)
    ensures RetryStates(oracle, call, attempt, limit, before, asked, !IsEmpty(oracle, before.calls, call.probe))
  {
  }

  // ---- the whole pass ----

  /** The model calls of the pass from `first` on, divided among the queued calls in their order; `ends` bounds each share. */
  ghost predicate Divided(oracle: Oracle, failed: seq<FailedCall>, first: nat, ends: seq<nat>, limit: nat) {
    && |ends| == |failed|
    && (failed != [] ==>
          Attempted(oracle, failed[0], first, ends[0], limit) && Divided(oracle, failed[1..], ends[0], ends[1..], limit))
  }

  function Filed(oracle: Oracle, failed: seq<FailedCall>, first: nat, ends: seq<nat>): seq<Complaint>
    requires |ends| == |failed|
  {
    if failed == [] then []
    else FiledBy(oracle, failed[0], first, ends[0]) + Filed(oracle, failed[1..], ends[0], ends[1..])
  }

  function WaitedInAll(first: nat, ends: seq<nat>): nat
    decreases |ends|
  {
    if ends == [] then 0 else Waited(ends[0] - first) + WaitedInAll(ends[0], ends[1..])
  }

  /** The queued calls whose last attempt came back empty. */
  function EmptyAtLast(oracle: Oracle, failed: seq<FailedCall>, ends: seq<nat>): seq<FailedCall>
    requires |ends| == |failed|
  {
    if failed == [] then []
    else
      (if ends[0] > 0 && IsEmpty(oracle, ends[0] - 1, failed[0].probe) then [failed[0]] else [])
      + EmptyAtLast(oracle, failed[1..], ends[1..])
  }

  ghost predicate AllLeft(oracle: Oracle, failed: seq<FailedCall>, ends: seq<nat>, before: ArmMap, after: Store) {
    && |ends| == |failed|
    && forall k | 0 <= k < |failed| :: ends[k] > 0 && LeftBy(oracle, failed[k], ends[k] - 1, before, after)
  }

  function LastOr(first: nat, ends: seq<nat>): nat {
    if ends == [] then first else ends[|ends| - 1]
  }

  /** How the calls divide, the complaints filed, the seconds waited, and the calls that remain. */
  ghost predicate Tallies(oracle: Oracle, failed: seq<FailedCall>, ends: seq<nat>, limit: nat, before: Store, after: Store,
                          remaining: seq<FailedCall>)
  {
    && Divided(oracle, failed, before.calls, ends, limit)
    && after.calls == LastOr(before.calls, ends)
    && after.askErrors == before.askErrors + Filed(oracle, failed, before.calls, ends)
    && after.slept == before.slept + WaitedInAll(before.calls, ends)
    && remaining == EmptyAtLast(oracle, failed, ends)
  }

  ghost predicate PassStates(oracle: Oracle, failed: seq<FailedCall>, ends: seq<nat>, limit: nat, before: Store, after: Store,
                             remaining: seq<FailedCall>)
  {
    && Tallies(oracle, failed, ends, limit, before, after, remaining)
    && AllLeft(oracle, failed, ends, before.armMap, after)
  }

  /** What the first call's retry left is still there when the others have been retried. */
  lemma FirstStays(oracle: Oracle, namespace: string, store: Store, failed: seq<FailedCall>, limit: nat, k: nat)
    requires P.DistinctCalls(failed) && failed != [] && DistinctRows(store.recorded)
    requires Known(store.armMap, failed) && Pending(store.armMap, failed)
    requires LeftBy(oracle, failed[0], k, store.armMap, Retry(oracle, namespace, store, failed[0], 1, limit).0)
    ensures LeftBy(oracle, failed[0], k, store.armMap, Recover(oracle, namespace, store, failed, limit).0)
  {
    TailIsReady(oracle, namespace, store, failed, limit);
    RecoverFrame(oracle, namespace, Retry(oracle, namespace, store, failed[0], 1, limit).0, failed[1..], limit);
  }

  lemma FirstLeft(oracle: Oracle, namespace: string, store: Store, failed: seq<FailedCall>, limit: nat)
    requires P.DistinctCalls(failed) && failed != [] && DistinctRows(store.recorded) && limit > 0
    requires Known(store.armMap, failed) && Pending(store.armMap, failed)
    ensures var retried := Retry(oracle, namespace, store, failed[0], 1, limit).0;
            retried.calls > 0
            && LeftBy(oracle, failed[0], retried.calls - 1, store.armMap, Recover(oracle, namespace, store, failed, limit).0)
  {
    RetryIs(oracle, namespace, store, failed[0], 1, limit);
    FirstStays(oracle, namespace, store, failed, limit, Retry(oracle, namespace, store, failed[0], 1, limit).0.calls - 1);
  }

  lemma OthersStart(oracle: Oracle, namespace: string, store: Store, failed: seq<FailedCall>, limit: nat)
    requires P.DistinctCalls(failed) && failed != [] && DistinctRows(store.recorded)
    requires Known(store.armMap, failed)
    ensures forall k | 0 < k < |failed| ::
              MapAt(Retry(oracle, namespace, store, failed[0], 1, limit).0.armMap, CallKey(failed[k]))
              == MapAt(store.armMap, CallKey(failed[k]))
  {
    RetryDoes(oracle, namespace, store, failed[0], 1, limit);
    assert forall k | 0 < k < |failed| :: CallKey(failed[k]) != CallKey(failed[0]);
  }

  /** What the retries of the others leave is measured from the map as it was before the first. */
  lemma OtherLeft(oracle: Oracle, namespace: string, store: Store, failed: seq<FailedCall>, limit: nat, k: nat, end: nat, final: Store)
    requires P.DistinctCalls(failed) && DistinctRows(store.recorded) && Known(store.armMap, failed) && 0 < k < |failed|
    requires LeftBy(oracle, failed[k], end, Retry(oracle, namespace, store, failed[0], 1, limit).0.armMap, final)
    ensures LeftBy(oracle, failed[k], end, store.armMap, final)
  {
    OthersStart(oracle, namespace, store, failed, limit);
  }

  lemma AllLeftCons(oracle: Oracle, namespace: string, store: Store, failed: seq<FailedCall>, limit: nat, ends: seq<nat>,
                    retried: ArmMap, final: Store)
    requires P.DistinctCalls(failed) && failed != [] && DistinctRows(store.recorded) && Known(store.armMap, failed)
    requires retried == Retry(oracle, namespace, store, failed[0], 1, limit).0.armMap
    requires ends != [] && ends[0] > 0 && LeftBy(oracle, failed[0], ends[0] - 1, store.armMap, final)
    requires AllLeft(oracle, failed[1..], ends[1..], retried, final)
    ensures AllLeft(oracle, failed, ends, store.armMap, final)
  {
    forall k | 0 < k < |failed| ensures ends[k] > 0 && LeftBy(oracle, failed[k], ends[k] - 1, store.armMap, final) {
      assert failed[1..][k - 1] == failed[k] && ends[1..][k - 1] == ends[k];
      OtherLeft(oracle, namespace, store, failed, limit, k, ends[k] - 1, final);
    }
  }

  lemma TalliesCons(oracle: Oracle, failed: seq<FailedCall>, limit: nat, before: Store, between: Store, after: Store,
                    recovered: bool, ends: seq<nat>, remaining: seq<FailedCall>)
    requires failed != [] && limit > 0 && ends != [] && ends[0] == between.calls
    requires RetryStates(oracle, failed[0], 1, limit, before, between, recovered)
    requires Tallies(oracle, failed[1..], ends[1..], limit, between, after, remaining)
    ensures Tallies(oracle, failed, ends, limit, before, after, if recovered then remaining else [failed[0]] + remaining)
  {
    var end := between.calls;
    assert after.askErrors == before.askErrors + Filed(oracle, failed, before.calls, ends) by {
      SeqAssoc(before.askErrors, FiledBy(oracle, failed[0], before.calls, end), Filed(oracle, failed[1..], end, ends[1..]));
    }
    assert Waited(0) == 0;
    assert EmptyAtLast(oracle, failed, ends) == if recovered then remaining else [failed[0]] + remaining by {
      assert [] + remaining == remaining;
    }
  }

  lemma SeqAssoc<T>(a: seq<T>, b: seq<T>, c: seq<T>)
    ensures a + b + c == a + (b + c)
  {
  }

  lemma RecoverCons(oracle: Oracle, namespace: string, store: Store, failed: seq<FailedCall>, limit: nat)
    requires failed != [] && Known(store.armMap, failed)
    requires Known(Retry(oracle, namespace, store, failed[0], 1, limit).0.armMap, failed[1..])
    ensures var (retried, recovered) := Retry(oracle, namespace, store, failed[0], 1, limit);
            var (final, remaining) := Recover(oracle, namespace, retried, failed[1..], limit);
            Recover(oracle, namespace, store, failed, limit) == (final, if recovered then remaining else [failed[0]] + remaining)
  {
  }

  /** The first call's retry, and then the pass over the others. */
  lemma RetryThenPass(oracle: Oracle, namespace: string, store: Store, failed: seq<FailedCall>, limit: nat, ends: seq<nat>,
                      retried: Store, recovered: bool, final: Store, remaining: seq<FailedCall>)
    requires P.DistinctCalls(failed) && failed != [] && DistinctRows(store.recorded)
    requires Known(store.armMap, failed) && limit > 0
    requires (retried, recovered) == Retry(oracle, namespace, store, failed[0], 1, limit)
    requires ends != [] && ends[0] == retried.calls
    requires PassStates(oracle, failed[1..], ends[1..], limit, retried, final, remaining)
    requires retried.calls > 0 && LeftBy(oracle, failed[0], retried.calls - 1, store.armMap, final)
    ensures PassStates(oracle, failed, ends, limit, store, final, if recovered then remaining else [failed[0]] + remaining)
  {
    assert RetryStates(oracle, failed[0], 1, limit, store, retried, recovered) by {
      RetryIs(oracle, namespace, store, failed[0], 1, limit);
    }
    assert AllLeft(oracle, failed, ends, store.armMap, final) by {
      AllLeftCons(oracle, namespace, store, failed, limit, ends, retried.armMap, final);
    }
    TalliesCons(oracle, failed, limit, store, retried, final, recovered, ends, remaining);
  }

  /**
   The pass, exactly: how its model calls divide among the queued calls, the row and the map entry each of
   them ends with, the complaints filed, the seconds waited, and the calls that remain.
   */
  lemma {:induction false} RecoverTrace(oracle: Oracle, namespace: string, store: Store, failed: seq<FailedCall>, limit: nat)
    returns (ends: seq<nat>)
    requires P.DistinctCalls(failed) && DistinctRows(store.recorded)
    requires Known(store.armMap, failed) && Pending(store.armMap, failed)
    requires limit > 0
    ensures var (final, remaining) := Recover(oracle, namespace, store, failed, limit);
            PassStates(oracle, failed, ends, limit, store, final, remaining)
    decreases |failed|
  {
    if failed == [] {
      ends := [];
    } else {
      var (retried, recovered) := Retry(oracle, namespace, store, failed[0], 1, limit);
      TailIsReady(oracle, namespace, store, failed, limit);
      var rest := RecoverTrace(oracle, namespace, retried, failed[1..], limit);
      var (final, remaining) := Recover(oracle, namespace, retried, failed[1..], limit);
      RecoverCons(oracle, namespace, store, failed, limit);
      FirstLeft(oracle, namespace, store, failed, limit);
      ends := [retried.calls] + rest;
      assert ends[1..] == rest;
      RetryThenPass(oracle, namespace, store, failed, limit, ends, retried, recovered, final, remaining);
    }
  }

  /** The division of the model calls is determined by what the model does. */
  lemma {:induction false} DivisionIsUnique(oracle: Oracle, failed: seq<FailedCall>, first: nat, left: seq<nat>, right: seq<nat>,
                                            limit: nat)
    requires Divided(oracle, failed, first, left, limit) && Divided(oracle, failed, first, right, limit)
    ensures left == right
  {
    if failed != [] {
      AttemptsAreUnique(oracle, failed[0], first, left[0], right[0], limit);
      DivisionIsUnique(oracle, failed[1..], left[0], left[1..], right[1..], limit);
      assert left == [left[0]] + left[1..] && right == [right[0]] + right[1..];
    }
  }

  lemma AttemptsAreUnique(oracle: Oracle, call: FailedCall, from: nat, left: nat, right: nat, limit: nat)
    requires Attempted(oracle, call, from, left, limit) && Attempted(oracle, call, from, right, limit)
    ensures left == right
  {
  }

  /** Without an attempt to make, the pass changes nothing and every queued call remains. */
  lemma {:induction false} NoAttemptNoChange(oracle: Oracle, namespace: string, store: Store, failed: seq<FailedCall>, limit: int)
    requires Known(store.armMap, failed) && limit <= 0
    ensures Recover(oracle, namespace, store, failed, limit) == (store, failed)
    decreases |failed|
  {
    if failed != [] {
      NoAttemptNoChange(oracle, namespace, store, failed[1..], limit);
      assert failed == [failed[0]] + failed[1..];
    }
  }

  /** Both passes from their events and model calls alone, whatever the interleaving of the first. */
  lemma EvaluationTrace(cfg: P.Config, events: seq<P.Event>, seeded: set<string>, oracle: Oracle, namespace: string, limit: nat)
    returns (ends: seq<nat>)
    requires P.DistinctProbes(cfg) && P.Run(cfg, P.Start(cfg), events).Some?
    requires P.Joined(P.Run(cfg, P.Start(cfg), events).value) && limit > 0
    ensures var s := P.Run(cfg, P.Start(cfg), events).value;
            && J.JoinStates(cfg, events, s)
            && P.Delivered(cfg, s)
            && var store := StoreAtJoin(cfg, s, seeded);
            && Known(store.armMap, s.failed)
            && var (final, remaining) := Recover(oracle, namespace, store, s.failed, limit);
               PassStates(oracle, s.failed, ends, limit, store, final, remaining)
  {
    var s := P.Run(cfg, P.Start(cfg), events).value;
    J.JoinFollowsEvents(cfg, events);
    P.AtJoin(cfg, events);
    JoinIsReady(cfg, s, seeded);
    ends := RecoverTrace(oracle, namespace, StoreAtJoin(cfg, s, seeded), s.failed, limit);
  }
}
