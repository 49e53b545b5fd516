/** One (probe, arm) call of the memory evaluation: its outcome, its transcript row, and why it failed. */
module MemoryCalls {
  import opened Wrappers
  import Text

  datatype Arm = Full | Ablated | Control

  datatype Outcome = Pass | Stale | Invented | Miss | NoAnswer

  datatype Probe = Probe(probeId: string, targets: string, test: string, question: string)

  /** What `execute_single_arm` hands back. */
  datatype Reply = Reply(outcome: Outcome, certain: bool, latencyMs: nat, text: string)

  /** A finished model call: the reply with its score, and the scorer's explanation. */
  datatype Graded = Graded(reply: Reply, why: string)

  datatype Row = Row(
    probe: string,
    targets: string,
    arm: Arm,
    masked: Option<string>,
    question: string,
    reply: Reply,
    why: string)

  /** One entry of `session.ask_errors`. */
  datatype Complaint = Complaint(probe: string, arm: Arm, lines: seq<string>)

  datatype FailedCall = FailedCall(probe: Probe, arm: Arm, masked: Option<string>, errorReason: string)

  /** Rows, complaints and queued calls are all identified by probe id and arm. */
  type Key = (string, Arm)

  function RowKey(row: Row): Key {
    (row.probe, row.arm)
  }

  function CallKey(call: FailedCall): Key {
    (call.probe.probeId, call.arm)
  }

  function MaskedScope(probe: Probe, arm: Arm): Option<string> {
    if arm == Ablated then Some(probe.targets) else None
  }

  function RowFor(probe: Probe, arm: Arm, masked: Option<string>, graded: Graded): Row {
    Row(probe.probeId, probe.targets, arm, masked, probe.question, graded.reply, graded.why)
  }

  predicate Unanswered(reply: Reply) {
    reply.outcome == NoAnswer || Text.Blank(reply.text)
  }

  // ---- why a call came back empty ----

  datatype FailureKind = Contract | Transient

  function ClassifyEmptyFailure(lines: seq<string>): FailureKind {
    if exists line | line in lines :: Text.Contains(line, "chat_response_invalid") then Contract else Transient
  }

  function BeforeColon(line: string): string {
    if line == [] || line[0] == ':' then [] else [line[0]] + BeforeColon(line[1..])
  }

  function EmptyFailureReason(lines: seq<string>): string {
    if lines == [] then "empty_reply"
    else
      var code := Text.Strip(BeforeColon(lines[0]));
      if code == [] then "empty_reply" else code
  }

  /** The most recent complaint about this call. */
  function AskErrorLines(errors: seq<Complaint>, key: Key): seq<string> {
    if errors == [] then []
    else
      var last := errors[|errors| - 1];
      if (last.probe, last.arm) == key then last.lines else AskErrorLines(errors[..|errors| - 1], key)
  }

  lemma ComplaintsOfOthers(errors: seq<Complaint>, c: Complaint, key: Key)
    requires (c.probe, c.arm) != key
    ensures AskErrorLines(errors + [c], key) == AskErrorLines(errors, key)
  {
    assert (errors + [c])[..|errors|] == errors;
  }

  // ---- the shared transcript ----

  function FindRow(recorded: seq<Row>, key: Key): (slot: Option<nat>)
    ensures slot.Some? ==> slot.value < |recorded| && RowKey(recorded[slot.value]) == key
  {
    if recorded == [] then None
    else if RowKey(recorded[0]) == key then Some(0)
    else
      var rest := FindRow(recorded[1..], key);
      if rest.Some? then Some(rest.value + 1) else None
  }

  function Lookup(recorded: seq<Row>, key: Key): Option<Row> {
    var slot := FindRow(recorded, key);
    if slot.Some? then Some(recorded[slot.value]) else None
  }

  /** Update the row in its slot, or append when the search found none. */
  function WriteRow(recorded: seq<Row>, slot: Option<nat>, row: Row): seq<Row> {
    if slot.Some? && slot.value < |recorded| then recorded[slot.value := row] else recorded + [row]
  }

  function Upsert(recorded: seq<Row>, row: Row): seq<Row> {
    WriteRow(recorded, FindRow(recorded, RowKey(row)), row)
  }

  ghost predicate DistinctRows(recorded: seq<Row>) {
    forall i, j :: 0 <= i < j < |recorded| ==> RowKey(recorded[i]) != RowKey(recorded[j])
  }

  lemma {:induction false} FindRowIsFirst(recorded: seq<Row>, key: Key)
    ensures FindRow(recorded, key).None? <==> forall i | 0 <= i < |recorded| :: RowKey(recorded[i]) != key
    ensures FindRow(recorded, key).Some? ==> forall i | 0 <= i < FindRow(recorded, key).value :: RowKey(recorded[i]) != key
  {
    if recorded != [] && RowKey(recorded[0]) != key {
      FindRowIsFirst(recorded[1..], key);
    }
  }

  /** A transcript without repeats is a table: writing one key's row changes that key alone. */
  lemma UpsertIsTableWrite(recorded: seq<Row>, row: Row)
    requires DistinctRows(recorded)
    ensures DistinctRows(Upsert(recorded, row))
    ensures |Upsert(recorded, row)| == |recorded| + if Lookup(recorded, RowKey(row)).None? then 1 else 0
    ensures forall k :: Lookup(Upsert(recorded, row), k) == if k == RowKey(row) then Some(row) else Lookup(recorded, k)
    ensures forall i | 0 <= i < |recorded| :: RowKey(Upsert(recorded, row)[i]) == RowKey(recorded[i])
  {
    var after := Upsert(recorded, row);
    FindRowIsFirst(recorded, RowKey(row));
    forall k ensures Lookup(after, k) == if k == RowKey(row) then Some(row) else Lookup(recorded, k) {
      FindRowIsFirst(recorded, k);
      FindRowIsFirst(after, k);
      LookupUnique(after, k);
      LookupUnique(recorded, k);
      if k == RowKey(row) {
        var slot := if FindRow(recorded, k).Some? then FindRow(recorded, k).value else |recorded|;
        assert after[slot] == row;
      } else if FindRow(recorded, k).Some? {
        assert after[FindRow(recorded, k).value] == recorded[FindRow(recorded, k).value];
      }
    }
  }

  lemma LookupUnique(recorded: seq<Row>, key: Key)
    requires DistinctRows(recorded)
    ensures forall i | 0 <= i < |recorded| && RowKey(recorded[i]) == key :: FindRow(recorded, key) == Some(i)
  {
    FindRowIsFirst(recorded, key);
    forall i | 0 <= i < |recorded| && RowKey(recorded[i]) == key ensures FindRow(recorded, key) == Some(i) {
      var j := FindRow(recorded, key).value;
      assert RowKey(recorded[j]) == RowKey(recorded[i]);
    }
  }
}
