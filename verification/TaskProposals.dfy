/** What a task proposal must look like before an event may carry it. */
module TaskProposals {
  import opened Wrappers
  import opened JsonValues
  import Text

  const MAX_TITLE := 200
  const MAX_PARAPHRASE := 1000
  const MAX_LIST_ITEMS := 20
  const MAX_LIST_ITEM := 500
  const MAX_CITATIONS := 20
  const MAX_EPISODE_CITATION_DOCUMENT_ID := 256
  const MAX_EPISODE_CITATION_DOCUMENT_TITLE := 300
  const MAX_EPISODE_CITATION_SECTION := 300
  const MAX_EPISODE_CITATION_SOURCE_URL := 2048

  const PROPOSAL_FIELDS: seq<string> := [
    "episode_id", "task_title", "minimal_request_paraphrase", "action_plan", "missing_information", "rag_citations",
    "validation_status", "retrieval_eligible"]

  const CITATION_FIELDS: seq<string> := ["document_id", "document_title", "section", "source_url"]

  /** `value[name]` of a mapping, which holds each key once. */
  function Field(entries: seq<(string, Value)>, name: string): Option<Value> {
    if entries == [] then None
    else if entries[0].0 == name then Some(entries[0].1)
    else Field(entries[1..], name)
  }

  predicate DistinctKeys(entries: seq<(string, Value)>) {
    forall i, j | 0 <= i < j < |entries| :: entries[i].0 != entries[j].0
  }

  /** The mapping has exactly these keys. */
  predicate ExactKeys(entries: seq<(string, Value)>, names: seq<string>) {
    && DistinctKeys(entries)
    && (forall i | 0 <= i < |entries| :: entries[i].0 in names)
    && forall i | 0 <= i < |names| :: Field(entries, names[i]).Some?
  }

  predicate BoundedString(v: Value, maximum: nat) {
    v.VString? && Bounded(v.s, maximum)
  }

  predicate BoundedStrings(v: Value, maxItems: nat, maximum: nat) {
    v.VTuple? && |v.items| <= maxItems && forall i | 0 <= i < |v.items| :: BoundedString(v.items[i], maximum)
  }

  predicate CitationFieldOk(name: string, v: Value) {
    if name == "document_id" then BoundedString(v, MAX_EPISODE_CITATION_DOCUMENT_ID)
    else if name == "document_title" then BoundedString(v, MAX_EPISODE_CITATION_DOCUMENT_TITLE)
    else if name == "section" then v.VNull? || BoundedString(v, MAX_EPISODE_CITATION_SECTION)
    else BoundedString(v, MAX_EPISODE_CITATION_SOURCE_URL)
  }

  /** `EpisodeCitation.from_dict` accepts the mapping. */
  predicate CitationOk(v: Value) {
    && v.VMapping?
    && ExactKeys(v.entries, CITATION_FIELDS)
    && forall i | 0 <= i < |v.entries| :: CitationFieldOk(v.entries[i].0, v.entries[i].1)
  }

  predicate ValidationStatus(v: Value) {
    v.VString? && (v.s == "system_generated" || v.s == "user_approved" || v.s == "completed" || v.s == "rejected")
  }

  function ExpectedEligibility(status: string): bool {
    status == "user_approved" || status == "completed"
  }

  predicate ProposalFieldOk(name: string, v: Value) {
    if name == "episode_id" then v.VString? && !Text.Blank(v.s)
    else if name == "task_title" then BoundedString(v, MAX_TITLE)
    else if name == "minimal_request_paraphrase" then BoundedString(v, MAX_PARAPHRASE)
    else if name == "action_plan" || name == "missing_information" then BoundedStrings(v, MAX_LIST_ITEMS, MAX_LIST_ITEM)
    else if name == "rag_citations" then
      v.VTuple? && |v.items| <= MAX_CITATIONS && forall i | 0 <= i < |v.items| :: CitationOk(v.items[i])
    else if name == "validation_status" then ValidationStatus(v)
    else v.VBool?
  }

  predicate EligibilityMatches(entries: seq<(string, Value)>) {
    var status, eligible := Field(entries, "validation_status"), Field(entries, "retrieval_eligible");
    status.Some? && status.value.VString? && eligible == Some(VBool(ExpectedEligibility(status.value.s)))
  }

  /**
   `_validated_task_proposal` accepts the value. Its search for keys shaped like raw e-mail or tool payloads
   rejects nothing more: every such key already misses the exact key sets.
   */
  predicate ProposalOk(v: Value) {
    && v.VMapping?
    && ExactKeys(v.entries, PROPOSAL_FIELDS)
    && (forall i | 0 <= i < |v.entries| :: ProposalFieldOk(v.entries[i].0, v.entries[i].1))
    && EligibilityMatches(v.entries)
  }

  lemma CitationHoldsJsonOnly(v: Value)
    requires CitationOk(v)
    ensures !HoldsNonJson(v)
  {
    forall i | 0 <= i < |v.entries| ensures !HoldsNonJson(v.entries[i].1) {
      assert CitationFieldOk(v.entries[i].0, v.entries[i].1);
    }
  }

  lemma ProposalFieldHoldsJsonOnly(name: string, v: Value)
    requires ProposalFieldOk(name, v)
    ensures !HoldsNonJson(v)
  {
    if name == "rag_citations" {
      forall i | 0 <= i < |v.items| ensures !HoldsNonJson(v.items[i]) {
        CitationHoldsJsonOnly(v.items[i]);
      }
    } else if v.VTuple? {
      forall i | 0 <= i < |v.items| ensures !HoldsNonJson(v.items[i]) {
        assert BoundedString(v.items[i], MAX_LIST_ITEM);
      }
    }
  }

  /** An accepted proposal holds strings, None and booleans only, so its wire form stands for it exactly. */
  lemma ProposalSurvivesWire(v: Value)
    requires ProposalOk(v)
    ensures !HoldsNonJson(v)
    ensures Freeze(Jsonable(v)) == v && Jsonable(v).JObject?
  {
    forall i | 0 <= i < |v.entries| ensures !HoldsNonJson(v.entries[i].1) {
      ProposalFieldHoldsJsonOnly(v.entries[i].0, v.entries[i].1);
    }
    FreezeJsonable(v);
    NormalizeFixesIff(v);
  }

  /** A datetime, like an enumeration member, is refused where its own string is accepted. */
  lemma DatetimeTitleIsRefused(iso: string)
    ensures !ProposalFieldOk("task_title", VDatetime(iso))
    ensures Bounded(iso, MAX_TITLE) ==> ProposalFieldOk("task_title", Normalize(VDatetime(iso)))
  {
  }

  lemma {:induction false} FieldAt(entries: seq<(string, Value)>, i: nat)
    requires DistinctKeys(entries) && i < |entries|
    ensures Field(entries, entries[i].0) == Some(entries[i].1)
  {
    if i > 0 {
      assert entries[0].0 != entries[i].0;
      FieldAt(entries[1..], i - 1);
    }
  }

  function DraftEntries(values: seq<Value>): seq<(string, Value)>
    requires |values| == |PROPOSAL_FIELDS|
  {
    seq(|PROPOSAL_FIELDS|, i requires 0 <= i < |PROPOSAL_FIELDS| => (PROPOSAL_FIELDS[i], values[i]))
  }

  lemma ProposalFieldsDiffer()
    ensures forall i, j | 0 <= i < j < |PROPOSAL_FIELDS| :: PROPOSAL_FIELDS[i] != PROPOSAL_FIELDS[j]
  {
  }

  /** Values given field by field make an accepted proposal exactly when each field accepts its own and the eligibility fits. */
  lemma DraftAcceptedIff(values: seq<Value>)
    requires |values| == |PROPOSAL_FIELDS|
    ensures ProposalOk(VMapping(DraftEntries(values))) <==>
            && (forall i | 0 <= i < |PROPOSAL_FIELDS| :: ProposalFieldOk(PROPOSAL_FIELDS[i], values[i]))
            && values[7] == VBool(ExpectedEligibility(values[6].s))
  {
    var entries := DraftEntries(values);
    ProposalFieldsDiffer();
    forall i | 0 <= i < |PROPOSAL_FIELDS| ensures Field(entries, PROPOSAL_FIELDS[i]) == Some(values[i]) {
      FieldAt(entries, i);
    }
    assert PROPOSAL_FIELDS[6] == "validation_status" && PROPOSAL_FIELDS[7] == "retrieval_eligible";
    assert ExactKeys(entries, PROPOSAL_FIELDS);
    forall i | 0 <= i < |PROPOSAL_FIELDS|
      ensures ProposalFieldOk(entries[i].0, entries[i].1) <==> ProposalFieldOk(PROPOSAL_FIELDS[i], values[i])
    {
    }
    if forall i | 0 <= i < |PROPOSAL_FIELDS| :: ProposalFieldOk(PROPOSAL_FIELDS[i], values[i]) {
      assert ProposalFieldOk(PROPOSAL_FIELDS[6], values[6]);
      StatusFieldIsString(values[6]);
    }
    if ProposalOk(VMapping(entries)) {
      assert ProposalFieldOk(entries[6].0, entries[6].1);
      StatusFieldIsString(values[6]);
    }
  }

  /** The value is a string that is not blank and at most this long. */
  predicate IsShort(v: Value, maximum: nat) {
    v.VString? && |v.s| <= maximum && exists c :: c in v.s && !Text.IsSpace(c)
  }

  predicate AreShort(v: Value) {
    v.VTuple? && |v.items| <= 20 && forall i | 0 <= i < |v.items| :: IsShort(v.items[i], 500)
  }

  predicate AreCitations(v: Value) {
    v.VTuple? && |v.items| <= 20 && forall i | 0 <= i < |v.items| :: CitationOk(v.items[i])
  }

  lemma ShortIff(v: Value, maximum: nat)
    ensures BoundedString(v, maximum) <==> IsShort(v, maximum)
  {
  }

  lemma ManyShortIff(v: Value)
    ensures BoundedStrings(v, MAX_LIST_ITEMS, MAX_LIST_ITEM) <==> AreShort(v)
  {
    if v.VTuple? {
      forall i | 0 <= i < |v.items| ensures BoundedString(v.items[i], MAX_LIST_ITEM) <==> IsShort(v.items[i], 500) {
        ShortIff(v.items[i], 500);
      }
    }
  }

  /** The same, field by field: two short texts, two lists of them, citations, a status, and the eligibility it implies. */
  lemma ProposalAcceptedIff(id: string, title: Value, paraphrase: Value, plan: Value, missing: Value, citations: Value,
                            status: string, eligible: bool)
    ensures ProposalOk(VMapping(DraftEntries(
              [VString(id), title, paraphrase, plan, missing, citations, VString(status), VBool(eligible)]))) <==>
            && (exists c :: c in id && !Text.IsSpace(c))
            && IsShort(title, 200) && IsShort(paraphrase, 1000)
            && AreShort(plan) && AreShort(missing) && AreCitations(citations)
            && status in {"system_generated", "user_approved", "completed", "rejected"}
            && eligible == (status in {"user_approved", "completed"})
  {
    var values := [VString(id), title, paraphrase, plan, missing, citations, VString(status), VBool(eligible)];
    DraftAcceptedIff(values);
    FieldsAcceptIff(values);
    TextFields(id, title, paraphrase);
    ListFields(plan, missing, citations);
    FlagFields(status, eligible);
  }

  /** A citation given field by field. */
  lemma CitationAcceptedIff(document: Value, title: Value, section: Value, url: Value)
    ensures CitationOk(VMapping([("document_id", document), ("document_title", title), ("section", section), ("source_url", url)]))
            <==> IsShort(document, 256) && IsShort(title, 300) && (section == VNull || IsShort(section, 300)) && IsShort(url, 2048)
  {
    var entries := [("document_id", document), ("document_title", title), ("section", section), ("source_url", url)];
    CitationKeys(entries);
    ShortIff(document, 256);
    ShortIff(title, 300);
    ShortIff(section, 300);
    ShortIff(url, 2048);
    assert CitationOk(VMapping(entries)) <==>
           CitationFieldOk(entries[0].0, entries[0].1) && CitationFieldOk(entries[1].0, entries[1].1)
           && CitationFieldOk(entries[2].0, entries[2].1) && CitationFieldOk(entries[3].0, entries[3].1);
  }

  lemma CitationKeys(entries: seq<(string, Value)>)
    requires |entries| == 4
    requires entries[0].0 == "document_id" && entries[1].0 == "document_title"
    requires entries[2].0 == "section" && entries[3].0 == "source_url"
    ensures ExactKeys(entries, CITATION_FIELDS)
  {
    assert CITATION_FIELDS[0] == "document_id" && CITATION_FIELDS[1] == "document_title"
           && CITATION_FIELDS[2] == "section" && CITATION_FIELDS[3] == "source_url";
    FieldAt(entries, 0);
    FieldAt(entries, 1);
    FieldAt(entries, 2);
    FieldAt(entries, 3);
  }

  lemma TextFields(id: string, title: Value, paraphrase: Value)
    ensures ProposalFieldOk("episode_id", VString(id)) <==> exists c :: c in id && !Text.IsSpace(c)
    ensures ProposalFieldOk("task_title", title) <==> IsShort(title, 200)
    ensures ProposalFieldOk("minimal_request_paraphrase", paraphrase) <==> IsShort(paraphrase, 1000)
  {
    ShortIff(title, 200);
    ShortIff(paraphrase, 1000);
  }

  lemma ListFields(plan: Value, missing: Value, citations: Value)
    ensures ProposalFieldOk("action_plan", plan) <==> AreShort(plan)
    ensures ProposalFieldOk("missing_information", missing) <==> AreShort(missing)
    ensures ProposalFieldOk("rag_citations", citations) <==> AreCitations(citations)
  {
    ManyShortIff(plan);
    ManyShortIff(missing);
  }

  lemma FlagFields(status: string, eligible: bool)
    ensures ProposalFieldOk("validation_status", VString(status)) <==>
            status in {"system_generated", "user_approved", "completed", "rejected"}
    ensures ProposalFieldOk("retrieval_eligible", VBool(eligible))
    ensures ExpectedEligibility(status) <==> status in {"user_approved", "completed"}
  {
  }

  lemma FieldsAcceptIff(values: seq<Value>)
    requires |values| == 8
    ensures (forall i | 0 <= i < |PROPOSAL_FIELDS| :: ProposalFieldOk(PROPOSAL_FIELDS[i], values[i])) <==>
            && ProposalFieldOk("episode_id", values[0]) && ProposalFieldOk("task_title", values[1])
            && ProposalFieldOk("minimal_request_paraphrase", values[2])
            && ProposalFieldOk("action_plan", values[3]) && ProposalFieldOk("missing_information", values[4])
            && ProposalFieldOk("rag_citations", values[5]) && ProposalFieldOk("validation_status", values[6])
            && ProposalFieldOk("retrieval_eligible", values[7])
  {
    assert PROPOSAL_FIELDS[0] == "episode_id" && PROPOSAL_FIELDS[1] == "task_title"
           && PROPOSAL_FIELDS[2] == "minimal_request_paraphrase" && PROPOSAL_FIELDS[3] == "action_plan"
           && PROPOSAL_FIELDS[4] == "missing_information" && PROPOSAL_FIELDS[5] == "rag_citations"
           && PROPOSAL_FIELDS[6] == "validation_status" && PROPOSAL_FIELDS[7] == "retrieval_eligible";
  }

  lemma StatusFieldIsString(v: Value)
    ensures ProposalFieldOk("validation_status", v) ==> v.VString?
  {
  }
}
