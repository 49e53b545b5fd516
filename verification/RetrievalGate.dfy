/** Case results and the evaluation-only abstention gate of the retrieval evaluator. */
module RetrievalGate {
  import opened Wrappers

  /**
   A finite double is represented by its rank among the finite doubles, with the two zeros sharing
   rank 0. Ranks beyond LARGEST are the infinities. Comparison is then comparison of ranks.
   */
  type Double = int

  const LARGEST: Double := 0x7FEF_FFFF_FFFF_FFFF

  predicate Finite(x: Double) {
    -LARGEST <= x <= LARGEST
  }

  /** `math.nextafter(x, math.inf)` */
  function NextAfter(x: Double): Double {
    x + 1
  }

  /** The two rounded operations the evaluator performs on scores; nothing is assumed of either. */
  datatype Arithmetic = Arithmetic(midpoint: (Double, Double) -> Double, difference: (Double, Double) -> Double)

  datatype ScoreKind = DenseCosine | Bm25 | Rrf | Jina

  datatype GateKind = AbsoluteScore | Margin

  const NO_RESULTS := "no_results"

  datatype CaseResult = CaseResult(
    caseId: string,
    probe: string,
    expectedDocumentIds: seq<string>,
    expectedSections: seq<string>,
    returnedDocumentIds: seq<string>,
    returnedSections: seq<Option<string>>,
    returnedScores: seq<Double>,
    configuredScoreKind: ScoreKind,
    observedScoreKind: Option<ScoreKind>,
    rerankerRequested: bool,
    rerankerApplied: bool,
    retrievalStatus: string,
    latencyMs: nat)

  /** What `CaseResult.__post_init__` lets through. */
  predicate WellFormed(a: Arithmetic, c: CaseResult) {
    && |c.returnedDocumentIds| == |c.returnedSections| == |c.returnedScores|
    && (forall i | 0 <= i < |c.returnedScores| :: Finite(c.returnedScores[i]))
    && (|c.returnedScores| > 1 ==> Finite(a.difference(c.returnedScores[0], c.returnedScores[1])))
    && (c.returnedScores != [] <==> c.observedScoreKind.Some?)
    && c.rerankerRequested == (c.configuredScoreKind == Jina)
    && (c.rerankerApplied ==> c.rerankerRequested)
    && c.rerankerApplied == (c.observedScoreKind == Some(Jina))
    && (c.observedScoreKind.Some? ==>
          || c.observedScoreKind.value == c.configuredScoreKind
          || (c.configuredScoreKind == Jina && c.observedScoreKind.value == Rrf))
  }

  predicate AllWellFormed(a: Arithmetic, results: seq<CaseResult>) {
    forall i | 0 <= i < |results| :: WellFormed(a, results[i])
  }

  datatype ScoreSummary = ScoreSummary(topScore: Option<Double>, runnerUpScore: Option<Double>, delta: Option<Double>)

  function Summarize(a: Arithmetic, c: CaseResult): ScoreSummary {
    var top := if c.returnedScores != [] then Some(c.returnedScores[0]) else None;
    var runnerUp := if |c.returnedScores| > 1 then Some(c.returnedScores[1]) else None;
    var delta := if top.Some? && runnerUp.Some? then Some(a.difference(top.value, runnerUp.value)) else None;
    ScoreSummary(top, runnerUp, delta)
  }

  function GatedValue(a: Arithmetic, kind: GateKind, c: CaseResult): Option<Double> {
    if kind == AbsoluteScore then Summarize(a, c).topScore else Summarize(a, c).delta
  }

  predicate Abstained(c: CaseResult) {
    c.retrievalStatus == NO_RESULTS || c.returnedDocumentIds == []
  }

  datatype Gate = Gate(scoreKind: ScoreKind, kind: GateKind, threshold: Double)

  /** The gate withholds this case's results. */
  predicate Fires(a: Arithmetic, g: Gate, c: CaseResult) {
    && !Abstained(c)
    && c.observedScoreKind == Some(g.scoreKind)
    && var value := GatedValue(a, g.kind, c);
    && value.Some?
    && value.value < g.threshold
  }

  /** The `replace(...)` of a withheld case. */
  function Withhold(c: CaseResult): CaseResult {
    c.(returnedDocumentIds := [], returnedSections := [], returnedScores := [],
       observedScoreKind := None, rerankerApplied := false, retrievalStatus := NO_RESULTS)
  }

  function GateCase(a: Arithmetic, g: Gate, c: CaseResult): CaseResult {
    if Fires(a, g, c) then Withhold(c) else c
  }

  function ApplyGate(a: Arithmetic, g: Gate, results: seq<CaseResult>): seq<CaseResult> {
    seq(|results|, i requires 0 <= i < |results| => GateCase(a, g, results[i]))
  }

  datatype GateError = NonFiniteThreshold

  method SimulateGate(a: Arithmetic, results: seq<CaseResult>, g: Gate)
    returns (simulated: Result<seq<CaseResult>, GateError>)
    ensures !Finite(g.threshold) ==> simulated == Err(NonFiniteThreshold)
    ensures Finite(g.threshold) ==> simulated == Ok(ApplyGate(a, g, results))
  {
    if !Finite(g.threshold) {
      return Err(NonFiniteThreshold);
    }
    var out: seq<CaseResult> := [];
    for i := 0 to |results|
      invariant |out| == i
      invariant forall j | 0 <= j < i :: out[j] == GateCase(a, g, results[j])
    {
      var c := results[i];
      if Abstained(c) || c.observedScoreKind != Some(g.scoreKind) {
        out := out + [c];
        continue;
      }
      var summary := Summarize(a, c);
      var value := if g.kind == AbsoluteScore then summary.topScore else summary.delta;
      if value.None? || value.value >= g.threshold {
        out := out + [c];
        continue;
      }
      out := out + [Withhold(c)];
    }
    assert out == ApplyGate(a, g, results);
    return Ok(out);
  }

  /** A gate never builds a case the constructor would reject, and it reaches no field but the retrieval outcome. */
  lemma GateKeepsWellFormed(a: Arithmetic, g: Gate, results: seq<CaseResult>)
    requires AllWellFormed(a, results)
    ensures AllWellFormed(a, ApplyGate(a, g, results))
    ensures forall i | 0 <= i < |results| ::
              var after := ApplyGate(a, g, results)[i];
              && after.caseId == results[i].caseId
              && after.probe == results[i].probe
              && after.expectedDocumentIds == results[i].expectedDocumentIds
              && after.expectedSections == results[i].expectedSections
              && (Abstained(after) <==> Abstained(results[i]) || Fires(a, g, results[i]))
  {
    forall i | 0 <= i < |results| ensures WellFormed(a, GateCase(a, g, results[i])) {
      assert WellFormed(a, results[i]);
    }
  }

  // ---- chains of gates ----

  function ApplyGates(a: Arithmetic, gates: seq<Gate>, results: seq<CaseResult>): seq<CaseResult>
    decreases |gates|
  {
    if gates == [] then results else ApplyGates(a, gates[1..], ApplyGate(a, gates[0], results))
  }

  function GateSet(gates: seq<Gate>): set<Gate> {
    set g | g in gates
  }

  ghost predicate AnyFires(a: Arithmetic, gates: set<Gate>, c: CaseResult) {
    exists g | g in gates :: Fires(a, g, c)
  }

  /** The chain's meaning without its order: a case is withheld when some gate would withhold the original. */
  lemma {:induction false} ChainClosedForm(a: Arithmetic, gates: seq<Gate>, results: seq<CaseResult>)
    ensures |ApplyGates(a, gates, results)| == |results|
    ensures forall i | 0 <= i < |results| ::
              ApplyGates(a, gates, results)[i]
              == if AnyFires(a, GateSet(gates), results[i]) then Withhold(results[i]) else results[i]
    decreases |gates|
  {
    if gates != [] {
      var first := ApplyGate(a, gates[0], results);
      ChainClosedForm(a, gates[1..], first);
      forall i | 0 <= i < |results|
        ensures ApplyGates(a, gates, results)[i]
                == if AnyFires(a, GateSet(gates), results[i]) then Withhold(results[i]) else results[i]
      {
        assert forall g :: g in gates <==> g == gates[0] || g in gates[1..];
        if Fires(a, gates[0], results[i]) {
          assert !AnyFires(a, GateSet(gates[1..]), Withhold(results[i]));
        } else {
          assert first[i] == results[i];
        }
      }
    }
  }

  /** Order and repetition of gates do not matter, whatever their kinds and score spaces. */
  lemma ChainDependsOnlyOnGateSet(a: Arithmetic, left: seq<Gate>, right: seq<Gate>, results: seq<CaseResult>)
    requires GateSet(left) == GateSet(right)
    ensures ApplyGates(a, left, results) == ApplyGates(a, right, results)
  {
    ChainClosedForm(a, left, results);
    ChainClosedForm(a, right, results);
  }

  lemma GatesCommute(a: Arithmetic, g: Gate, h: Gate, results: seq<CaseResult>)
    ensures ApplyGate(a, g, ApplyGate(a, h, results)) == ApplyGate(a, h, ApplyGate(a, g, results))
  {
    ApplyGatesPair(a, g, h, results);
    ApplyGatesPair(a, h, g, results);
    ChainDependsOnlyOnGateSet(a, [g, h], [h, g], results);
  }

  lemma ApplyGatesPair(a: Arithmetic, g: Gate, h: Gate, results: seq<CaseResult>)
    ensures ApplyGates(a, [g, h], results) == ApplyGate(a, h, ApplyGate(a, g, results))
  {
    var first := ApplyGate(a, g, results);
    assert [g, h][1..] == [h];
    assert ApplyGates(a, [h], first) == ApplyGates(a, [], ApplyGate(a, h, first));
  }

  /** Two gates over the same quantity act as the one at the larger threshold. */
  lemma SameKindGatesCompose(a: Arithmetic, scoreKind: ScoreKind, kind: GateKind, s: Double, t: Double,
                             results: seq<CaseResult>)
    ensures ApplyGate(a, Gate(scoreKind, kind, t), ApplyGate(a, Gate(scoreKind, kind, s), results))
            == ApplyGate(a, Gate(scoreKind, kind, if s < t then t else s), results)
  {
    var g, h := Gate(scoreKind, kind, s), Gate(scoreKind, kind, t);
    forall i | 0 <= i < |results|
      ensures GateCase(a, h, GateCase(a, g, results[i]))
              == GateCase(a, Gate(scoreKind, kind, if s < t then t else s), results[i])
    {
    }
  }
}
