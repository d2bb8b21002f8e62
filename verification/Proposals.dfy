// `propose_candidates`: the operators, their patches and one generation of candidates.
module Proposals {
  import opened Json
  import CanonicalJson
  import opened PolicyDsl
  import opened Signing
  import opened Arithmetic

  datatype Operator = RetrievalTuning | PromptRefinement | ActionRuleAdjustment | TerminationTuning

  function Target(op: Operator): (component: string)
    ensures component in ALLOWED_COMPONENTS
  {
    match op
    case RetrievalTuning => "retrieval_policy"
    case PromptRefinement => "response_policy"
    case ActionRuleAdjustment => "action_policy"
    case TerminationTuning => "termination_policy"
  }

  // `int(...)` of the current retrieval width and turn limit, with the defaults of the code; None
  // where reading or converting it raises.
  function ContextK(d: Dict): Option<int> {
    if !OptionalObj(d, "retrieval_policy") then None
    else ToInt(GetOr(Component(d, "retrieval_policy"), "context_k", Int(6)))
  }

  function MaxTurns(d: Dict): Option<int> {
    if !OptionalObj(d, "termination_policy") then None
    else ToInt(GetOr(Component(d, "termination_policy"), "max_turns", Int(30)))
  }

  function RetrievalPatch(k: int): Dict {
    map["context_k" := Int(Min(12, k + 2)), "on_low_confidence" := Str("broaden")]
  }

  function TerminationPatch(t: int): Dict {
    map["max_turns" := Int(Min(40, t)), "stop_on_goal" := Bool(true)]
  }

  // The patch an operator suggests for a document; None where building it raises.
  function Patch(d: Dict, op: Operator): Option<Dict> {
    match op
    case RetrievalTuning => if ContextK(d).None? then None else Some(RetrievalPatch(ContextK(d).value))
    case PromptRefinement => Some(map["clarity" := Str("high"), "max_paragraphs" := Int(3)])
    case ActionRuleAdjustment =>
      Some(map["prefer_progressive_discovery" := Bool(true), "one_pain_point_per_turn" := Bool(true)])
    case TerminationTuning => if MaxTurns(d).None? then None else Some(TerminationPatch(MaxTurns(d).value))
  }

  // ---- One generation ---------------------------------------------------------------------------------

  type Evidence = map<string, real>

  predicate Below(evidence: Evidence, key: string, threshold: real) {
    (if key in evidence then evidence[key] else 1.0) < threshold
  }

  // The operators that the evidence calls for, in the order of the code.
  function Fired(evidence: Evidence): seq<Operator> {
    (if Below(evidence, "grounding", 0.95) then [RetrievalTuning] else [])
    + (if Below(evidence, "conversation_quality", 0.85) then [PromptRefinement] else [])
    + (if Below(evidence, "state_progress", 0.85) then [ActionRuleAdjustment] else [])
    + [TerminationTuning]
  }

  // Which evidence calls for which operator; the order is that of the operators, and a limit of four
  // loses none.
  lemma FiredExactly(evidence: Evidence)
    ensures RetrievalTuning in Fired(evidence) <==> "grounding" in evidence && evidence["grounding"] < 0.95
    ensures PromptRefinement in Fired(evidence) <==>
      "conversation_quality" in evidence && evidence["conversation_quality"] < 0.85
    ensures ActionRuleAdjustment in Fired(evidence) <==>
      "state_progress" in evidence && evidence["state_progress"] < 0.85
    ensures Fired(evidence) != [] && Fired(evidence)[|Fired(evidence)| - 1] == TerminationTuning
    ensures forall i, j | 0 <= i < j < |Fired(evidence)| :: Place(Fired(evidence)[i]) < Place(Fired(evidence)[j])
    ensures SliceTo(Fired(evidence), 4) == Fired(evidence)
  {
  }

  function Place(op: Operator): nat {
    match op
    case RetrievalTuning => 0
    case PromptRefinement => 1
    case ActionRuleAdjustment => 2
    case TerminationTuning => 3
  }

  // `suggestions[:limit]`; a negative limit drops from the end.
  function SliceTo<T>(s: seq<T>, limit: int): seq<T> {
    if limit >= |s| then s
    else if limit >= 0 then s[..limit]
    else if |s| + limit >= 0 then s[..|s| + limit]
    else []
  }

  lemma SliceReads<T>(s: seq<T>, limit: int)
    ensures SliceTo(s, limit) <= s
    ensures |SliceTo(s, limit)| ==
      if limit >= 0 then Min(limit, |s|) else if |s| + limit >= 0 then |s| + limit else 0
  {
  }

  datatype Validation = Valid | Invalid

  datatype Candidate = Candidate(
    document: Dict, diff: map<string, Change>, operator: Operator, contentHash: string, validation: Validation)

  // A generation fails as a whole when one of the suggested patches cannot be built, or one of
  // those within the limit cannot be applied.
  predicate Raises(base: Dict, evidence: Evidence, limit: int) {
    || (exists op | op in Fired(evidence) :: Patch(base, op).None?)
    || (exists op | op in SliceTo(Fired(evidence), limit) :: Step(base, op).None?)
  }

  // The child that an operator produces; None where its patch cannot be built or applied.
  function Step(base: Dict, op: Operator): Option<Dict> {
    if Patch(base, op).None? || ApplyMutation(base, Target(op), Patch(base, op).value).Err? then None
    else Some(ApplyMutation(base, Target(op), Patch(base, op).value).value)
  }

  lemma StepIsAccepted(base: Dict, op: Operator)
    requires SchemaValid(base) && Step(base, op).Some?
    ensures Accepted(base, Step(base, op).value, {}) && SchemaValid(Step(base, op).value)
  {
    MutationIsAccepted(base, Target(op), Patch(base, op).value);
  }

  // What each operator writes into its component, which keeps its other entries.
  lemma StepWrites(base: Dict, op: Operator)
    requires SchemaValid(base) && Step(base, op).Some?
    ensures OptionalObj(base, Target(op)) && OptionalObj(Step(base, op).value, Target(op))
    ensures op.RetrievalTuning? ==> ContextK(base).Some?
    ensures op.TerminationTuning? ==> MaxTurns(base).Some?
    ensures var child := Step(base, op).value;
      var written := Component(child, Target(op));
      && (forall key | key in base && key != Target(op) :: key in child && child[key] == base[key])
      && (forall key | key in Component(base, Target(op)) && key !in Written(op) ::
            key in written && written[key] == Component(base, Target(op))[key])
      && written.Keys == Component(base, Target(op)).Keys + Written(op)
      && match op
         case RetrievalTuning =>
           && written["context_k"] == Int(if ContextK(base).value < 10 then ContextK(base).value + 2 else 12)
           && written["on_low_confidence"] == Str("broaden")
         case PromptRefinement => written["clarity"] == Str("high") && written["max_paragraphs"] == Int(3)
         case ActionRuleAdjustment =>
           && written["prefer_progressive_discovery"] == Bool(true)
           && written["one_pain_point_per_turn"] == Bool(true)
         case TerminationTuning =>
           && written["max_turns"] == Int(if MaxTurns(base).value < 40 then MaxTurns(base).value else 40)
           && written["stop_on_goal"] == Bool(true)
  {
    StepIsAccepted(base, op);
    assert OptionalObj(base, Target(op)) && OptionalObj(Step(base, op).value, Target(op));
    hide SchemaValid, Accepted;
  }

  function Written(op: Operator): set<string> {
    match op
    case RetrievalTuning => {"context_k", "on_low_confidence"}
    case PromptRefinement => {"clarity", "max_paragraphs"}
    case ActionRuleAdjustment => {"prefer_progressive_discovery", "one_pain_point_per_turn"}
    case TerminationTuning => {"max_turns", "stop_on_goal"}
  }

  // A child is valid exactly when its base is: a step keeps every other field.
  lemma StepIsAcceptedExactly(base: Dict, op: Operator)
    requires Step(base, op).Some?
    ensures Accepted(base, Step(base, op).value, {}) <==> SchemaValid(base)
    ensures SchemaValid(Step(base, op).value) <==> SchemaValid(base)
  {
    var child := Step(base, op).value;
    if SchemaValid(base) {
      StepIsAccepted(base, op);
    } else if SchemaValid(child) {
      forall key | key in ALLOWED_COMPONENTS ensures OptionalObj(base, key) { assert OptionalObj(child, key); }
      assert SchemaValid(base);
    }
  }

  ghost predicate IsCandidate(c: Crypto, base: Dict, op: Operator, candidate: Candidate) {
    && Step(base, op) == Some(candidate.document)
    && candidate.diff == DiffOf(base, candidate.document)
    && candidate.operator == op
    && candidate.contentHash == ContentHash(c, candidate.document)
    && candidate.validation == (if SchemaValid(base) then Valid else Invalid)
  }

  method MakeCandidate(c: Crypto, base: Dict, op: Operator) returns (candidate: Candidate)
    requires Step(base, op).Some?
    ensures IsCandidate(c, base, op, candidate)
  {
    var document := ApplyMutation(base, Target(op), Patch(base, op).value).value;
    StepIsAcceptedExactly(base, op);
    hide SchemaValid, Accepted, Patch, ApplyMutation, DiffOf, Violates;
    var errors := ValidateMutation(base, document, {});
    var diff := SemanticDiff(base, document);
    candidate := Candidate(document, diff, op, ContentHash(c, document), if errors == [] then Valid else Invalid);
  }

  // One candidate for each operator that fired, in order and cut at the limit; they are valid exactly
  // when the base is.
  method ProposeCandidates(c: Crypto, base: Dict, evidence: Evidence, limit: int)
    returns (result: Option<seq<Candidate>>)
    ensures result.None? <==> Raises(base, evidence, limit)
    ensures result.Some? ==> AreCandidates(c, base, SliceTo(Fired(evidence), limit), result.value)
  {
    if Raises(base, evidence, limit) { return None; }
    var ops := SliceTo(Fired(evidence), limit);
    var candidates := MakeCandidates(c, base, ops);
    result := Some(candidates);
  }

  lemma SliceIsPart<T>(s: seq<T>, limit: int)
    ensures forall x | x in SliceTo(s, limit) :: x in s
  {
  }

  method MakeCandidates(c: Crypto, base: Dict, ops: seq<Operator>) returns (candidates: seq<Candidate>)
    requires forall op | op in ops :: Step(base, op).Some?
    ensures AreCandidates(c, base, ops, candidates)
  {
    hide IsCandidate, Step;
    candidates := [];
    for i := 0 to |ops|
      invariant |candidates| == i
      invariant forall j | 0 <= j < i :: IsCandidate(c, base, ops[j], candidates[j])
    {
      var candidate := MakeCandidate(c, base, ops[i]);
      candidates := candidates + [candidate];
    }
  }

  ghost predicate AreCandidates(c: Crypto, base: Dict, ops: seq<Operator>, candidates: seq<Candidate>) {
    |candidates| == |ops| && forall i | 0 <= i < |ops| :: IsCandidate(c, base, ops[i], candidates[i])
  }

  // Main result: exactly when a proposed candidate has an empty diff and yet a new hash.
  lemma SilentCandidateExactly(c: Crypto, base: Dict, candidate: Candidate)
    requires CollisionFree(c) && SchemaValid(base) && IsCandidate(c, base, candidate.operator, candidate)
    ensures OptionalObj(base, Target(candidate.operator)) && Patch(base, candidate.operator).Some?
    ensures candidate.diff == map[] && candidate.contentHash != ContentHash(c, base) <==>
      && HoldsAlready(base, Target(candidate.operator), Patch(base, candidate.operator).value)
      && Rewrites(base, Target(candidate.operator), Patch(base, candidate.operator).value)
  {
    SilentMutationExactly(base, Target(candidate.operator), Patch(base, candidate.operator).value);
    hide SchemaValid, CanonicalJson.Print, DiffOf, HoldsAlready, Rewrites, Patch;
  }

  // Such a one: the stop flag is there already, as a 1.
  lemma SilentCandidateExists(base: Dict)
    requires SchemaValid(base) && "termination_policy" in base
    requires base["termination_policy"] == Obj(map["max_turns" := Int(30), "stop_on_goal" := Int(1)])
    ensures Patch(base, TerminationTuning).Some? && OptionalObj(base, Target(TerminationTuning))
    ensures HoldsAlready(base, Target(TerminationTuning), Patch(base, TerminationTuning).value)
    ensures Rewrites(base, Target(TerminationTuning), Patch(base, TerminationTuning).value)
  {
    var patch := TerminationPatch(30);
    assert Patch(base, TerminationTuning) == Some(patch);
    hide SchemaValid;
    assert "stop_on_goal" in patch && Component(base, "termination_policy")["stop_on_goal"] != patch["stop_on_goal"];
  }
}
