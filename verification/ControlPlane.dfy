// Authoring, proposing, promoting, deploying and rolling back policy versions.
module ControlPlane {
  import opened Json
  import opened PolicyDsl
  import opened Signing
  import opened Proposals
  import opened Scoring
  import CanonicalJson
  import SelfImprovement
  import ActionSelection

  // ---- Tables ------------------------------------------------------------------------------------------------

  // A row's id is its position in its table; `name` is an agent's id as text.
  datatype Agent = Agent(tenant: string, name: string)

  datatype PolicyStatus = Signed | Unsigned

  datatype Policy = Policy(
    tenant: string, agent: nat, version: string, parent: Option<nat>, document: Dict, contentHash: string,
    signature: Option<string>, status: PolicyStatus)

  datatype DeploymentStatus = Active | RolledBack

  datatype Deployment = Deployment(
    tenant: string, agent: nat, policy: nat, stage: string, traffic: int, status: DeploymentStatus,
    rollbackTarget: Option<nat>)

  datatype Experiment = Experiment(tenant: string, baseline: nat)

  datatype CandidateRow = CandidateRow(
    tenant: string, experiment: nat, policy: nat, parent: nat, diff: map<string, Change>, validation: Validation)

  datatype Verdict = Approve | Reject | Hold

  datatype Decision = Decision(tenant: string, candidate: nat, gate: Gate, verdict: Verdict, approver: Option<string>)

  datatype Db = Db(
    agents: seq<Agent>, policies: seq<Policy>, deployments: seq<Deployment>, experiments: seq<Experiment>,
    candidates: seq<CandidateRow>, decisions: seq<Decision>)

  const EMPTY := Db([], [], [], [], [], [])

  // ---- Requests -------------------------------------------------------------------------------------------------

  datatype Promotion = Promotion(
    candidate: nat, baselineScores: Scores, candidateScores: Scores, hard: Hard, coverage: real, approve: bool)

  datatype Request =
    | CreateAgent(name: string)
    | Author(agent: nat, document: Dict, suite: Option<string>)
    | Deploy(agent: nat, policy: nat, stage: string, traffic: int, rollbackTarget: Option<nat>)
    | Rollback(deployment: nat)
    | OpenExperiment(baseline: nat)
    | Propose(experiment: nat, evidence: Evidence)
    | Promote(promotion: Promotion)

  // Who asks: a tenant and a subject within it.
  datatype Principal = Principal(tenant: string, subject: string)

  // The hash and signature functions and the signing key.
  datatype Keys = Keys(crypto: Crypto, key: string)

  datatype Failed =
    | AgentNotFound | InvalidPolicy(errors: seq<MutationError>)
    | InvalidStage | SignedPolicyRequired
    | RollbackUnavailable | RollbackTargetNotFound
    | ExperimentNotFound | BaselineNotFound | ProposalRaised

  const STAGES := {"shadow", "canary", "production"}

  // `doc.setdefault(key, value)`
  function SetDefault(d: Dict, key: string, value: Json): Dict {
    if key in d then d else d[key := value]
  }

  // A row's id is its position; this is the text of it.
  function IdText(id: nat): string {
    CanonicalJson.PrintNat(id)
  }

  lemma IdTextsDiffer(a: nat, b: nat)
    ensures IdText(a) == IdText(b) <==> a == b
  {
    CanonicalJson.PrintNatDigits(a);
    CanonicalJson.PrintNatDigits(b);
  }

  function WithDefaults(document: Dict, agentId: string, suite: Option<string>): Dict {
    var suiteName := if suite.None? || suite.value == "" then "builtin:generic-v1" else suite.value;
    SetDefault(SetDefault(SetDefault(SetDefault(document,
      "id", Str(agentId + ":policy")), "version", Str("1")), "safety_policy_ref", Str("builtin:safe-v1")),
      "evaluator_suite_ref", Str(suiteName))
  }

  // The defaults fill in the required fields and overwrite nothing that the author gave.
  lemma DefaultsFillIn(document: Dict, agentId: string, suite: Option<string>)
    ensures var full := WithDefaults(document, agentId, suite);
      && (forall key | key in document :: key in full && full[key] == document[key])
      && full.Keys == document.Keys + {"id", "version", "safety_policy_ref", "evaluator_suite_ref"}
      && ("id" !in document ==> full["id"] == Str(agentId + ":policy"))
      && ("version" !in document ==> full["version"] == Str("1"))
      && ("safety_policy_ref" !in document ==> full["safety_policy_ref"] == Str("builtin:safe-v1"))
      && ("evaluator_suite_ref" !in document ==>
            var name := if suite.None? || suite.value == "" then "builtin:generic-v1" else suite.value;
            full["evaluator_suite_ref"] == Str(name))
  {
  }

  predicate OwnAgent(db: Db, tenant: string, i: nat) { i < |db.agents| && db.agents[i].tenant == tenant }

  predicate OwnPolicy(db: Db, tenant: string, i: nat) { i < |db.policies| && db.policies[i].tenant == tenant }

  predicate OwnDeployment(db: Db, tenant: string, i: nat) { i < |db.deployments| && db.deployments[i].tenant == tenant }

  predicate OwnExperiment(db: Db, tenant: string, i: nat) { i < |db.experiments| && db.experiments[i].tenant == tenant }

  predicate OwnCandidate(db: Db, tenant: string, i: nat) { i < |db.candidates| && db.candidates[i].tenant == tenant }

  function SignedPolicy(k: Keys, p: Policy): Policy {
    p.(status := Signed, signature := Some(Sign(k.crypto, p.document, k.key)))
  }

  function Authored(k: Keys, db: Db, tenant: string, agent: nat, document: Dict): Db
    requires SchemaValid(document)
  {
    var p := Policy(tenant, agent, document["version"].s, None, document, ContentHash(k.crypto, document), None,
      Unsigned);
    db.(policies := db.policies + [SignedPolicy(k, p)])
  }

  predicate MayDeploy(db: Db, tenant: string, policy: nat) {
    OwnPolicy(db, tenant, policy) && db.policies[policy].status == Signed
  }

  // The target of a rollback, of the same tenant.
  function TargetOf(db: Db, tenant: string, i: nat): Result<nat, Failed> {
    if !OwnDeployment(db, tenant, i) || db.deployments[i].rollbackTarget.None? then Err(RollbackUnavailable)
    else if !OwnDeployment(db, tenant, db.deployments[i].rollbackTarget.value) then Err(RollbackTargetNotFound)
    else Ok(db.deployments[i].rollbackTarget.value)
  }

  function RolledBackTo(db: Db, i: nat, target: nat): Db
    requires i < |db.deployments| && target < |db.deployments|
  {
    var first := db.deployments[i := db.deployments[i].(status := RolledBack)];
    db.(deployments := first[target := first[target].(status := Active, stage := "production", traffic := 100)])
  }

  // The baseline of an experiment, of the same tenant.
  function BaselineOf(db: Db, tenant: string, experiment: nat): Result<nat, Failed> {
    if !OwnExperiment(db, tenant, experiment) then Err(ExperimentNotFound)
    else if !OwnPolicy(db, tenant, db.experiments[experiment].baseline) then Err(BaselineNotFound)
    else Ok(db.experiments[experiment].baseline)
  }

  const LIMIT := 4

  predicate CanStep(db: Db, parent: nat, op: Operator) {
    parent < |db.policies| && SchemaValid(db.policies[parent].document) && Step(db.policies[parent].document, op).Some?
  }

  function AddCandidate(k: Keys, db: Db, tenant: string, experiment: nat, parent: nat, op: Operator): Db
    requires CanStep(db, parent, op)
  {
    var base := db.policies[parent];
    var child := Step(base.document, op).value;
    db.(policies := db.policies + [Policy(
          tenant, base.agent, base.version + "-cand", Some(parent), child, ContentHash(k.crypto, child),
          None, Unsigned)],
        candidates := db.candidates + [CandidateRow(tenant, experiment, |db.policies|, parent,
          DiffOf(base.document, child), Valid)])
  }

  function AddCandidates(k: Keys, db: Db, tenant: string, experiment: nat, parent: nat, ops: seq<Operator>): (r: Db)
    requires forall op | op in ops :: CanStep(db, parent, op)
    ensures db.policies <= r.policies && db.candidates <= r.candidates
    ensures |r.policies| == |db.policies| + |ops| && |r.candidates| == |db.candidates| + |ops|
  {
    if ops == [] then db
    else
      var before := AddCandidates(k, db, tenant, experiment, parent, ops[..|ops| - 1]);
      assert CanStep(db, parent, ops[|ops| - 1]);
      AddCandidate(k, before, tenant, experiment, parent, ops[|ops| - 1])
  }

  // What a generation proposes for a policy; None where it raises.
  function Proposed(document: Dict, evidence: Evidence): Option<seq<Operator>> {
    if !SchemaValid(document) || Raises(document, evidence, LIMIT) then None else Some(SliceTo(Fired(evidence), LIMIT))
  }

  ghost function GateFor(p: Promotion): Gate {
    GateOf(WithComposite(p.baselineScores), WithComposite(p.candidateScores), Defaulted(p.hard), p.coverage)
  }

  function Defaulted(hard: Hard): Hard {
    Hard(Some(hard.passed.Or(false)), Some(hard.groundingMinimum.Or(0.9)))
  }

  function VerdictOf(approve: bool, passed: bool): Verdict {
    if approve && passed then Approve else if !passed then Reject else Hold
  }

  ghost function DecisionFor(who: Principal, p: Promotion): Decision {
    var gate := GateFor(p);
    var verdict := VerdictOf(p.approve, gate.passed);
    Decision(who.tenant, p.candidate, gate, verdict, if verdict == Approve then Some(who.subject) else None)
  }

  // An approval signs the policy of the candidate, when the tenant has that candidate.
  predicate Signs(db: Db, d: Decision) {
    d.verdict == Approve && OwnCandidate(db, d.tenant, d.candidate) && db.candidates[d.candidate].policy < |db.policies|
  }

  function Decided(k: Keys, db: Db, d: Decision): Db {
    var decisions := db.decisions + [d];
    if Signs(db, d) then
      var i := db.candidates[d.candidate].policy;
      db.(decisions := decisions, policies := db.policies[i := SignedPolicy(k, db.policies[i])])
    else db.(decisions := decisions)
  }

  // ---- The effect of each request ---------------------------------------------------------------------------------

  function Authoring(k: Keys, db: Db, tenant: string, agent: nat, document: Dict, suite: Option<string>): Db {
    if !OwnAgent(db, tenant, agent) then db
    else
      var full := WithDefaults(document, IdText(agent), suite);
      if SchemaValid(full) then Authored(k, db, tenant, agent, full) else db
  }

  function Deploying(db: Db, d: Deployment): Db {
    if d.stage in STAGES && MayDeploy(db, d.tenant, d.policy) then db.(deployments := db.deployments + [d]) else db
  }

  function RollingBack(db: Db, tenant: string, i: nat): Db {
    match TargetOf(db, tenant, i)
    case Ok(target) => RolledBackTo(db, i, target)
    case Err(_) => db
  }

  function Proposing(k: Keys, db: Db, tenant: string, experiment: nat, evidence: Evidence): Db {
    match BaselineOf(db, tenant, experiment)
    case Ok(parent) => Generation(k, db, tenant, experiment, parent, evidence)
    case Err(_) => db
  }

  // A rollback marks the deployment, puts its target in production and changes nothing else.
  lemma RollbackReads(db: Db, tenant: string, i: nat, target: nat)
    ensures TargetOf(db, tenant, i) == Ok(target) <==>
      && OwnDeployment(db, tenant, i) && db.deployments[i].rollbackTarget == Some(target)
      && OwnDeployment(db, tenant, target)
    ensures TargetOf(db, tenant, i) == Ok(target) ==>
      var after := RollingBack(db, tenant, i).deployments;
      && RollingBack(db, tenant, i) == db.(deployments := after) && |after| == |db.deployments|
      && (i != target ==> after[i] == db.deployments[i].(status := RolledBack))
      && after[target] == db.deployments[target].(status := Active, stage := "production", traffic := 100)
      && forall j | 0 <= j < |after| && j != i && j != target :: after[j] == db.deployments[j]
    ensures TargetOf(db, tenant, i).Err? ==> RollingBack(db, tenant, i) == db
  {
  }

  // The verdict follows the request and the gate, and only an approval names its approver.
  lemma DecisionReads(who: Principal, p: Promotion)
    ensures var d := DecisionFor(who, p);
      var passes := Passes(p.baselineScores, p.candidateScores, p.hard, p.coverage);
      && d.tenant == who.tenant && d.candidate == p.candidate && d.gate.passed == passes
      && (d.verdict == Approve <==> passes && p.approve) && (d.verdict == Reject <==> !passes)
      && (d.verdict == Hold <==> passes && !p.approve)
      && d.approver == if passes && p.approve then Some(who.subject) else None
  {
    DefaultsChangeNothing(p);
    hide GateOf, WithComposite;
  }

  // What a generation adds: a candidate for each operator that fired.
  lemma GenerationReads(k: Keys, db: Db, tenant: string, experiment: nat, parent: nat, evidence: Evidence)
    requires parent < |db.policies|
    ensures var after := Generation(k, db, tenant, experiment, parent, evidence);
      |after.candidates| == |db.candidates| + if after == db then 0 else |Fired(evidence)|
  {
    FiredExactly(evidence);
    hide SchemaValid, Fired, Raises;
  }

  // The requests of a run have the effects that the handlers below are specified by.
  lemma RequestsAreHandled(k: Keys, db: Db, who: Principal, agent: nat, policy: nat, stage: string, traffic: int,
      target: Option<nat>, i: nat, document: Dict, suite: Option<string>, evidence: Evidence, p: Promotion)
    ensures Handle(k, db, who, Author(agent, document, suite)) == Authoring(k, db, who.tenant, agent, document, suite)
    ensures Handle(k, db, who, Deploy(agent, policy, stage, traffic, target)) ==
      Deploying(db, Deployment(who.tenant, agent, policy, stage, traffic, Active, target))
    ensures Handle(k, db, who, Rollback(i)) == RollingBack(db, who.tenant, i)
    ensures Handle(k, db, who, Propose(i, evidence)) == Proposing(k, db, who.tenant, i, evidence)
    ensures Handle(k, db, who, Promote(p)) == Decided(k, db, DecisionFor(who, p))
  {
    hide Authoring, Deploying, RollingBack, Proposing, Decided, DecisionFor;
  }

  ghost function Handle(k: Keys, db: Db, who: Principal, r: Request): Db {
    match r
    case CreateAgent(name) => db.(agents := db.agents + [Agent(who.tenant, name)])
    case Author(agent, document, suite) => Authoring(k, db, who.tenant, agent, document, suite)
    case Deploy(agent, policy, stage, traffic, target) =>
      Deploying(db, Deployment(who.tenant, agent, policy, stage, traffic, Active, target))
    case Rollback(i) => RollingBack(db, who.tenant, i)
    case OpenExperiment(baseline) => db.(experiments := db.experiments + [Experiment(who.tenant, baseline)])
    case Propose(experiment, evidence) => Proposing(k, db, who.tenant, experiment, evidence)
    case Promote(p) => Decided(k, db, DecisionFor(who, p))
  }

  function Generation(k: Keys, db: Db, tenant: string, experiment: nat, parent: nat, evidence: Evidence): Db
    requires parent < |db.policies|
  {
    var document := db.policies[parent].document;
    match Proposed(document, evidence)
    case None => db
    case Some(ops) =>
      assert forall op | op in ops :: CanStep(db, parent, op) by { SliceIsPart(Fired(evidence), LIMIT); }
      AddCandidates(k, db, tenant, experiment, parent, ops)
  }

  // Any number of requests, from any tenants.
  ghost function Run(k: Keys, db: Db, rs: seq<(Principal, Request)>): Db {
    if rs == [] then db
    else Handle(k, Run(k, db, rs[..|rs| - 1]), rs[|rs| - 1].0, rs[|rs| - 1].1)
  }

  // ---- What every reachable state satisfies -------------------------------------------------------------------------

  // A policy's hash and signature are those of its document; an authored root is signed, and any
  // other policy is a candidate proposed from an earlier one of the same tenant and agent.
  ghost predicate PolicyIsRight(k: Keys, policies: seq<Policy>, i: int)
    requires 0 <= i < |policies|
  {
    var p := policies[i];
    && SchemaValid(p.document) && p.contentHash == ContentHash(k.crypto, p.document)
    && p.signature == (if p.status == Signed then Some(Sign(k.crypto, p.document, k.key)) else None)
    && match p.parent
       case None => p.status == Signed && p.document["version"] == Str(p.version)
       case Some(q) =>
         && q < i && p.version == policies[q].version + "-cand"
         && policies[q].tenant == p.tenant && policies[q].agent == p.agent
         && SelfImprovement.IsChild(k.crypto, policies[q].document, p.document)
  }

  // The experiment is the tenant's and has this baseline.
  predicate ForExperiment(db: Db, tenant: string, experiment: nat, parent: nat) {
    experiment < |db.experiments| && db.experiments[experiment] == Experiment(tenant, parent)
  }

  ghost predicate CandidateIsRight(db: Db, row: CandidateRow) {
    && row.policy < |db.policies| && row.parent < |db.policies|
    && db.policies[row.policy].parent == Some(row.parent) && db.policies[row.policy].tenant == row.tenant
    && ForExperiment(db, row.tenant, row.experiment, row.parent)
    && row.validation == Valid && row.diff == DiffOf(db.policies[row.parent].document, db.policies[row.policy].document)
  }

  ghost predicate DeploymentIsRight(db: Db, d: Deployment) {
    MayDeploy(db, d.tenant, d.policy)
  }

  // Decision `n` approves policy `i`.
  ghost predicate Approves(db: Db, n: int, i: int) {
    && 0 <= n < |db.decisions| && db.decisions[n].verdict == Approve && db.decisions[n].gate.passed
    && db.decisions[n].candidate < |db.candidates| && db.candidates[db.decisions[n].candidate].policy == i
    && db.decisions[n].tenant == db.candidates[db.decisions[n].candidate].tenant
  }

  // A stored decision is that of a promotion request: its gate was computed from the scores.
  ghost predicate IsMade(d: Decision) {
    exists who, p :: d == DecisionFor(who, p)
  }

  ghost predicate SignedForAReason(db: Db, i: int)
    requires 0 <= i < |db.policies|
  {
    db.policies[i].status == Signed && db.policies[i].parent.Some? ==> exists n :: Approves(db, n, i)
  }

  ghost predicate Inv(k: Keys, db: Db) {
    && (forall i | 0 <= i < |db.policies| :: PolicyIsRight(k, db.policies, i) && SignedForAReason(db, i))
    && (forall row | row in db.candidates :: CandidateIsRight(db, row))
    && (forall d | d in db.deployments :: DeploymentIsRight(db, d))
    && (forall d | d in db.decisions :: IsMade(d))
  }

  // What is never lost: rows, documents, hashes, parents, and signatures.
  ghost predicate PolicyKept(p: Policy, q: Policy) {
    && q == p.(status := q.status, signature := q.signature)
    && (p.status == Signed ==> q == p)
  }

  ghost predicate DeploymentKept(d: Deployment, e: Deployment) {
    e == d.(status := e.status, stage := e.stage, traffic := e.traffic)
  }

  ghost predicate Grows(db: Db, after: Db) {
    && |db.policies| <= |after.policies|
    && (forall i | 0 <= i < |db.policies| :: PolicyKept(db.policies[i], after.policies[i]))
    && |db.deployments| <= |after.deployments|
    && (forall i | 0 <= i < |db.deployments| :: DeploymentKept(db.deployments[i], after.deployments[i]))
    && db.agents <= after.agents && db.experiments <= after.experiments
    && db.candidates <= after.candidates && db.decisions <= after.decisions
  }

  // A state that has grown is right if its new and changed rows are.
  lemma GrownIsRight(k: Keys, db: Db, after: Db)
    requires Inv(k, db) && Grows(db, after)
    requires forall i | 0 <= i < |after.policies| ::
      || (i < |db.policies| && after.policies[i] == db.policies[i])
      || (PolicyIsRight(k, after.policies, i) && SignedForAReason(after, i))
    requires forall i | |db.candidates| <= i < |after.candidates| :: CandidateIsRight(after, after.candidates[i])
    requires forall i | |db.deployments| <= i < |after.deployments| :: DeploymentIsRight(after, after.deployments[i])
    requires forall i | |db.decisions| <= i < |after.decisions| :: IsMade(after.decisions[i])
    ensures Inv(k, after)
  {
    hide SchemaValid, SelfImprovement.IsChild, PolicyIsRight, SignedForAReason, CandidateIsRight, DeploymentIsRight,
      IsMade;
    forall i | 0 <= i < |after.policies| ensures PolicyIsRight(k, after.policies, i) && SignedForAReason(after, i) {
      if i < |db.policies| && after.policies[i] == db.policies[i] { OldPolicyIsRight(k, db, after, i); }
    }
    forall row | row in after.candidates ensures CandidateIsRight(after, row) {
      if row in db.candidates { OldCandidateIsRight(k, db, after, row); }
    }
    forall d | d in after.deployments ensures DeploymentIsRight(after, d) {
      var i :| 0 <= i < |after.deployments| && after.deployments[i] == d;
      if i < |db.deployments| { OldDeploymentIsRight(k, db, after, i); }
    }
    forall d | d in after.decisions ensures IsMade(d) {
      var i :| 0 <= i < |after.decisions| && after.decisions[i] == d;
      if i < |db.decisions| { assert db.decisions[i] in db.decisions; }
    }
  }

  lemma OldPolicyIsRight(k: Keys, db: Db, after: Db, i: nat)
    requires Inv(k, db) && Grows(db, after) && i < |db.policies| && after.policies[i] == db.policies[i]
    ensures PolicyIsRight(k, after.policies, i) && SignedForAReason(after, i)
  {
    assert PolicyIsRight(k, db.policies, i) && SignedForAReason(db, i);
    hide Inv;
    ParentStaysRight(k, db, after, i);
    hide PolicyIsRight;
    if after.policies[i].status == Signed && after.policies[i].parent.Some? {
      var n :| Approves(db, n, i);
      assert Approves(after, n, i);
    }
  }

  lemma ParentStaysRight(k: Keys, db: Db, after: Db, i: nat)
    requires Grows(db, after) && i < |db.policies| && after.policies[i] == db.policies[i]
    requires PolicyIsRight(k, db.policies, i)
    ensures PolicyIsRight(k, after.policies, i)
  {
    hide SchemaValid, SelfImprovement.IsChild, Sign, ContentHash;
    var q := db.policies[i].parent;
    assert q.Some? ==> PolicyKept(db.policies[q.value], after.policies[q.value]);
  }

  lemma OldCandidateIsRight(k: Keys, db: Db, after: Db, row: CandidateRow)
    requires Inv(k, db) && Grows(db, after) && row in db.candidates
    ensures CandidateIsRight(after, row)
  {
  }

  lemma OldDeploymentIsRight(k: Keys, db: Db, after: Db, i: nat)
    requires Inv(k, db) && Grows(db, after) && i < |db.deployments|
    ensures DeploymentIsRight(after, after.deployments[i])
  {
    assert DeploymentIsRight(db, db.deployments[i]);
    hide Inv;
    assert DeploymentKept(db.deployments[i], after.deployments[i]);
    assert PolicyKept(db.policies[db.deployments[i].policy], after.policies[db.deployments[i].policy]);
  }

  // A request of one tenant changes no row of another, in any table, and adds only rows of its own.
  ghost predicate Isolated(db: Db, after: Db, tenant: string) {
    && |db.policies| <= |after.policies| && |db.deployments| <= |after.deployments|
    && db.agents <= after.agents && db.experiments <= after.experiments
    && db.candidates <= after.candidates && db.decisions <= after.decisions
    && (forall i | 0 <= i < |after.policies| ::
          after.policies[i].tenant == tenant || (i < |db.policies| && after.policies[i] == db.policies[i]))
    && (forall i | 0 <= i < |after.deployments| ::
          after.deployments[i].tenant == tenant || (i < |db.deployments| && after.deployments[i] == db.deployments[i]))
    && (forall i | |db.agents| <= i < |after.agents| :: after.agents[i].tenant == tenant)
    && (forall i | |db.experiments| <= i < |after.experiments| :: after.experiments[i].tenant == tenant)
    && (forall i | |db.candidates| <= i < |after.candidates| :: after.candidates[i].tenant == tenant)
    && (forall i | |db.decisions| <= i < |after.decisions| :: after.decisions[i].tenant == tenant)
  }

  // What each request keeps.
  ghost predicate Keeps(k: Keys, db: Db, after: Db, tenant: string) {
    Inv(k, after) && Grows(db, after) && Isolated(db, after, tenant)
  }

  lemma SignedRowIsRight(k: Keys, policies: seq<Policy>, i: nat)
    requires i < |policies| && PolicyIsRight(k, policies, i)
    ensures PolicyKept(policies[i], SignedPolicy(k, policies[i]))
    ensures PolicyIsRight(k, policies[i := SignedPolicy(k, policies[i])], i)
  {
    hide SchemaValid, SelfImprovement.IsChild, Sign, ContentHash;
  }

  lemma AuthorKeeps(k: Keys, db: Db, tenant: string, agent: nat, document: Dict)
    requires Inv(k, db) && SchemaValid(document)
    ensures Keeps(k, db, Authored(k, db, tenant, agent, document), tenant)
  {
    var after := Authored(k, db, tenant, agent, document);
    NewRootIsRight(k, db, tenant, agent, document);
    NewPolicyIsIsolated(db, after.policies[|db.policies|]);
    hide SchemaValid, Inv, Authored, PolicyIsRight, SignedForAReason, CandidateIsRight, DeploymentIsRight, Grows,
      Isolated;
    GrownIsRight(k, db, after);
  }

  lemma NewPolicyIsIsolated(db: Db, row: Policy)
    ensures Grows(db, db.(policies := db.policies + [row]))
    ensures Isolated(db, db.(policies := db.policies + [row]), row.tenant)
    ensures forall i | 0 <= i < |db.policies| :: (db.policies + [row])[i] == db.policies[i]
  {
  }

  lemma NewRootIsRight(k: Keys, db: Db, tenant: string, agent: nat, document: Dict)
    requires SchemaValid(document)
    ensures var after, n := Authored(k, db, tenant, agent, document), |db.policies|;
      && |after.policies| == n + 1 && after == db.(policies := db.policies + [after.policies[n]])
      && PolicyIsRight(k, after.policies, n) && SignedForAReason(after, n) && after.policies[n].tenant == tenant
  {
  }

  lemma DeployKeeps(k: Keys, db: Db, d: Deployment)
    requires Inv(k, db) && MayDeploy(db, d.tenant, d.policy)
    ensures Keeps(k, db, db.(deployments := db.deployments + [d]), d.tenant)
  {
    var after := db.(deployments := db.deployments + [d]);
    assert DeploymentIsRight(after, d);
    hide Inv, IsMade, PolicyIsRight, SignedForAReason, CandidateIsRight, DeploymentIsRight, MayDeploy;
    GrownIsRight(k, db, after);
  }

  lemma RollbackKeeps(k: Keys, db: Db, tenant: string, i: nat)
    requires Inv(k, db) && TargetOf(db, tenant, i).Ok?
    ensures Keeps(k, db, RolledBackTo(db, i, TargetOf(db, tenant, i).value), tenant)
  {
    var target := TargetOf(db, tenant, i).value;
    var after := RolledBackTo(db, i, target);
    hide Inv, IsMade, PolicyIsRight, SignedForAReason, CandidateIsRight, DeploymentIsRight;
    GrownIsRight(k, db, after);
  }

  lemma OtherTablesKeep(k: Keys, db: Db, after: Db)
    requires Inv(k, db)
    requires after == db.(agents := after.agents, experiments := after.experiments, decisions := after.decisions)
    requires Grows(db, after) && forall i | |db.decisions| <= i < |after.decisions| :: IsMade(after.decisions[i])
    ensures Inv(k, after)
  {
    hide Inv, IsMade, PolicyIsRight, SignedForAReason, CandidateIsRight, DeploymentIsRight;
    GrownIsRight(k, db, after);
  }

  lemma AddCandidateKeeps(k: Keys, db: Db, tenant: string, experiment: nat, parent: nat, op: Operator)
    requires Inv(k, db) && CanStep(db, parent, op) && db.policies[parent].tenant == tenant
    requires ForExperiment(db, tenant, experiment, parent)
    ensures Keeps(k, db, AddCandidate(k, db, tenant, experiment, parent, op), tenant)
  {
    var after := AddCandidate(k, db, tenant, experiment, parent, op);
    NewCandidateIsRight(k, db, tenant, experiment, parent, op);
    hide Inv, CanStep, AddCandidate, PolicyIsRight, SignedForAReason, CandidateIsRight, DeploymentIsRight;
    OneMoreIsIsolated(db, after, tenant);
    GrownIsRight(k, db, after);
  }

  lemma OneMoreIsIsolated(db: Db, after: Db, tenant: string)
    requires after == db.(policies := after.policies, candidates := after.candidates)
    requires |after.policies| == |db.policies| + 1 && after.policies[..|db.policies|] == db.policies
    requires |after.candidates| == |db.candidates| + 1 && after.candidates[..|db.candidates|] == db.candidates
    requires after.policies[|db.policies|].tenant == tenant && after.candidates[|db.candidates|].tenant == tenant
    ensures Grows(db, after) && Isolated(db, after, tenant)
    ensures forall i | 0 <= i < |db.policies| :: after.policies[i] == db.policies[i]
  {
  }

  lemma NewCandidateIsRight(k: Keys, db: Db, tenant: string, experiment: nat, parent: nat, op: Operator)
    requires CanStep(db, parent, op) && db.policies[parent].tenant == tenant
    requires ForExperiment(db, tenant, experiment, parent)
    ensures var after := AddCandidate(k, db, tenant, experiment, parent, op);
      var n, m := |db.policies|, |db.candidates|;
      && after == db.(policies := after.policies, candidates := after.candidates)
      && |after.policies| == n + 1 && after.policies[..n] == db.policies
      && |after.candidates| == m + 1 && after.candidates[..m] == db.candidates
      && PolicyIsRight(k, after.policies, n) && SignedForAReason(after, n)
      && CandidateIsRight(after, after.candidates[m])
      && after.policies[n].tenant == tenant && after.candidates[m].tenant == tenant
  {
    var after := AddCandidate(k, db, tenant, experiment, parent, op);
    var base, n := db.policies[parent], |db.policies|;
    var child := Step(base.document, op).value;
    StepIsAccepted(base.document, op);
    var candidate := Candidate(child, DiffOf(base.document, child), op, ContentHash(k.crypto, child), Valid);
    hide SchemaValid, ContentHash, Step, DiffOf;
    assert IsCandidate(k.crypto, base.document, op, candidate);
    assert SelfImprovement.IsChild(k.crypto, base.document, child);
    assert after.policies[n].parent == Some(parent) && after.policies[parent] == base;
  }

  lemma {:induction false} AddCandidatesKeeps(k: Keys, db: Db, tenant: string, experiment: nat, parent: nat,
      ops: seq<Operator>)
    requires Inv(k, db) && parent < |db.policies| && db.policies[parent].tenant == tenant
    requires forall op | op in ops :: CanStep(db, parent, op)
    requires ForExperiment(db, tenant, experiment, parent)
    ensures Keeps(k, db, AddCandidates(k, db, tenant, experiment, parent, ops), tenant)
  {
    if ops != [] {
      AddCandidatesKeeps(k, db, tenant, experiment, parent, ops[..|ops| - 1]);
      var before := AddCandidates(k, db, tenant, experiment, parent, ops[..|ops| - 1]);
      assert CanStep(db, parent, ops[|ops| - 1]);
      AddCandidateKeeps(k, before, tenant, experiment, parent, ops[|ops| - 1]);
      hide Inv, CanStep;
      KeepsTransitive(k, db, before, AddCandidates(k, db, tenant, experiment, parent, ops), tenant);
    }
  }

  lemma KeepsTransitive(k: Keys, a: Db, b: Db, c: Db, tenant: string)
    requires Keeps(k, a, b, tenant) && Keeps(k, b, c, tenant)
    ensures Keeps(k, a, c, tenant)
  {
    hide Inv;
    GrowsTransitive(a, b, c);
  }

  lemma GrowsTransitive(a: Db, b: Db, c: Db)
    requires Grows(a, b) && Grows(b, c)
    ensures Grows(a, c)
  {
  }

  lemma DecideKeeps(k: Keys, db: Db, d: Decision)
    requires Inv(k, db) && IsMade(d)
    ensures Keeps(k, db, Decided(k, db, d), d.tenant)
  {
    var after := Decided(k, db, d);
    hide Inv, IsMade, DecisionFor;
    if Signs(db, d) {
      SigningIsRight(k, db, d);
      hide PolicyIsRight, SignedForAReason, CandidateIsRight, DeploymentIsRight, SignedPolicy;
      GrownIsRight(k, db, after);
    } else {
      OtherTablesKeep(k, db, after);
    }
  }

  lemma SigningIsRight(k: Keys, db: Db, d: Decision)
    requires Inv(k, db) && IsMade(d) && Signs(db, d)
    ensures var after, i := Decided(k, db, d), db.candidates[d.candidate].policy;
      && PolicyKept(db.policies[i], after.policies[i]) && after.policies[i].tenant == d.tenant
      && PolicyIsRight(k, after.policies, i) && SignedForAReason(after, i)
  {
    var after, i := Decided(k, db, d), db.candidates[d.candidate].policy;
    assert CandidateIsRight(db, db.candidates[d.candidate]) && PolicyIsRight(k, db.policies, i);
    hide Inv;
    SignedRowIsRight(k, db.policies, i);
    assert Approves(after, |db.decisions|, i);
    ApprovedHasReason(after, |db.decisions|, i);
  }

  lemma ApprovedHasReason(db: Db, n: nat, i: nat)
    requires i < |db.policies| && Approves(db, n, i)
    ensures SignedForAReason(db, i)
  {
  }

  lemma AuthoringKeeps(k: Keys, db: Db, tenant: string, agent: nat, document: Dict, suite: Option<string>)
    requires Inv(k, db)
    ensures Keeps(k, db, Authoring(k, db, tenant, agent, document, suite), tenant)
  {
    hide Inv, SchemaValid, Authored, WithDefaults;
    if OwnAgent(db, tenant, agent) && SchemaValid(WithDefaults(document, IdText(agent), suite)) {
      AuthorKeeps(k, db, tenant, agent, WithDefaults(document, IdText(agent), suite));
    }
  }

  lemma DeployingKeeps(k: Keys, db: Db, d: Deployment)
    requires Inv(k, db)
    ensures Keeps(k, db, Deploying(db, d), d.tenant)
  {
    hide Inv;
    if MayDeploy(db, d.tenant, d.policy) { DeployKeeps(k, db, d); }
  }

  lemma RollingBackKeeps(k: Keys, db: Db, tenant: string, i: nat)
    requires Inv(k, db)
    ensures Keeps(k, db, RollingBack(db, tenant, i), tenant)
  {
    hide Inv, RolledBackTo;
    if TargetOf(db, tenant, i).Ok? { RollbackKeeps(k, db, tenant, i); }
  }

  lemma ProposingKeeps(k: Keys, db: Db, tenant: string, experiment: nat, evidence: Evidence)
    requires Inv(k, db)
    ensures Keeps(k, db, Proposing(k, db, tenant, experiment, evidence), tenant)
  {
    hide Inv, Generation;
    if BaselineOf(db, tenant, experiment).Ok? {
      GenerationKeeps(k, db, tenant, experiment, BaselineOf(db, tenant, experiment).value, evidence);
    }
  }

  lemma GenerationKeeps(k: Keys, db: Db, tenant: string, experiment: nat, parent: nat, evidence: Evidence)
    requires Inv(k, db) && OwnPolicy(db, tenant, parent) && ForExperiment(db, tenant, experiment, parent)
    ensures Keeps(k, db, Generation(k, db, tenant, experiment, parent, evidence), tenant)
  {
    var document := db.policies[parent].document;
    if Proposed(document, evidence).Some? {
      var ops := Proposed(document, evidence).value;
      SliceIsPart(Fired(evidence), LIMIT);
      assert forall op | op in ops :: CanStep(db, parent, op);
      hide Inv, CanStep;
      AddCandidatesKeeps(k, db, tenant, experiment, parent, ops);
    }
  }

  // Main result: each request keeps the state right, loses nothing, and touches only its own tenant.
  lemma HandleKeeps(k: Keys, db: Db, who: Principal, r: Request)
    requires Inv(k, db)
    ensures Keeps(k, db, Handle(k, db, who, r), who.tenant)
  {
    hide Inv, Authoring, Deploying, RollingBack, Proposing, Decided, GateFor;
    match r
    case CreateAgent(name) => OtherTablesKeep(k, db, db.(agents := db.agents + [Agent(who.tenant, name)]));
    case Author(agent, document, suite) => AuthoringKeeps(k, db, who.tenant, agent, document, suite);
    case Deploy(agent, policy, stage, traffic, target) =>
      DeployingKeeps(k, db, Deployment(who.tenant, agent, policy, stage, traffic, Active, target));
    case Rollback(i) => RollingBackKeeps(k, db, who.tenant, i);
    case OpenExperiment(baseline) => OtherTablesKeep(k, db,
      db.(experiments := db.experiments + [Experiment(who.tenant, baseline)]));
    case Propose(experiment, evidence) => ProposingKeeps(k, db, who.tenant, experiment, evidence);
    case Promote(p) => assert IsMade(DecisionFor(who, p)); DecideKeeps(k, db, DecisionFor(who, p));
  }

  // Main result: every reachable state is right, and no run of requests loses a row, changes a
  // document or unsigns a policy.
  lemma {:induction false} RunKeeps(k: Keys, db: Db, rs: seq<(Principal, Request)>)
    requires Inv(k, db)
    ensures Inv(k, Run(k, db, rs)) && Grows(db, Run(k, db, rs))
  {
    if rs != [] {
      RunKeeps(k, db, rs[..|rs| - 1]);
      var before := Run(k, db, rs[..|rs| - 1]);
      hide Inv, Handle;
      HandleKeeps(k, before, rs[|rs| - 1].0, rs[|rs| - 1].1);
      GrowsTransitive(db, before, Run(k, db, rs));
    }
  }

  lemma EmptyIsRight(k: Keys)
    ensures Inv(k, EMPTY)
  {
  }

  // ---- Lineages -----------------------------------------------------------------------------------------------------

  ghost predicate ParentsComeFirst(policies: seq<Policy>) {
    forall j | 0 <= j < |policies| :: policies[j].parent.Some? ==> policies[j].parent.value < j
  }

  // The ids from the authored root to a policy.
  ghost function Lineage(policies: seq<Policy>, i: nat): (path: seq<nat>)
    requires ParentsComeFirst(policies) && i < |policies|
    ensures path != [] && path[|path| - 1] == i && forall m | 0 <= m < |path| :: path[m] <= i
    decreases i
  {
    if policies[i].parent.None? then [i] else Lineage(policies, policies[i].parent.value) + [i]
  }

  // Each id on the path is the parent of the next, the first has none, and no id comes twice.
  ghost predicate IsPath(policies: seq<Policy>, path: seq<nat>) {
    && path != [] && (forall m | 0 <= m < |path| :: path[m] < |policies|)
    && policies[path[0]].parent == None
    && (forall m | 0 <= m < |path| - 1 :: policies[path[m + 1]].parent == Some(path[m]))
    && (forall m, n | 0 <= m < n < |path| :: path[m] != path[n])
  }

  // All the policies on the path are of one tenant and agent.
  ghost predicate OneOwner(policies: seq<Policy>, path: seq<nat>, tenant: string, agent: nat) {
    forall m | 0 <= m < |path| ::
      path[m] < |policies| && policies[path[m]].tenant == tenant && policies[path[m]].agent == agent
  }

  function DocumentsOf(policies: seq<Policy>, path: seq<nat>): (documents: seq<Dict>)
    requires forall m | 0 <= m < |path| :: path[m] < |policies|
    ensures |documents| == |path| && forall m | 0 <= m < |path| :: documents[m] == policies[path[m]].document
  {
    seq(|path|, m requires 0 <= m < |path| => policies[path[m]].document)
  }

  // From an authored root to policy `i`, in one hand, each document proposed from the one before.
  ghost predicate IsLineageOf(k: Keys, policies: seq<Policy>, path: seq<nat>, i: nat)
    requires i < |policies|
  {
    && IsPath(policies, path) && path[|path| - 1] == i
    && OneOwner(policies, path, policies[i].tenant, policies[i].agent)
    && SelfImprovement.IsLineage(k.crypto, DocumentsOf(policies, path))
    && SchemaValid(DocumentsOf(policies, path)[0])
  }

  // Main result: the parent chain of every policy is finite and without a cycle, ends at an authored
  // root, stays with one tenant and agent, and each document on it is proposed from the one before.
  lemma {:induction false} LineageIsRight(k: Keys, db: Db, i: nat)
    requires Inv(k, db) && i < |db.policies|
    ensures ParentsComeFirst(db.policies)
    ensures IsLineageOf(k, db.policies, Lineage(db.policies, i), i)
    decreases i
  {
    InvParents(k, db);
    assert PolicyIsRight(k, db.policies, i);
    var p := db.policies[i];
    hide Inv, SchemaValid, IsPath, OneOwner, SelfImprovement.IsLineage, SelfImprovement.IsChild;
    if p.parent.Some? {
      hide IsLineageOf;
      LineageIsRight(k, db, p.parent.value);
      LineageExtends(k, db.policies, Lineage(db.policies, p.parent.value), i);
    } else {
      RootLineage(k, db.policies, i);
    }
  }

  lemma RootLineage(k: Keys, policies: seq<Policy>, i: nat)
    requires i < |policies| && policies[i].parent == None && SchemaValid(policies[i].document)
    ensures IsLineageOf(k, policies, [i], i)
  {
    hide SchemaValid, SelfImprovement.IsChild;
  }

  lemma LineageExtends(k: Keys, policies: seq<Policy>, path: seq<nat>, i: nat)
    requires i < |policies| && policies[i].parent.Some? && policies[i].parent.value < i
    requires IsLineageOf(k, policies, path, policies[i].parent.value) && forall m | 0 <= m < |path| :: path[m] < i
    requires var base := policies[policies[i].parent.value];
      && base.tenant == policies[i].tenant && base.agent == policies[i].agent
      && SelfImprovement.IsChild(k.crypto, base.document, policies[i].document)
    ensures IsLineageOf(k, policies, path + [i], i)
  {
    hide SchemaValid, SelfImprovement.IsChild;
    PathGrows(policies, path, i);
    hide IsPath, OneOwner, SelfImprovement.IsLineage;
    DocumentsGrow(policies, path, i);
    LineageGrows(k.crypto, DocumentsOf(policies, path), policies[i].document);
  }

  lemma DocumentsGrow(policies: seq<Policy>, path: seq<nat>, i: nat)
    requires i < |policies| && forall m | 0 <= m < |path| :: path[m] < |policies|
    ensures DocumentsOf(policies, path + [i]) == DocumentsOf(policies, path) + [policies[i].document]
  {
  }

  lemma InvParents(k: Keys, db: Db)
    requires Inv(k, db)
    ensures ParentsComeFirst(db.policies)
  {
    forall j | 0 <= j < |db.policies| ensures db.policies[j].parent.Some? ==> db.policies[j].parent.value < j {
      assert PolicyIsRight(k, db.policies, j);
    }
  }

  lemma PathGrows(policies: seq<Policy>, path: seq<nat>, i: nat)
    requires IsPath(policies, path) && i < |policies| && policies[i].parent == Some(path[|path| - 1])
    requires forall m | 0 <= m < |path| :: path[m] < i
    ensures IsPath(policies, path + [i])
    ensures OneOwner(policies, path, policies[i].tenant, policies[i].agent) ==>
      OneOwner(policies, path + [i], policies[i].tenant, policies[i].agent)
  {
  }

  lemma LineageGrows(c: Crypto, documents: seq<Dict>, child: Dict)
    requires SelfImprovement.IsLineage(c, documents) && SelfImprovement.IsChild(c, documents[|documents| - 1], child)
    ensures SelfImprovement.IsLineage(c, documents + [child])
  {
    hide SelfImprovement.IsChild;
  }

  // Main result: in every reachable state each policy acts as the authored root of its lineage does,
  // and agrees with it on the id, the protected fields, the prompt and the knowledge it reads.
  lemma PoliciesActLikeTheirRoot(k: Keys, rs: seq<(Principal, Request)>, i: nat, state: Dict)
    requires i < |Run(k, EMPTY, rs).policies|
    ensures var policies := Run(k, EMPTY, rs).policies;
      ParentsComeFirst(policies) &&
      var root, policy := policies[Lineage(policies, i)[0]], policies[i];
      && root.parent == None && root.tenant == policy.tenant
      && SchemaValid(root.document) && Accepted(root.document, policy.document, {})
      && SameAt(root.document, policy.document, "id")
      && (exists ops :: SelfImprovement.Run(root.document, ops) == Some(policy.document))
      && OptionalObj(policy.document, "action_policy") && OptionalObj(root.document, "action_policy")
      && ActionSelection.ChoiceOf(Component(policy.document, "action_policy"), state)
           == ActionSelection.ChoiceOf(Component(root.document, "action_policy"), state)
      && SelfImprovement.KeepsKeys(root.document, policy.document, "response_policy", {"system"})
      && SelfImprovement.KeepsKeys(root.document, policy.document, "retrieval_policy", {"enabled", "snapshot_id"})
  {
    EmptyIsRight(k);
    RunKeeps(k, EMPTY, rs);
    var db := Run(k, EMPTY, rs);
    hide Run, Inv;
    LineageIsRight(k, db, i);
    var documents := DocumentsOf(db.policies, Lineage(db.policies, i));
    hide SelfImprovement.IsLineage, SchemaValid, Lineage;
    var ops := SelfImprovement.LineageIsRun(k.crypto, documents);
    SelfImprovement.DescendantsActAlike(documents[0], ops, state);
    assert "id" !in EffectiveMutable({}) && "id" !in FREE_FIELDS;
  }

  // Main result: in every reachable state, every deployment points to a policy of its tenant whose
  // hash and signature verify, and which was authored, or approved through a gate that passed;
  // and every stored candidate is valid.
  lemma ReachableIsTrusted(k: Keys, rs: seq<(Principal, Request)>)
    ensures var db := Run(k, EMPTY, rs);
      && (forall i | 0 <= i < |db.policies| && db.policies[i].status == Signed ::
            && db.policies[i].signature.Some?
            && VerifyPolicy(k.crypto, k.key, Bundle(db.policies[i].contentHash, db.policies[i].signature.value,
              db.policies[i].document))
            && (db.policies[i].parent.Some? ==> exists n :: Approves(db, n, i)))
      && (forall d | d in db.deployments :: d.policy < |db.policies|
            && db.policies[d.policy].status == Signed && db.policies[d.policy].tenant == d.tenant)
      && (forall row | row in db.candidates :: row.validation == Valid
            && ForExperiment(db, row.tenant, row.experiment, row.parent))
      && (forall d | d in db.decisions :: IsMade(d))
  {
    EmptyIsRight(k);
    RunKeeps(k, EMPTY, rs);
    var db := Run(k, EMPTY, rs);
    hide Run, SchemaValid, ContentHash, Sign, SelfImprovement.IsChild;
    forall i | 0 <= i < |db.policies| && db.policies[i].status == Signed
      ensures db.policies[i].signature.Some?
      ensures VerifyPolicy(k.crypto, k.key, Bundle(db.policies[i].contentHash, db.policies[i].signature.value,
        db.policies[i].document))
      ensures db.policies[i].parent.Some? ==> exists n :: Approves(db, n, i)
    {
      assert PolicyIsRight(k, db.policies, i) && SignedForAReason(db, i);
    }
    forall d | d in db.deployments ensures MayDeploy(db, d.tenant, d.policy) { assert DeploymentIsRight(db, d); }
    forall row | row in db.candidates
      ensures row.validation == Valid && ForExperiment(db, row.tenant, row.experiment, row.parent)
    {
      assert CandidateIsRight(db, row);
    }
  }

  // ---- The state as the handlers change it --------------------------------------------------------------------------

  class Store {
    const k: Keys
    var agents: seq<Agent>
    var policies: seq<Policy>
    var deployments: seq<Deployment>
    var experiments: seq<Experiment>
    var candidates: seq<CandidateRow>
    var decisions: seq<Decision>

    function Contents(): Db
      reads this
    {
      Db(agents, policies, deployments, experiments, candidates, decisions)
    }

    ghost predicate Right()
      reads this
    {
      Inv(k, Contents())
    }

    constructor (k: Keys)
      ensures Right() && Contents() == EMPTY && this.k == k
    {
      this.k := k;
      agents, policies, deployments, experiments, candidates, decisions := [], [], [], [], [], [];
      new;
      EmptyIsRight(k);
    }

    method AddAgent(who: Principal, name: string) returns (id: nat)
      requires Right()
      modifies this`agents
      ensures Right() && Contents() == Handle(k, old(Contents()), who, CreateAgent(name))
      ensures id == |old(agents)| && OwnAgent(Contents(), who.tenant, id)
    {
      HandleKeeps(k, Contents(), who, CreateAgent(name));
      hide Inv, Grows, Isolated;
      agents := agents + [Agent(who.tenant, name)];
      id := |agents| - 1;
    }

    // Nothing is asked of the baseline until candidates are proposed for it.
    method CreateExperiment(who: Principal, baseline: nat) returns (id: nat)
      requires Right()
      modifies this`experiments
      ensures Right() && Contents() == Handle(k, old(Contents()), who, OpenExperiment(baseline))
      ensures id == |old(experiments)| && OwnExperiment(Contents(), who.tenant, id)
      ensures BaselineOf(Contents(), who.tenant, id) ==
        if OwnPolicy(Contents(), who.tenant, baseline) then Ok(baseline) else Err(BaselineNotFound)
    {
      HandleKeeps(k, Contents(), who, OpenExperiment(baseline));
      hide Inv, Grows, Isolated;
      experiments := experiments + [Experiment(who.tenant, baseline)];
      id := |experiments| - 1;
    }

    method CreateAgentVersion(who: Principal, agent: nat, document: Dict, suite: Option<string>)
      returns (result: Result<nat, Failed>)
      requires Right()
      modifies this`policies
      ensures Right() && Contents() == Authoring(k, old(Contents()), who.tenant, agent, document, suite)
      ensures !OwnAgent(old(Contents()), who.tenant, agent) <==> result == Err(AgentNotFound)
      ensures result.Ok? ==> result.value == |old(policies)| && MayDeploy(Contents(), who.tenant, result.value)
      ensures result.Err? ==> Contents() == old(Contents())
    {
      AuthoringKeeps(k, Contents(), who.tenant, agent, document, suite);
      hide Inv, Grows, Isolated, SchemaValid, WithDefaults, Sign, ContentHash;
      if agent >= |agents| || agents[agent].tenant != who.tenant { return Err(AgentNotFound); }
      var full := WithDefaults(document, IdText(agent), suite);
      var errors := ValidateMutation(full, full, {});
      ValidAcceptsItself(full);
      hide Accepted, Violates, Distinct;
      if errors != [] { return Err(InvalidPolicy(errors)); }
      var row := Policy(who.tenant, agent, full["version"].s, None, full, ContentHash(k.crypto, full),
        Some(Sign(k.crypto, full, k.key)), Signed);
      policies := policies + [row];
      result := Ok(|policies| - 1);
    }

    method CreateDeployment(who: Principal, agent: nat, policy: nat, stage: string, traffic: int,
        rollbackTarget: Option<nat>)
      returns (result: Result<nat, Failed>)
      requires Right()
      modifies this`deployments
      ensures Right()
      ensures Contents() == Deploying(old(Contents()),
        Deployment(who.tenant, agent, policy, stage, traffic, Active, rollbackTarget))
      ensures result == if stage !in STAGES then Err(InvalidStage)
        else if !MayDeploy(old(Contents()), who.tenant, policy) then Err(SignedPolicyRequired)
        else Ok(|old(deployments)|)
    {
      var row := Deployment(who.tenant, agent, policy, stage, traffic, Active, rollbackTarget);
      DeployingKeeps(k, Contents(), row);
      hide Inv, Grows, Isolated;
      if stage !in STAGES { return Err(InvalidStage); }
      if policy >= |policies| || policies[policy].tenant != who.tenant || policies[policy].status != Signed {
        return Err(SignedPolicyRequired);
      }
      deployments := deployments + [row];
      result := Ok(|deployments| - 1);
    }

    // What a rollback activates is a deployment of the tenant with a signed policy.
    method RollBack(who: Principal, i: nat) returns (result: Result<nat, Failed>)
      requires Right()
      modifies this`deployments
      ensures Right() && Contents() == RollingBack(old(Contents()), who.tenant, i)
      ensures result == TargetOf(old(Contents()), who.tenant, i)
      ensures result.Ok? ==>
        && result.value < |deployments| && deployments[result.value].status == Active
        && deployments[result.value].traffic == 100
        && MayDeploy(Contents(), who.tenant, deployments[result.value].policy)
    {
      RollingBackKeeps(k, Contents(), who.tenant, i);
      if i >= |deployments| || deployments[i].tenant != who.tenant || deployments[i].rollbackTarget.None? {
        return Err(RollbackUnavailable);
      }
      var target := deployments[i].rollbackTarget.value;
      if target >= |deployments| || deployments[target].tenant != who.tenant { return Err(RollbackTargetNotFound); }
      assert DeploymentIsRight(Contents(), deployments[target]);
      hide Inv, Grows, Isolated;
      deployments := deployments[i := deployments[i].(status := RolledBack)];
      var active := deployments[target].(status := Active, stage := "production", traffic := 100);
      deployments := deployments[target := active];
      result := Ok(target);
    }

    method CreateCandidates(who: Principal, experiment: nat, evidence: Evidence) returns (result: Result<nat, Failed>)
      requires Right()
      modifies this`policies, this`candidates
      ensures Right() && Contents() == Proposing(k, old(Contents()), who.tenant, experiment, evidence)
      ensures result.Ok? ==>
        |candidates| == |old(candidates)| + result.value && result.value == |Fired(evidence)|
      ensures result.Err? ==> Contents() == old(Contents())
    {
      ProposingKeeps(k, Contents(), who.tenant, experiment, evidence);
      if experiment >= |experiments| || experiments[experiment].tenant != who.tenant { return Err(ExperimentNotFound); }
      var parent := experiments[experiment].baseline;
      if parent >= |policies| || policies[parent].tenant != who.tenant { return Err(BaselineNotFound); }
      assert PolicyIsRight(k, policies, parent);
      hide Inv, Grows, Isolated;
      var base := policies[parent];
      var proposed := ProposeCandidates(k.crypto, base.document, evidence, LIMIT);
      if proposed.None? { return Err(ProposalRaised); }
      FiredExactly(evidence);
      AddRows(who.tenant, experiment, parent, SliceTo(Fired(evidence), LIMIT), proposed.value);
      result := Ok(|proposed.value|);
    }

    // The loop over the proposed candidates, a policy row and a candidate row for each.
    method AddRows(tenant: string, experiment: nat, parent: nat, ghost ops: seq<Operator>, proposed: seq<Candidate>)
      requires parent < |policies| && SchemaValid(policies[parent].document)
      requires AreCandidates(k.crypto, policies[parent].document, ops, proposed)
      modifies this`policies, this`candidates
      ensures forall op | op in ops :: CanStep(old(Contents()), parent, op)
      ensures Contents() == AddCandidates(k, old(Contents()), tenant, experiment, parent, ops)
    {
      ghost var db := Contents();
      AllCanStep(k, db, parent, ops, proposed);
      var base := policies[parent];
      hide *;
      AddNone(k, db, tenant, experiment, parent, ops);
      for i := 0 to |proposed|
        invariant base == db.policies[parent]
        invariant AddedSoFar(k, db, tenant, experiment, parent, ops, i, Contents())
      {
        AddOne(k, db, tenant, experiment, parent, ops, i, proposed[i]);
        AddRow(tenant, experiment, parent, base, proposed[i]);
      }
      AddAll(k, db, tenant, experiment, parent, ops, Contents());
    }

    method AddRow(tenant: string, experiment: nat, parent: nat, base: Policy, candidate: Candidate)
      modifies this`policies, this`candidates
      ensures Contents() == WithRow(old(Contents()), tenant, experiment, parent, base, candidate)
    {
      policies := policies + [Policy(
          tenant, base.agent, base.version + "-cand", Some(parent), candidate.document, candidate.contentHash,
          None, Unsigned)];
      candidates := candidates + [CandidateRow(tenant, experiment, |policies| - 1, parent, candidate.diff,
        candidate.validation)];
    }

    method PromoteCandidate(who: Principal, p: Promotion) returns (decision: Decision)
      requires Right()
      modifies this`policies, this`decisions
      ensures Right() && Contents() == Decided(k, old(Contents()), decision)
      ensures decision == DecisionFor(who, p)
      ensures decision.verdict == Approve <==>
        p.approve && Passes(p.baselineScores, p.candidateScores, p.hard, p.coverage)
      ensures Isolated(old(Contents()), Contents(), who.tenant)
    {
      hide Inv, IsMade, DecisionFor, SignedPolicy, Isolated, Grows, Passes;
      decision := Decide(who, p);
      DecideKeeps(k, Contents(), decision);
      CandidateHasPolicy(k, Contents(), p.candidate);
      decisions := decisions + [decision];
      if decision.verdict == Approve && p.candidate < |candidates| && candidates[p.candidate].tenant == who.tenant {
        var i := candidates[p.candidate].policy;
        policies := policies[i := SignedPolicy(k, policies[i])];
      }
    }
  }

  method Decide(who: Principal, p: Promotion) returns (decision: Decision)
    ensures decision == DecisionFor(who, p)
    ensures decision.tenant == who.tenant && decision.candidate == p.candidate && IsMade(decision)
    ensures decision.verdict == Approve <==>
      p.approve && Passes(p.baselineScores, p.candidateScores, p.hard, p.coverage)
  {
    var b := WeightedScore(p.baselineScores, map[]);
    var c := WeightedScore(p.candidateScores, map[]);
    var gate := PromotionGate(p.baselineScores["composite" := b], p.candidateScores["composite" := c],
      Defaulted(p.hard), p.coverage);
    DefaultsChangeNothing(p);
    hide GateOf, WeightedScoreOf, Defaulted;
    var verdict := VerdictOf(p.approve, gate.passed);
    decision := Decision(who.tenant, p.candidate, gate, verdict,
      if verdict == Approve then Some(who.subject) else None);
  }

  lemma CandidateHasPolicy(k: Keys, db: Db, i: nat)
    requires Inv(k, db)
    ensures i < |db.candidates| ==> db.candidates[i].policy < |db.policies|
  {
    if i < |db.candidates| { assert CandidateIsRight(db, db.candidates[i]); }
  }

  // The first `i` of the operators have been added.
  ghost predicate AddedSoFar(k: Keys, db: Db, tenant: string, experiment: nat, parent: nat, ops: seq<Operator>, i: nat,
      now: Db) {
    && i <= |ops| && (forall op | op in ops :: CanStep(db, parent, op))
    && now == AddCandidates(k, db, tenant, experiment, parent, ops[..i])
  }

  lemma AddNone(k: Keys, db: Db, tenant: string, experiment: nat, parent: nat, ops: seq<Operator>)
    requires forall op | op in ops :: CanStep(db, parent, op)
    ensures AddedSoFar(k, db, tenant, experiment, parent, ops, 0, db)
  {
  }

  lemma AddAll(k: Keys, db: Db, tenant: string, experiment: nat, parent: nat, ops: seq<Operator>, now: Db)
    requires AddedSoFar(k, db, tenant, experiment, parent, ops, |ops|, now)
    ensures forall op | op in ops :: CanStep(db, parent, op)
    ensures now == AddCandidates(k, db, tenant, experiment, parent, ops)
  {
    assert ops[..|ops|] == ops;
  }

  lemma AllCanStep(k: Keys, db: Db, parent: nat, ops: seq<Operator>, proposed: seq<Candidate>)
    requires parent < |db.policies| && SchemaValid(db.policies[parent].document)
    requires AreCandidates(k.crypto, db.policies[parent].document, ops, proposed)
    ensures forall op | op in ops :: CanStep(db, parent, op)
    ensures |ops| == |proposed|
    ensures forall i | 0 <= i < |ops| ::
      IsCandidate(k.crypto, db.policies[parent].document, ops[i], proposed[i])
  {
  }

  lemma AddOne(k: Keys, db: Db, tenant: string, experiment: nat, parent: nat, ops: seq<Operator>, i: nat,
      candidate: Candidate)
    requires i < |ops| && parent < |db.policies| && SchemaValid(db.policies[parent].document)
    requires IsCandidate(k.crypto, db.policies[parent].document, ops[i], candidate)
    ensures forall now | AddedSoFar(k, db, tenant, experiment, parent, ops, i, now) ::
      AddedSoFar(k, db, tenant, experiment, parent, ops, i + 1,
        WithRow(now, tenant, experiment, parent, db.policies[parent], candidate))
  {
    if now :| AddedSoFar(k, db, tenant, experiment, parent, ops, i, now) {
      assert ops[..i + 1][..i] == ops[..i] && ops[..i + 1][i] == ops[i] && ops[i] in ops;
      assert now.policies[parent] == db.policies[parent];
      hide SchemaValid, Step, ContentHash, DiffOf;
      OneRow(k, now, tenant, experiment, parent, ops[i], candidate);
    }
  }

  function WithRow(db: Db, tenant: string, experiment: nat, parent: nat, base: Policy, candidate: Candidate): Db {
    db.(policies := db.policies + [Policy(
          tenant, base.agent, base.version + "-cand", Some(parent), candidate.document, candidate.contentHash,
          None, Unsigned)],
        candidates := db.candidates + [CandidateRow(tenant, experiment, |db.policies|, parent, candidate.diff,
          candidate.validation)])
  }

  lemma OneRow(k: Keys, db: Db, tenant: string, experiment: nat, parent: nat, op: Operator, candidate: Candidate)
    requires CanStep(db, parent, op) && SchemaValid(db.policies[parent].document)
    requires IsCandidate(k.crypto, db.policies[parent].document, op, candidate)
    ensures AddCandidate(k, db, tenant, experiment, parent, op) ==
      WithRow(db, tenant, experiment, parent, db.policies[parent], candidate)
  {
  }

  lemma ValidAcceptsItself(d: Dict)
    ensures Accepted(d, d, {}) <==> SchemaValid(d)
  {
  }

  // The request's defaults are those of the gate.
  lemma DefaultsChangeNothing(p: Promotion)
    ensures GateFor(p) == GateOf(WithComposite(p.baselineScores), WithComposite(p.candidateScores), p.hard, p.coverage)
  {
  }
}
