// Composite scores, Pareto dominance and the promotion gate, over exact reals.
module Scoring {
  import opened Json

  type Scores = map<string, real>

  const DEFAULT_WEIGHTS: Scores := map[
    "task_outcome" := 0.30, "conversation_quality" := 0.18, "grounding" := 0.15, "state_progress" := 0.12,
    "tool_correctness" := 0.08, "user_experience" := 0.07, "cost_efficiency" := 0.05, "latency_efficiency" := 0.05]

  // `scores.get(key, fallback)`
  function ScoreOr(s: Scores, key: string, fallback: real): real {
    if key in s then s[key] else fallback
  }

  // `weights or DEFAULT_WEIGHTS`: an empty dict counts as absent.
  function EffectiveWeights(weights: Scores): Scores {
    if weights == map[] then DEFAULT_WEIGHTS else weights
  }

  // ---- Sums over the keys of a dict ----------------------------------------------------------------------

  ghost function Sum(keys: set<string>, f: string -> real): real {
    if keys == {} then 0.0
    else
      var k :| k in keys;
      f(k) + Sum(keys - {k}, f)
  }

  // The order of summation does not matter.
  lemma {:induction false} SumSplit(keys: set<string>, f: string -> real, k: string)
    requires k in keys
    ensures Sum(keys, f) == f(k) + Sum(keys - {k}, f)
  {
    var first :| first in keys && Sum(keys, f) == f(first) + Sum(keys - {first}, f);
    if first != k {
      SumSplit(keys - {first}, f, k);
      SumSplit(keys - {k}, f, first);
      assert keys - {first} - {k} == keys - {k} - {first};
    }
  }

  lemma {:induction false} SumOrder(keys: set<string>, f: string -> real, g: string -> real)
    requires forall k | k in keys :: f(k) <= g(k)
    ensures Sum(keys, f) <= Sum(keys, g)
    ensures (exists k :: k in keys && f(k) < g(k)) ==> Sum(keys, f) < Sum(keys, g)
  {
    if keys != {} {
      var k :| k in keys && ((exists l :: l in keys && f(l) < g(l)) ==> f(k) < g(k));
      SumSplit(keys, f, k);
      SumSplit(keys, g, k);
      SumOrder(keys - {k}, f, g);
    }
  }

  function Times(c: real, x: real): real { c * x }

  lemma {:induction false} SumBetween(keys: set<string>, f: string -> real, w: string -> real, lo: real, hi: real)
    requires forall k | k in keys :: Times(lo, w(k)) <= f(k) <= Times(hi, w(k))
    ensures Times(lo, Sum(keys, w)) <= Sum(keys, f) <= Times(hi, Sum(keys, w))
  {
    hide Times;
    Distribute(lo, 0.0, 0.0);
    Distribute(hi, 0.0, 0.0);
    if keys != {} {
      var k :| k in keys;
      SumSplit(keys, f, k);
      SumSplit(keys, w, k);
      SumBetween(keys - {k}, f, w, lo, hi);
      Distribute(lo, w(k), Sum(keys - {k}, w));
      Distribute(hi, w(k), Sum(keys - {k}, w));
    }
  }

  lemma Distribute(c: real, x: real, y: real)
    ensures Times(c, x + y) == Times(c, x) + Times(c, y)
  {
  }

  // ---- The weighted score ----------------------------------------------------------------------------------

  function Weight(weights: Scores): string -> real {
    k => ScoreOr(EffectiveWeights(weights), k, 0.0)
  }

  function Weighted(scores: Scores, weights: Scores): string -> real {
    k => ScoreOr(scores, k, 0.0) * ScoreOr(EffectiveWeights(weights), k, 0.0)
  }

  ghost function WeightedScoreOf(scores: Scores, weights: Scores): real {
    var denom := Sum(scores.Keys, Weight(weights));
    if denom == 0.0 then 0.0 else Sum(scores.Keys, Weighted(scores, weights)) / denom
  }

  method WeightedScore(scores: Scores, weights: Scores) returns (r: real)
    ensures r == WeightedScoreOf(scores, weights)
  {
    var denom := SumOfKeys(scores.Keys, Weight(weights));
    if denom == 0.0 { return 0.0; }
    var total := SumOfKeys(scores.Keys, Weighted(scores, weights));
    r := total / denom;
  }

  // `sum(f(k) for k in keys)`
  method SumOfKeys(keys: set<string>, f: string -> real) returns (sum: real)
    ensures sum == Sum(keys, f)
  {
    sum := 0.0;
    var todo := keys;
    while todo != {}
      invariant todo <= keys
      invariant sum + Sum(todo, f) == Sum(keys, f)
    {
      var k :| k in todo;
      SumSplit(todo, f, k);
      sum := sum + f(k);
      todo := todo - {k};
    }
  }

  ghost predicate NonNegative(weights: Scores) {
    forall k | k in EffectiveWeights(weights) :: EffectiveWeights(weights)[k] >= 0.0
  }

  ghost predicate AtLeast(a: Scores, b: Scores) {
    a.Keys == b.Keys && forall k | k in b :: a[k] >= b[k]
  }

  // Scores without a weight do not count.
  lemma OnlyWeightedCount(scores: Scores, weights: Scores)
    requires weights != map[]
    ensures WeightedScoreOf(scores, weights) == WeightedScoreOf(Only(scores, weights.Keys), weights)
  {
    var part := Only(scores, weights.Keys);
    assert part.Keys <= scores.Keys;
    SumOfPart(part.Keys, scores.Keys, Weight(weights), Weight(weights));
    SumOfPart(part.Keys, scores.Keys, Weighted(part, weights), Weighted(scores, weights));
    hide Sum;
  }

  lemma {:induction false} SumOfPart(part: set<string>, keys: set<string>, f: string -> real, g: string -> real)
    requires part <= keys && (forall k | k in part :: f(k) == g(k)) && forall k | k in keys - part :: g(k) == 0.0
    ensures Sum(part, f) == Sum(keys, g)
  {
    if keys != {} {
      var k :| k in keys;
      SumSplit(keys, g, k);
      if k in part {
        SumSplit(part, f, k);
        SumOfPart(part - {k}, keys - {k}, f, g);
      } else {
        SumOfPart(part, keys - {k}, f, g);
      }
    }
  }

  // The composite of two scores is their mean under the weights that are given.
  lemma CompositeOfTwo(k: string, x: real, u: real, l: string, y: real, v: real)
    requires k != l && u + v != 0.0
    ensures WeightedScoreOf(map[k := x, l := y], map[k := u, l := v]) * (u + v) == x * u + y * v
  {
    var scores, weights := map[k := x, l := y], map[k := u, l := v];
    var f, g := Weight(weights), Weighted(scores, weights);
    TwoWeights(k, u, l, v);
    assert g(k) == x * u && g(l) == y * v;
    assert scores.Keys == {k, l};
    SumOfTwo(k, l, f);
    SumOfTwo(k, l, g);
    assert WeightedScoreOf(scores, weights) == Sum(scores.Keys, g) / Sum(scores.Keys, f);
    hide *;
    TimesQuotient(Sum(scores.Keys, g), Sum(scores.Keys, f));
  }

  lemma TwoWeights(k: string, u: real, l: string, v: real)
    requires k != l
    ensures var weights := map[k := u, l := v];
      EffectiveWeights(weights) == weights && Weight(weights)(k) == u && Weight(weights)(l) == v
  {
    var weights := map[k := u, l := v];
    assert k in weights;
  }

  lemma TimesQuotient(x: real, d: real)
    requires d != 0.0
    ensures x / d * d == x
  {
  }

  lemma SumOfTwo(k: string, l: string, f: string -> real)
    requires k != l
    ensures Sum({k, l}, f) == f(k) + f(l)
  {
    SumSplit({k, l}, f, k);
    assert {k, l} - {k} == {l};
    SumSplit({l}, f, l);
    assert {l} - {l} == {};
  }

  // Main result: the composite is monotone in every score, strictly where the weight is positive.
  lemma CompositeIsMonotone(a: Scores, b: Scores, weights: Scores)
    requires NonNegative(weights) && AtLeast(a, b)
    ensures WeightedScoreOf(a, weights) >= WeightedScoreOf(b, weights)
    ensures (exists k :: k in b && a[k] > b[k] && Weight(weights)(k) > 0.0) ==>
      WeightedScoreOf(a, weights) > WeightedScoreOf(b, weights)
  {
    hide Weight, Weighted, NonNegative;
    WeightsSumUp(a.Keys, weights);
    NumeratorIsMonotone(a, b, weights);
    var denom := Sum(a.Keys, Weight(weights));
    if denom > 0.0 {
      QuotientOrder(Sum(b.Keys, Weighted(b, weights)), Sum(a.Keys, Weighted(a, weights)), denom);
      QuotientOrder(Sum(a.Keys, Weighted(a, weights)), Sum(b.Keys, Weighted(b, weights)), denom);
    }
  }

  lemma NumeratorIsMonotone(a: Scores, b: Scores, weights: Scores)
    requires NonNegative(weights) && AtLeast(a, b)
    ensures Sum(a.Keys, Weighted(a, weights)) >= Sum(b.Keys, Weighted(b, weights))
    ensures (exists k :: k in b && a[k] > b[k] && Weight(weights)(k) > 0.0) ==>
      Sum(a.Keys, Weighted(a, weights)) > Sum(b.Keys, Weighted(b, weights))
  {
    forall k | k in b.Keys
      ensures Weighted(b, weights)(k) <= Weighted(a, weights)(k)
      ensures a[k] > b[k] && Weight(weights)(k) > 0.0 ==> Weighted(b, weights)(k) < Weighted(a, weights)(k)
    {
      hide EffectiveWeights;
      ProductOrder(b[k], a[k], Weight(weights)(k));
    }
    hide Weight, Weighted, NonNegative;
    SumOrder(b.Keys, Weighted(b, weights), Weighted(a, weights));
  }

  lemma ProductOrder(x: real, y: real, w: real)
    requires x <= y && w >= 0.0
    ensures x * w <= y * w
    ensures x < y && w > 0.0 ==> x * w < y * w
  {
  }

  lemma QuotientOrder(x: real, y: real, d: real)
    requires d > 0.0
    ensures x <= y <==> x / d <= y / d
  {
  }

  lemma Cancel(x: real, d: real)
    requires d > 0.0
    ensures x * d / d == x
  {
  }

  lemma WeightsSumUp(keys: set<string>, weights: Scores)
    requires NonNegative(weights)
    ensures Sum(keys, Weight(weights)) >= 0.0
    ensures (exists k :: k in keys && Weight(weights)(k) > 0.0) ==> Sum(keys, Weight(weights)) > 0.0
  {
  }

  // Scores between two bounds have a composite between them; with no weight at all it is 0.
  lemma CompositeIsBounded(scores: Scores, weights: Scores, lo: real, hi: real)
    requires NonNegative(weights) && lo <= 0.0 <= hi
    requires forall k | k in scores :: lo <= scores[k] <= hi
    ensures lo <= WeightedScoreOf(scores, weights) <= hi
  {
    hide Weight, Weighted, NonNegative;
    WeightsSumUp(scores.Keys, weights);
    NumeratorIsBounded(scores, weights, lo, hi);
    var denom := Sum(scores.Keys, Weight(weights));
    var numer := Sum(scores.Keys, Weighted(scores, weights));
    if denom > 0.0 {
      QuotientOrder(lo * denom, numer, denom);
      QuotientOrder(numer, hi * denom, denom);
      Cancel(lo, denom);
      Cancel(hi, denom);
    }
  }

  lemma WeightedBetween(scores: Scores, weights: Scores, lo: real, hi: real, k: string)
    requires NonNegative(weights) && k in scores && lo <= scores[k] <= hi
    ensures Times(lo, Weight(weights)(k)) <= Weighted(scores, weights)(k) <= Times(hi, Weight(weights)(k))
  {
  }

  lemma NumeratorIsBounded(scores: Scores, weights: Scores, lo: real, hi: real)
    requires NonNegative(weights)
    requires forall k | k in scores :: lo <= scores[k] <= hi
    ensures Times(lo, Sum(scores.Keys, Weight(weights))) <= Sum(scores.Keys, Weighted(scores, weights))
    ensures Sum(scores.Keys, Weighted(scores, weights)) <= Times(hi, Sum(scores.Keys, Weight(weights)))
  {
    hide Times, Weighted, Weight, NonNegative;
    forall k | k in scores.Keys
      ensures Times(lo, Weight(weights)(k)) <= Weighted(scores, weights)(k) <= Times(hi, Weight(weights)(k))
    {
      WeightedBetween(scores, weights, lo, hi, k);
    }
    SumBetween(scores.Keys, Weighted(scores, weights), Weight(weights), lo, hi);
  }

  // ---- Pareto dominance ----------------------------------------------------------------------------------------

  // The keys of a set that count; an empty `maximize` means all of them.
  function Kept(keys: set<string>, maximize: set<string>): set<string> {
    if maximize == {} then keys else keys * maximize
  }

  function ComparedKeys(a: Scores, b: Scores, maximize: set<string>): set<string> {
    Kept(a.Keys * b.Keys, maximize)
  }

  predicate ParetoDominates(a: Scores, b: Scores, maximize: set<string>) {
    var keys := ComparedKeys(a, b, maximize);
    keys != {} && (forall k | k in keys :: a[k] >= b[k]) && (exists k | k in keys :: a[k] > b[k])
  }

  // With some keys to maximize the others do not count, whatever their scores.
  lemma OnlyMaximizedCount(a: Scores, b: Scores, maximize: set<string>)
    requires maximize != {}
    ensures ParetoDominates(a, b, maximize) <==> ParetoDominates(Only(a, maximize), Only(b, maximize), {})
  {
    var c, d := Only(a, maximize), Only(b, maximize);
    assert ComparedKeys(a, b, maximize) == ComparedKeys(c, d, {});
    assert forall k | k in ComparedKeys(c, d, {}) :: c[k] == a[k] && d[k] == b[k];
  }

  function Only(s: Scores, keys: set<string>): Scores {
    map k | k in s && k in keys :: s[k]
  }

  // On any maps, nothing dominates itself, and no two maps dominate each other.
  lemma DominanceIsAsymmetric(a: Scores, b: Scores, maximize: set<string>)
    ensures !ParetoDominates(a, a, maximize)
    ensures !(ParetoDominates(a, b, maximize) && ParetoDominates(b, a, maximize))
  {
    assert ComparedKeys(a, b, maximize) == ComparedKeys(b, a, maximize);
  }

  // Dominance carries over from maps on `ka` to maps on `kc` by way of any map on `kb`.
  ghost predicate Transitive(ka: set<string>, kb: set<string>, kc: set<string>, maximize: set<string>) {
    forall a: Scores, b: Scores, c: Scores | a.Keys == ka && b.Keys == kb && c.Keys == kc
      && ParetoDominates(a, b, maximize) && ParetoDominates(b, c, maximize) :: ParetoDominates(a, c, maximize)
  }

  // Either no two maps are compared on the way, or the way sees every key of the direct comparison
  // and one of its two halves sees no other.
  predicate Bridges(ka: set<string>, kb: set<string>, kc: set<string>, maximize: set<string>) {
    || Kept(ka * kb, maximize) == {} || Kept(kb * kc, maximize) == {}
    || (Kept(ka * kc, maximize) <= kb && (Kept(ka * kb, maximize) <= kc || Kept(kb * kc, maximize) <= ka))
  }

  // Main result: exactly which key sets make dominance transitive.
  lemma TransitiveExactly(ka: set<string>, kb: set<string>, kc: set<string>, maximize: set<string>)
    ensures Transitive(ka, kb, kc, maximize) <==> Bridges(ka, kb, kc, maximize)
  {
    if Bridges(ka, kb, kc, maximize) {
      forall a: Scores, b: Scores, c: Scores | a.Keys == ka && b.Keys == kb && c.Keys == kc
        && ParetoDominates(a, b, maximize) && ParetoDominates(b, c, maximize)
        ensures ParetoDominates(a, c, maximize)
      {
        BridgedDominance(a, b, c, maximize);
      }
    } else if Kept(ka * kc, maximize) <= kb {
      var p :| p in Kept(ka * kb, maximize) && p !in kc;
      var q :| q in Kept(kb * kc, maximize) && q !in ka;
      StrictOutside(ka, kb, kc, maximize, p, q);
    } else {
      var r :| r in Kept(ka * kc, maximize) && r !in kb;
      UnseenKey(ka, kb, kc, maximize, r);
    }
  }

  lemma BridgedDominance(a: Scores, b: Scores, c: Scores, maximize: set<string>)
    requires Bridges(a.Keys, b.Keys, c.Keys, maximize)
    requires ParetoDominates(a, b, maximize) && ParetoDominates(b, c, maximize)
    ensures ParetoDominates(a, c, maximize)
  {
    var keys := ComparedKeys(a, c, maximize);
    forall k | k in keys ensures a[k] >= c[k] { assert a[k] >= b[k] >= c[k]; }
    var p :| p in ComparedKeys(a, b, maximize) && a[p] > b[p];
    var q :| q in ComparedKeys(b, c, maximize) && b[q] > c[q];
    if p in c {
      assert p in keys && a[p] > b[p] >= c[p];
    } else {
      assert q in keys && a[q] >= b[q] > c[q];
    }
  }

  // The maps differ only on `p` and `q`, which the direct comparison does not see.
  lemma StrictOutside(ka: set<string>, kb: set<string>, kc: set<string>, maximize: set<string>, p: string, q: string)
    requires p in Kept(ka * kb, maximize) && p !in kc && q in Kept(kb * kc, maximize) && q !in ka
    ensures !Transitive(ka, kb, kc, maximize)
  {
    var a: Scores := map k | k in ka :: if k == p then 1.0 else 0.0;
    var b: Scores := map k | k in kb :: if k == q then 1.0 else 0.0;
    var c: Scores := map k | k in kc :: 0.0;
    assert p in ComparedKeys(a, b, maximize) && a[p] > b[p];
    assert q in ComparedKeys(b, c, maximize) && b[q] > c[q];
    assert ParetoDominates(a, b, maximize) && ParetoDominates(b, c, maximize);
    assert forall k | k in ComparedKeys(a, c, maximize) :: a[k] == c[k];
  }

  // The way descends by 1 on every key but `r`, which it does not see.
  lemma UnseenKey(ka: set<string>, kb: set<string>, kc: set<string>, maximize: set<string>, r: string)
    requires r in Kept(ka * kc, maximize) && r !in kb
    requires Kept(ka * kb, maximize) != {} && Kept(kb * kc, maximize) != {}
    ensures !Transitive(ka, kb, kc, maximize)
  {
    var a: Scores := map k | k in ka :: if k == r then 0.0 else 2.0;
    var b: Scores := map k | k in kb :: 1.0;
    var c: Scores := map k | k in kc :: if k == r then 1.0 else 0.0;
    Descends(a, b, maximize);
    Descends(b, c, maximize);
    assert r in ComparedKeys(a, c, maximize) && a[r] < c[r];
    hide Kept;
  }

  lemma Descends(a: Scores, b: Scores, maximize: set<string>)
    requires ComparedKeys(a, b, maximize) != {}
    requires forall k | k in a && k in b :: a[k] > b[k]
    ensures ParetoDominates(a, b, maximize)
  {
    var k :| k in ComparedKeys(a, b, maximize);
    assert a[k] > b[k];
  }

  // On maps with one key set, dominance is a strict partial order.
  lemma DominanceIsStrictOrder(keys: set<string>, maximize: set<string>)
    ensures Transitive(keys, keys, keys, maximize)
    ensures forall a: Scores, b: Scores | ParetoDominates(a, b, maximize) :: !ParetoDominates(b, a, maximize)
  {
    TransitiveExactly(keys, keys, keys, maximize);
    forall a: Scores, b: Scores | ParetoDominates(a, b, maximize) ensures !ParetoDominates(b, a, maximize) {
      DominanceIsAsymmetric(a, b, maximize);
    }
  }

  // With different key sets it is not: a cycle of three.
  lemma DominanceMayCycle(a: Scores, b: Scores, c: Scores)
    requires a == map["x" := 1.0, "z" := 0.0]
    requires b == map["x" := 0.0, "y" := 1.0]
    requires c == map["y" := 0.0, "z" := 1.0]
    ensures ParetoDominates(a, b, {}) && ParetoDominates(b, c, {}) && ParetoDominates(c, a, {})
    ensures !ParetoDominates(a, c, {})
  {
    assert ComparedKeys(a, b, {}) == {"x"} && ComparedKeys(b, c, {}) == {"y"};
    assert ComparedKeys(c, a, {}) == {"z"} == ComparedKeys(a, c, {});
  }

  // ---- The promotion gate -----------------------------------------------------------------------------------------

  const MIN_RELATIVE_GAIN := 0.05
  const MIN_COVERAGE := 0.7
  const EPSILON := 0.000000001

  // The hard constraints of a request; each may be missing.
  datatype Hard = Hard(passed: Option<bool>, groundingMinimum: Option<real>)

  datatype Failure = HardConstraintsFailed | ReplayCoverageTooLow | InsufficientRelativeGain | GroundingRegression

  datatype Gate = Gate(passed: bool, failures: seq<Failure>, relativeGain: real, coverage: real)

  function Abs(x: real): real { if x < 0.0 then -x else x }

  // The denominator of the gain.
  function Scale(b: real): (s: real)
    ensures s >= EPSILON && s >= b
  {
    if Abs(b) > EPSILON then Abs(b) else EPSILON
  }

  function RelativeGain(b: real, c: real): real {
    (c - b) / Scale(b)
  }

  predicate Fails(baseline: Scores, candidate: Scores, hard: Hard, coverage: real, f: Failure) {
    match f
    case HardConstraintsFailed => hard.passed != Some(true)
    case ReplayCoverageTooLow => coverage < MIN_COVERAGE
    case InsufficientRelativeGain =>
      var b := ScoreOr(baseline, "composite", 0.0);
      ScoreOr(candidate, "composite", 0.0) < b + MIN_RELATIVE_GAIN * Scale(b)
    case GroundingRegression =>
      ScoreOr(candidate, "grounding", 1.0) < (if hard.groundingMinimum.Some? then hard.groundingMinimum.value else 0.9)
  }

  // Each failure in the order of the code.
  function FailureList(h: bool, v: bool, g: bool, r: bool): (failures: seq<Failure>)
    ensures HardConstraintsFailed in failures <==> h
    ensures ReplayCoverageTooLow in failures <==> v
    ensures InsufficientRelativeGain in failures <==> g
    ensures GroundingRegression in failures <==> r
    ensures |failures| == (if h then 1 else 0) + (if v then 1 else 0) + (if g then 1 else 0) + (if r then 1 else 0)
  {
    var first := if h then [HardConstraintsFailed] else [];
    var second := if v then first + [ReplayCoverageTooLow] else first;
    var third := if g then second + [InsufficientRelativeGain] else second;
    if r then third + [GroundingRegression] else third
  }

  function GateOf(baseline: Scores, candidate: Scores, hard: Hard, coverage: real): Gate {
    var failures := FailureList(Fails(baseline, candidate, hard, coverage, HardConstraintsFailed),
                                Fails(baseline, candidate, hard, coverage, ReplayCoverageTooLow),
                                Fails(baseline, candidate, hard, coverage, InsufficientRelativeGain),
                                Fails(baseline, candidate, hard, coverage, GroundingRegression));
    Gate(failures == [], failures,
         RelativeGain(ScoreOr(baseline, "composite", 0.0), ScoreOr(candidate, "composite", 0.0)), coverage)
  }

  method PromotionGate(baseline: Scores, candidate: Scores, hard: Hard, coverage: real) returns (gate: Gate)
    ensures gate == GateOf(baseline, candidate, hard, coverage)
  {
    var failures: seq<Failure> := [];
    if hard.passed != Some(true) { failures := [HardConstraintsFailed]; }
    if coverage < MIN_COVERAGE { failures := failures + [ReplayCoverageTooLow]; }
    var b := ScoreOr(baseline, "composite", 0.0);
    var c := ScoreOr(candidate, "composite", 0.0);
    var gain := RelativeGain(b, c);
    GainThreshold(b, c);
    hide RelativeGain, Scale, ScoreOr;
    if gain < MIN_RELATIVE_GAIN { failures := failures + [InsufficientRelativeGain]; }
    if ScoreOr(candidate, "grounding", 1.0) < hard.groundingMinimum.Or(0.9) {
      failures := failures + [GroundingRegression];
    }
    gate := Gate(failures == [], failures, gain, coverage);
  }

  // The gate passes exactly when nothing fails, and it lists exactly what fails.
  lemma GatePassesExactly(baseline: Scores, candidate: Scores, hard: Hard, coverage: real)
    ensures GateOf(baseline, candidate, hard, coverage).passed <==>
      forall f :: !Fails(baseline, candidate, hard, coverage, f)
    ensures forall f ::
      f in GateOf(baseline, candidate, hard, coverage).failures <==> Fails(baseline, candidate, hard, coverage, f)
  {
  }

  // Main result: the gate in full. The gain it reports is that over the baseline, on a scale of at
  // least 1e-9.
  lemma GateInFull(baseline: Scores, candidate: Scores, hard: Hard, coverage: real)
    ensures var b := if "composite" in baseline then baseline["composite"] else 0.0;
      var c := if "composite" in candidate then candidate["composite"] else 0.0;
      var grounding := if "grounding" in candidate then candidate["grounding"] else 1.0;
      var minimum := if hard.groundingMinimum.Some? then hard.groundingMinimum.value else 0.9;
      var size := if b < 0.0 then -b else b;
      var scale := if size > 0.000000001 then size else 0.000000001;
      var gate := GateOf(baseline, candidate, hard, coverage);
      && (gate.passed <==>
            hard.passed == Some(true) && coverage >= 0.7 && c >= b + 0.05 * scale && grounding >= minimum)
      && gate.relativeGain * scale == c - b && gate.coverage == coverage
      && (HardConstraintsFailed in gate.failures <==> hard.passed != Some(true))
      && (ReplayCoverageTooLow in gate.failures <==> coverage < 0.7)
      && (InsufficientRelativeGain in gate.failures <==> c < b + 0.05 * scale)
      && (GroundingRegression in gate.failures <==> grounding < minimum)
  {
    var b, c := ScoreOr(baseline, "composite", 0.0), ScoreOr(candidate, "composite", 0.0);
    GainIs(b, c);
    hide RelativeGain;
  }

  lemma GainIs(b: real, c: real)
    ensures RelativeGain(b, c) * Scale(b) == c - b
  {
  }

  // The threshold on the quotient, without the quotient.
  lemma GainThreshold(b: real, c: real)
    ensures RelativeGain(b, c) < MIN_RELATIVE_GAIN <==> c < b + MIN_RELATIVE_GAIN * Scale(b)
  {
  }

  // `{**scores, "composite": weighted_score(scores)}`
  ghost function WithComposite(scores: Scores): Scores {
    scores["composite" := WeightedScoreOf(scores, map[])]
  }

  // The gate of a promotion request.
  ghost predicate Passes(baseline: Scores, candidate: Scores, hard: Hard, coverage: real) {
    GateOf(WithComposite(baseline), WithComposite(candidate), hard, coverage).passed
  }

  lemma DefaultsAreNonNegative()
    ensures NonNegative(map[])
  {
  }

  // Main result: whoever dominates a candidate that passes, on the same scores, passes as well.
  lemma DominatingCandidatePasses(baseline: Scores, better: Scores, candidate: Scores, hard: Hard, coverage: real)
    requires Passes(baseline, candidate, hard, coverage)
    requires better.Keys == candidate.Keys && ParetoDominates(better, candidate, {})
    ensures Passes(baseline, better, hard, coverage)
  {
    assert AtLeast(better, candidate) by {
      forall k | k in candidate ensures better[k] >= candidate[k] { assert k in ComparedKeys(better, candidate, {}); }
    }
    DefaultsAreNonNegative();
    CompositeIsMonotone(better, candidate, map[]);
    GatePassesExactly(WithComposite(baseline), WithComposite(candidate), hard, coverage);
    GatePassesExactly(WithComposite(baseline), WithComposite(better), hard, coverage);
    forall f ensures !Fails(WithComposite(baseline), WithComposite(better), hard, coverage, f) {
      assert !Fails(WithComposite(baseline), WithComposite(candidate), hard, coverage, f);
    }
  }
}
