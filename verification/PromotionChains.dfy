// How often a policy can be promoted when each promoted candidate becomes the next baseline.
module PromotionChains {
  import opened Json
  import opened Scoring

  // The least composite that passes the gain check against a baseline composite.
  function Next(b: real): real {
    b + MIN_RELATIVE_GAIN * Scale(b)
  }

  // Composites in [0, 1], each of which passes against the one before.
  ghost predicate IsChain(s: seq<real>) {
    && s != []
    && (forall i | 0 <= i < |s| :: 0.0 <= s[i] <= 1.0)
    && (forall i | 0 < i < |s| :: s[i] >= Next(s[i - 1]))
  }

  lemma NextIsMonotone(x: real, y: real)
    requires 0.0 <= x <= y
    ensures x < Next(x) <= Next(y)
  {
  }

  // ---- The slowest chain ---------------------------------------------------------------------------------

  function Slowest(n: nat): (r: real)
    ensures r >= 0.0
  {
    if n == 0 then 0.0 else Next(Slowest(n - 1))
  }

  // No chain is slower.
  lemma {:induction false} ChainIsAboveSlowest(s: seq<real>, i: nat)
    requires IsChain(s) && i < |s|
    ensures s[i] >= Slowest(i)
  {
    if i > 0 {
      ChainIsAboveSlowest(s, i - 1);
      NextIsMonotone(Slowest(i - 1), s[i - 1]);
    }
  }

  lemma {:induction false} SlowestGrows(m: nat, n: nat)
    requires m <= n
    ensures Slowest(m) <= Slowest(n)
  {
    if m < n {
      SlowestGrows(m, n - 1);
      NextIsMonotone(Slowest(n - 1), Slowest(n - 1));
    }
  }

  function Pow(b: real, n: nat): real {
    if n == 0 then 1.0 else b * Pow(b, n - 1)
  }

  // Twenty equal steps up to `EPSILON`, then growth by a twentieth.
  lemma {:induction false} SlowestStart(n: nat)
    requires n <= 20
    ensures Slowest(n) == n as real * (EPSILON / 20.0)
  {
    if n > 0 { SlowestStart(n - 1); }
  }

  lemma {:induction false} SlowestClosedForm(n: nat)
    ensures Slowest(20 + n) == EPSILON * Pow(1.05, n) && Pow(1.05, n) >= 1.0
  {
    if n == 0 { SlowestStart(20); } else { SlowestClosedForm(n - 1); }
  }

  // ---- Powers of 1.05, to six digits ------------------------------------------------------------------------

  lemma {:induction false} PowAdd(b: real, m: nat, n: nat)
    ensures Pow(b, m + n) == Pow(b, m) * Pow(b, n)
  {
    if m > 0 {
      PowAdd(b, m - 1, n);
      Reassociate(b, Pow(b, m - 1), Pow(b, n));
    }
  }

  lemma Reassociate(x: real, y: real, z: real)
    ensures x * (y * z) == x * y * z
  {
  }

  lemma ProductBounds(x: real, lo: real, hi: real, y: real, lo': real, hi': real)
    requires 0.0 <= lo <= x <= hi && 0.0 <= lo' <= y <= hi'
    ensures lo * lo' <= x * y <= hi * hi'
  {
  }

  lemma SquareBounds(n: nat, lo: real, hi: real)
    requires 0.0 <= lo <= Pow(1.05, n) <= hi
    ensures lo * lo <= Pow(1.05, 2 * n) <= hi * hi
  {
    PowAdd(1.05, n, n);
    ProductBounds(Pow(1.05, n), lo, hi, Pow(1.05, n), lo, hi);
  }

  lemma {:induction false} PowThirteen()
    ensures 1.88564 <= Pow(1.05, 13) <= 1.88566
  {
  }

  lemma PowFiftyThree()
    ensures 13.274 <= Pow(1.05, 53) <= 13.2763
  {
    PowThirteen();
    SquareBounds(13, 1.88564, 1.88566);
    assert 3.5556 <= Pow(1.05, 26) <= 3.5558;
    SquareBounds(26, 3.5556, 3.5558);
    assert Pow(1.05, 53) == 1.05 * Pow(1.05, 52);
  }

  lemma PowLarge()
    ensures Pow(1.05, 424) <= 1000000000.0 < Pow(1.05, 425)
  {
    assert Pow(1.05, 425) == 1.05 * Pow(1.05, 424);
    hide Pow;
    PowFiftyThree();
    SquareBounds(53, 13.274, 13.2763);
    assert 176.19 <= Pow(1.05, 106) <= 176.27;
    SquareBounds(106, 176.19, 176.27);
    assert 31042.0 <= Pow(1.05, 212) <= 31072.0;
    SquareBounds(212, 31042.0, 31072.0);
  }

  // ---- The bound ------------------------------------------------------------------------------------------------

  const MAX_PROMOTIONS: nat := 444

  lemma SlowestReachesOne(n: nat)
    ensures Slowest(n) <= 1.0 <==> n <= MAX_PROMOTIONS
  {
    PowLarge();
    SlowestClosedForm(424);
    SlowestClosedForm(425);
    if n <= MAX_PROMOTIONS { SlowestGrows(n, MAX_PROMOTIONS); } else { SlowestGrows(MAX_PROMOTIONS + 1, n); }
  }

  // Main result: chains of `n` promotions within [0, 1] exist exactly for `n <= 444`.
  lemma ChainLengths(n: nat)
    ensures (exists s :: IsChain(s) && |s| == n + 1) <==> n <= MAX_PROMOTIONS
  {
    SlowestReachesOne(n);
    if s :| IsChain(s) && |s| == n + 1 {
      ChainIsAboveSlowest(s, n);
    }
    if n <= MAX_PROMOTIONS {
      var s := seq(n + 1, i requires 0 <= i => Slowest(i));
      forall i | 0 <= i < |s| ensures 0.0 <= s[i] <= 1.0 { SlowestGrows(i, n); }
      assert IsChain(s) && |s| == n + 1;
    }
  }

  // From a positive start a chain grows at least geometrically.
  lemma {:induction false} GeometricGrowth(s: seq<real>, i: nat)
    requires IsChain(s) && i < |s|
    ensures s[i] >= s[0] * Pow(1.05, i)
  {
    if i > 0 {
      GeometricGrowth(s, i - 1);
      assert s[i] >= Next(s[i - 1]) >= 1.05 * s[i - 1];
      Reassociate(1.05, s[0], Pow(1.05, i - 1));
    }
  }

  // ---- Chains of promotion requests ---------------------------------------------------------------------------

  // What a promotion request brings besides the scores.
  datatype Terms = Terms(hard: Hard, coverage: real)

  // Score maps in [0, 1], one more than there are requests; each passes the gate of its own request
  // against the one before.
  ghost predicate IsGateChain(maps: seq<Scores>, requests: seq<Terms>) {
    && |maps| == |requests| + 1
    && (forall i | 0 <= i < |maps| :: InUnit(maps[i]))
    && (forall i | 0 <= i < |requests| :: Passes(maps[i], maps[i + 1], requests[i].hard, requests[i].coverage))
  }

  ghost predicate InUnit(scores: Scores) {
    forall k | k in scores :: 0.0 <= scores[k] <= 1.0
  }

  lemma PassingIsNext(baseline: Scores, candidate: Scores, hard: Hard, coverage: real)
    requires Passes(baseline, candidate, hard, coverage)
    ensures WeightedScoreOf(candidate, map[]) >= Next(WeightedScoreOf(baseline, map[]))
  {
  }

  lemma UnitComposite(scores: Scores)
    requires InUnit(scores)
    ensures 0.0 <= WeightedScoreOf(scores, map[]) <= 1.0
  {
    DefaultsAreNonNegative();
    CompositeIsBounded(scores, map[], 0.0, 1.0);
  }

  lemma GateChainIsShort(maps: seq<Scores>, requests: seq<Terms>)
    requires IsGateChain(maps, requests)
    ensures |requests| <= MAX_PROMOTIONS
  {
    hide WeightedScoreOf, Passes, Next, InUnit;
    var s := seq(|maps|, i requires 0 <= i < |maps| => WeightedScoreOf(maps[i], map[]));
    forall i | 0 <= i < |s| ensures 0.0 <= s[i] <= 1.0 { UnitComposite(maps[i]); }
    forall i | 0 < i < |s| ensures s[i] >= Next(s[i - 1]) { ChainStep(maps, requests, i - 1); }
    ChainLengths(|requests|);
  }

  lemma ChainStep(maps: seq<Scores>, requests: seq<Terms>, i: nat)
    requires IsGateChain(maps, requests) && i < |requests|
    ensures WeightedScoreOf(maps[i + 1], map[]) >= Next(WeightedScoreOf(maps[i], map[]))
  {
    hide WeightedScoreOf, Passes, Next, InUnit;
    PassingIsNext(maps[i], maps[i + 1], requests[i].hard, requests[i].coverage);
  }

  // A single score is its own composite.
  lemma SingleScore(x: real)
    ensures WeightedScoreOf(map["task_outcome" := x], map[]) == x
  {
    var scores: Scores := map["task_outcome" := x];
    assert scores.Keys == {"task_outcome"};
    SumSplit(scores.Keys, Weight(map[]), "task_outcome");
    SumSplit(scores.Keys, Weighted(scores, map[]), "task_outcome");
    assert scores.Keys - {"task_outcome"} == {};
    assert Weight(map[])("task_outcome") == 0.30 && Weighted(scores, map[])("task_outcome") == x * 0.30;
  }

  lemma SingleScorePasses(x: real, y: real, hard: Hard, coverage: real)
    requires y >= Next(x) && CanPass(hard, coverage)
    ensures Passes(map["task_outcome" := x], map["task_outcome" := y], hard, coverage)
  {
    SingleScore(x);
    SingleScore(y);
    hide WeightedScoreOf;
    GatePassesExactly(WithComposite(map["task_outcome" := x]), WithComposite(map["task_outcome" := y]), hard, coverage);
  }

  // Nothing but the gain stands in the way.
  predicate CanPass(hard: Hard, coverage: real) {
    && hard.passed == Some(true) && coverage >= MIN_COVERAGE
    && (hard.groundingMinimum.Some? ==> hard.groundingMinimum.value <= 1.0)
  }

  predicate AllCanPass(requests: seq<Terms>) {
    forall i | 0 <= i < |requests| :: CanPass(requests[i].hard, requests[i].coverage)
  }

  lemma PassingCanPass(baseline: Scores, candidate: Scores, hard: Hard, coverage: real)
    requires Passes(baseline, candidate, hard, coverage) && InUnit(candidate)
    ensures CanPass(hard, coverage)
  {
    var b, c := WithComposite(baseline), WithComposite(candidate);
    GatePassesExactly(b, c, hard, coverage);
    assert !Fails(b, c, hard, coverage, HardConstraintsFailed) && !Fails(b, c, hard, coverage, ReplayCoverageTooLow);
    assert !Fails(b, c, hard, coverage, GroundingRegression);
  }

  // Main result: a row of promotion requests, each with its own terms, can be passed one after the
  // other exactly when there are at most 444 and the terms of each can be met.
  lemma GateChainLengths(requests: seq<Terms>)
    ensures (exists maps :: IsGateChain(maps, requests)) <==>
      |requests| <= MAX_PROMOTIONS && AllCanPass(requests)
  {
    hide Passes;
    if maps :| IsGateChain(maps, requests) {
      GateChainIsShort(maps, requests);
      forall i | 0 <= i < |requests| ensures CanPass(requests[i].hard, requests[i].coverage) {
        assert InUnit(maps[i + 1]);
        PassingCanPass(maps[i], maps[i + 1], requests[i].hard, requests[i].coverage);
      }
    }
    if |requests| <= MAX_PROMOTIONS && AllCanPass(requests) { SlowestChain(requests); }
  }

  lemma SlowestChain(requests: seq<Terms>)
    requires |requests| <= MAX_PROMOTIONS && AllCanPass(requests)
    ensures exists maps :: IsGateChain(maps, requests)
  {
    hide Passes;
    var n := |requests|;
    SlowestReachesOne(n);
    var maps: seq<Scores> := seq(n + 1, i requires 0 <= i => map["task_outcome" := Slowest(i)]);
    forall i | 0 <= i < |maps| ensures InUnit(maps[i]) { SlowestGrows(i, n); }
    forall i | 0 <= i < n ensures Passes(maps[i], maps[i + 1], requests[i].hard, requests[i].coverage) {
      SingleScorePasses(Slowest(i), Slowest(i + 1), requests[i].hard, requests[i].coverage);
    }
    assert IsGateChain(maps, requests);
  }
}
