// Iterated proposing: any number of generations, in any order of operators.
module SelfImprovement {
  import opened Json
  import opened PolicyDsl
  import opened Proposals
  import opened Signing
  import opened Arithmetic
  import opened ActionSelection

  // The document after a sequence of operators, the first one first.
  function Run(base: Dict, ops: seq<Operator>): (r: Option<Dict>)
    requires SchemaValid(base)
    ensures r.Some? ==> SchemaValid(r.value)
  {
    if ops == [] then Some(base)
    else
      match Run(base, ops[..|ops| - 1])
      case None => None
      case Some(d) =>
        assert Step(d, ops[|ops| - 1]).Some? ==> SchemaValid(Step(d, ops[|ops| - 1]).value) by {
          if Step(d, ops[|ops| - 1]).Some? { StepIsAccepted(d, ops[|ops| - 1]); }
        }
        Step(d, ops[|ops| - 1])
  }

  // ---- The closed form: what a document becomes, given only how often each operator ran ---------------

  // The patches of `n >= 1` runs of an operator, collapsed into one.
  function TotalPatch(base: Dict, op: Operator, n: nat): Dict
    requires SchemaValid(base) && Patch(base, op).Some? && n > 0
  {
    if op.RetrievalTuning? then RetrievalPatch(ContextK(base).value + 2 * (n - 1)) else Patch(base, op).value
  }

  function TunedComponent(base: Dict, op: Operator, n: nat): Dict
    requires SchemaValid(base) && Patch(base, op).Some?
  {
    assert OptionalObj(base, Target(op));
    if n == 0 then Component(base, Target(op)) else Component(base, Target(op)) + TotalPatch(base, op, n)
  }

  // The same entry, or none, under a key.
  ghost predicate SameEntry(a: Dict, b: Dict, key: string) {
    (key in a <==> key in b) && (key in a ==> a[key] == b[key])
  }

  // The component of `op` in `d` is that of `base` after `n` runs of `op`.
  ghost predicate TunedAt(base: Dict, op: Operator, n: nat, d: Dict)
    requires SchemaValid(base)
  {
    if n == 0 then SameEntry(base, d, Target(op))
    else Patch(base, op).Some? && Target(op) in d && d[Target(op)] == Obj(TunedComponent(base, op, n))
  }

  function OperatorFor(key: string): (op: Option<Operator>)
    ensures op.Some? ==> Target(op.value) == key
    ensures op.None? ==> forall o :: Target(o) != key
  {
    if key == "retrieval_policy" then Some(RetrievalTuning)
    else if key == "response_policy" then Some(PromptRefinement)
    else if key == "action_policy" then Some(ActionRuleAdjustment)
    else if key == "termination_policy" then Some(TerminationTuning)
    else None
  }

  lemma TargetIsInjective(a: Operator, b: Operator)
    ensures Target(a) == Target(b) <==> a == b
  {
  }

  // `d` is `base` with each component tuned as often as the counts say, and nothing else changed.
  ghost predicate IsTuned(base: Dict, counts: multiset<Operator>, d: Dict)
    requires SchemaValid(base)
  {
    && SchemaValid(d)
    && (forall op :: TunedAt(base, op, counts[op], d))
    && (forall key | OperatorFor(key).None? :: SameEntry(base, d, key))
  }

  lemma TunedIsUnique(base: Dict, counts: multiset<Operator>, d: Dict, e: Dict)
    requires SchemaValid(base) && IsTuned(base, counts, d) && IsTuned(base, counts, e)
    ensures d == e
  {
    hide SchemaValid, Patch, TunedComponent;
    forall key ensures key in d <==> key in e
               ensures key in d ==> d[key] == e[key]
    {
      if OperatorFor(key).Some? {
        assert TunedAt(base, OperatorFor(key).value, counts[OperatorFor(key).value], d);
        assert TunedAt(base, OperatorFor(key).value, counts[OperatorFor(key).value], e);
      } else {
        assert SameEntry(base, d, key) && SameEntry(base, e, key);
      }
    }
  }

  // The component an operator is about to patch.
  lemma TunedTarget(base: Dict, counts: multiset<Operator>, d: Dict, op: Operator)
    requires SchemaValid(base) && IsTuned(base, counts, d)
    requires Patch(base, op).Some?
    ensures OptionalObj(d, Target(op)) && Component(d, Target(op)) == TunedComponent(base, op, counts[op])
  {
  }

  // One more run of an operator on a tuned document gives the document tuned once more.
  lemma StepIsTuned(base: Dict, counts: multiset<Operator>, d: Dict, op: Operator)
    requires SchemaValid(base) && IsTuned(base, counts, d)
    ensures Step(d, op).Some? <==> Patch(base, op).Some?
    ensures Step(d, op).Some? ==> IsTuned(base, counts + multiset{op}, Step(d, op).value)
    ensures Step(d, op).Some? ==> Step(d, op).value == d[Target(op) := Obj(TunedComponent(base, op, counts[op] + 1))]
  {
    hide SchemaValid, Patch, IsTuned, TunedComponent;
    PatchOfTuned(base, counts, d, op);
    if Patch(base, op).Some? {
      TunedTarget(base, counts, d, op);
      StepIsAccepted(d, op);
      CollapsePatch(base, op, counts[op], Patch(d, op).value);
      TunedOnceMore(base, counts, d, op, Step(d, op).value);
    }
  }

  lemma TunedOnceMore(base: Dict, counts: multiset<Operator>, d: Dict, op: Operator, e: Dict)
    requires SchemaValid(base) && IsTuned(base, counts, d) && SchemaValid(e) && Patch(base, op).Some?
    requires e == d[Target(op) := Obj(TunedComponent(base, op, counts[op] + 1))]
    ensures IsTuned(base, counts + multiset{op}, e)
  {
    hide SchemaValid, Patch, TunedComponent;
    forall other ensures TunedAt(base, other, (counts + multiset{op})[other], e) {
      TargetIsInjective(other, op);
      assert TunedAt(base, other, counts[other], d);
    }
    forall key | OperatorFor(key).None? ensures SameEntry(base, e, key) {
      assert SameEntry(base, d, key);
    }
  }

  // A patch depends only on the component that it will change.
  lemma PatchReadsTarget(d: Dict, e: Dict, op: Operator)
    requires SchemaValid(d) && SchemaValid(e)
    requires OptionalObj(d, Target(op)) && OptionalObj(e, Target(op))
    requires Component(d, Target(op)) == Component(e, Target(op))
    ensures Patch(d, op) == Patch(e, op)
  {
  }

  lemma PatchOfPatched(base: Dict, d: Dict, op: Operator, n: nat)
    requires SchemaValid(base) && SchemaValid(d) && Patch(base, op).Some? && n > 0
    requires OptionalObj(d, Target(op)) && Component(d, Target(op)) == TunedComponent(base, op, n)
    ensures Patch(d, op) == Some(PatchAfter(base, op, n))
  {
  }

  // The patch that a tuned document suggests.
  lemma PatchOfTuned(base: Dict, counts: multiset<Operator>, d: Dict, op: Operator)
    requires SchemaValid(base) && IsTuned(base, counts, d)
    ensures SchemaValid(d)
    ensures Patch(d, op).Some? <==> Patch(base, op).Some?
    ensures Patch(d, op).Some? ==> Patch(d, op).value == PatchAfter(base, op, counts[op])
  {
    assert OptionalObj(base, Target(op)) && OptionalObj(d, Target(op));
    hide SchemaValid, Patch, TunedComponent;
    assert TunedAt(base, op, counts[op], d);
    if counts[op] > 0 {
      TunedTarget(base, counts, d, op);
      PatchOfPatched(base, d, op, counts[op]);
    } else {
      PatchReadsTarget(base, d, op);
    }
  }

  // What an operator suggests after `n` runs.
  function PatchAfter(base: Dict, op: Operator, n: nat): Dict
    requires SchemaValid(base) && Patch(base, op).Some?
  {
    if op.RetrievalTuning? && n > 0 then RetrievalPatch(Min(12, ContextK(base).value + 2 * n))
    else Patch(base, op).value
  }

  lemma CollapsePatch(base: Dict, op: Operator, n: nat, patch: Dict)
    requires SchemaValid(base) && Patch(base, op).Some? && patch == PatchAfter(base, op, n)
    ensures TunedComponent(base, op, n) + patch == TunedComponent(base, op, n + 1)
  {
  }

  // Main result: a run succeeds exactly when every operator in it can build its first patch, and
  // then leaves the tuned document.
  lemma {:induction false} RunIsTuned(base: Dict, ops: seq<Operator>)
    requires SchemaValid(base)
    ensures Run(base, ops).Some? <==> forall op | op in ops :: Patch(base, op).Some?
    ensures Run(base, ops).Some? ==> IsTuned(base, multiset(ops), Run(base, ops).value)
  {
    if ops != [] {
      var before, last := ops[..|ops| - 1], ops[|ops| - 1];
      assert ops == before + [last];
      assert multiset(ops) == multiset(before) + multiset{last};
      RunIsTuned(base, before);
      if Run(base, before).Some? { StepIsTuned(base, multiset(before), Run(base, before).value, last); }
    }
  }

  // Confluence: the order of the operators does not matter.
  lemma OrderDoesNotMatter(base: Dict, ops: seq<Operator>, other: seq<Operator>)
    requires SchemaValid(base) && multiset(ops) == multiset(other)
    ensures Run(base, ops) == Run(base, other)
  {
    RunIsTuned(base, ops);
    RunIsTuned(base, other);
    assert forall op :: op in ops <==> op in multiset(ops);
    assert forall op :: op in other <==> op in multiset(other);
    if Run(base, ops).Some? {
      TunedIsUnique(base, multiset(ops), Run(base, ops).value, Run(base, other).value);
    }
  }

  // After `n >= 1` retrieval tunings the width is `min(12, k0 + 2n)`, wherever they stand in the run.
  lemma ContextAfterTuning(base: Dict, ops: seq<Operator>)
    requires SchemaValid(base) && Run(base, ops).Some? && RetrievalTuning in ops
    ensures ContextK(base).Some?
    ensures ContextK(Run(base, ops).value) == Some(Min(12, ContextK(base).value + 2 * multiset(ops)[RetrievalTuning]))
  {
    hide SchemaValid, IsTuned;
    RunIsTuned(base, ops);
    var n := multiset(ops)[RetrievalTuning];
    assert RetrievalTuning in multiset(ops) && Patch(base, RetrievalTuning).Some?;
    TunedTarget(base, multiset(ops), Run(base, ops).value, RetrievalTuning);
    WidthOfTuned(base, Run(base, ops).value, n);
  }

  lemma ContextWithoutTuning(base: Dict, ops: seq<Operator>)
    requires SchemaValid(base) && Run(base, ops).Some? && RetrievalTuning !in ops
    ensures ContextK(Run(base, ops).value) == ContextK(base)
  {
    hide SchemaValid, Patch;
    RunIsTuned(base, ops);
    assert RetrievalTuning !in multiset(ops);
    assert TunedAt(base, RetrievalTuning, 0, Run(base, ops).value);
  }

  lemma WidthOfTuned(base: Dict, d: Dict, n: nat)
    requires SchemaValid(base) && SchemaValid(d) && Patch(base, RetrievalTuning).Some? && n > 0
    requires OptionalObj(d, "retrieval_policy")
    requires Component(d, "retrieval_policy") == TunedComponent(base, RetrievalTuning, n)
    ensures ContextK(d) == Some(Min(12, ContextK(base).value + 2 * n))
  {
  }

  // ---- Saturation ------------------------------------------------------------------------------------------

  // How many steps of a run change the document.
  function Changes(base: Dict, ops: seq<Operator>): nat
    requires SchemaValid(base)
  {
    if ops == [] then 0
    else
      var before := ops[..|ops| - 1];
      Changes(base, before) + if Run(base, ops) == Run(base, before) then 0 else 1
  }

  // How often an operator can change a document: never if its first patch is there already, and
  // otherwise once, or until the width, that grows by 2, is 12.
  function Room(base: Dict, op: Operator): nat
    requires SchemaValid(base)
  {
    assert OptionalObj(base, Target(op));
    if Patch(base, op).None? || TunedComponent(base, op, 1) == Component(base, Target(op)) then 0
    else if op.RetrievalTuning? then Max(1, (13 - ContextK(base).value) / 2)
    else 1
  }

  // A step changes nothing once its operator has used up its room, and changes the document before.
  lemma StepChanges(base: Dict, counts: multiset<Operator>, d: Dict, op: Operator)
    requires SchemaValid(base) && IsTuned(base, counts, d) && Patch(base, op).Some?
    ensures Step(d, op) == Some(d) <==> counts[op] >= Room(base, op)
  {
    hide SchemaValid, Patch, TunedComponent, Room;
    var n := counts[op];
    assert TunedAt(base, op, n, d);
    StepIsTuned(base, counts, d, op);
    TunedTarget(base, counts, d, op);
    RoomUsedUp(base, op, n);
    hide IsTuned, Step, TunedAt;
    SameDocument(d, Target(op), TunedComponent(base, op, n + 1));
    if n == 0 && Target(op) !in d { PatchIsNotEmpty(base, op); }
  }

  lemma SameDocument(d: Dict, key: string, component: Dict)
    requires OptionalObj(d, key)
    ensures d[key := Obj(component)] == d <==> key in d && Component(d, key) == component
  {
    assert key in d && Component(d, key) == component ==> d[key := Obj(component)] == d;
    assert d[key := Obj(component)][key] == Obj(component);
  }

  // The component stays the same exactly when the room is used up.
  lemma RoomUsedUp(base: Dict, op: Operator, n: nat)
    requires SchemaValid(base) && Patch(base, op).Some?
    ensures TunedComponent(base, op, n + 1) == TunedComponent(base, op, n) <==> n >= Room(base, op)
  {
    assert OptionalObj(base, Target(op));
    if n > 0 {
      if op.RetrievalTuning? { WidthSettles(base, n); } else { SettlesAtOnce(base, op, n); }
    }
  }

  lemma SettlesAtOnce(base: Dict, op: Operator, n: nat)
    requires SchemaValid(base) && Patch(base, op).Some? && n > 0 && !op.RetrievalTuning?
    ensures TunedComponent(base, op, n + 1) == TunedComponent(base, op, n) && Room(base, op) <= 1
  {
  }

  // After the first tuning the width alone can change.
  lemma WidthSettles(base: Dict, n: nat)
    requires SchemaValid(base) && Patch(base, RetrievalTuning).Some? && n > 0
    ensures TunedComponent(base, RetrievalTuning, n + 1) == TunedComponent(base, RetrievalTuning, n)
      <==> n >= Room(base, RetrievalTuning)
  {
    var wider, before := TunedComponent(base, RetrievalTuning, n + 1), TunedComponent(base, RetrievalTuning, n);
    assert Get(wider, "context_k") == Int(Min(12, ContextK(base).value + 2 * n + 2));
    assert Get(before, "context_k") == Int(Min(12, ContextK(base).value + 2 * n));
    assert ContextK(base).value + 2 * n >= 12 ==> wider == before;
    if TunedComponent(base, RetrievalTuning, 1) == Component(base, "retrieval_policy") { TunedAlready(base); }
  }

  lemma TunedAlready(base: Dict)
    requires SchemaValid(base) && Patch(base, RetrievalTuning).Some? && OptionalObj(base, "retrieval_policy")
    requires TunedComponent(base, RetrievalTuning, 1) == Component(base, "retrieval_policy")
    ensures ContextK(base).value >= 12
  {
    assert Get(TunedComponent(base, RetrievalTuning, 1), "context_k") == Int(Min(12, ContextK(base).value + 2));
  }

  lemma PatchIsNotEmpty(base: Dict, op: Operator)
    requires SchemaValid(base) && Patch(base, op).Some?
    ensures TunedComponent(base, op, 1) != map[] && (Target(op) !in base ==> Room(base, op) > 0)
  {
    match op
    case RetrievalTuning => assert "context_k" in TunedComponent(base, op, 1);
    case PromptRefinement => assert "clarity" in TunedComponent(base, op, 1);
    case ActionRuleAdjustment => assert "one_pain_point_per_turn" in TunedComponent(base, op, 1);
    case TerminationTuning => assert "stop_on_goal" in TunedComponent(base, op, 1);
  }

  function Used(base: Dict, counts: multiset<Operator>, op: Operator): nat
    requires SchemaValid(base)
  {
    Min(counts[op], Room(base, op))
  }

  function TotalUsed(base: Dict, counts: multiset<Operator>): nat
    requires SchemaValid(base)
  {
    Used(base, counts, RetrievalTuning) + Used(base, counts, PromptRefinement)
    + Used(base, counts, ActionRuleAdjustment) + Used(base, counts, TerminationTuning)
  }

  lemma UsedOnceMore(base: Dict, counts: multiset<Operator>, op: Operator)
    requires SchemaValid(base)
    ensures TotalUsed(base, counts + multiset{op}) ==
      TotalUsed(base, counts) + if counts[op] >= Room(base, op) then 0 else 1
  {
    hide SchemaValid, Room, Used;
    UsedByOne(base, counts, op, RetrievalTuning);
    UsedByOne(base, counts, op, PromptRefinement);
    UsedByOne(base, counts, op, ActionRuleAdjustment);
    UsedByOne(base, counts, op, TerminationTuning);
  }

  lemma UsedByOne(base: Dict, counts: multiset<Operator>, op: Operator, one: Operator)
    requires SchemaValid(base)
    ensures Used(base, counts + multiset{op}, one) ==
      Used(base, counts, one) + if one == op && counts[op] < Room(base, op) then 1 else 0
  {
    hide SchemaValid, Room;
  }

  // Main result: a run changes a document exactly as often as its operators have room, whatever
  // their order.
  lemma {:induction false} ChangesExactly(base: Dict, ops: seq<Operator>)
    requires SchemaValid(base) && Run(base, ops).Some?
    ensures Changes(base, ops) == TotalUsed(base, multiset(ops))
  {
    hide SchemaValid, Room, IsTuned, Step, TotalUsed;
    if ops == [] {
      NothingUsed(base);
    } else {
      var before, last := ops[..|ops| - 1], ops[|ops| - 1];
      assert multiset(ops) == multiset(before) + multiset{last} by { assert ops == before + [last]; }
      ChangesExactly(base, before);
      RunIsTuned(base, before);
      RunIsTuned(base, ops);
      StepChanges(base, multiset(before), Run(base, before).value, last);
      UsedOnceMore(base, multiset(before), last);
    }
  }

  lemma NothingUsed(base: Dict)
    requires SchemaValid(base)
    ensures TotalUsed(base, multiset{}) == 0
  {
    hide SchemaValid, Room;
  }

  function AllRoom(base: Dict): nat
    requires SchemaValid(base)
  {
    Room(base, RetrievalTuning) + Room(base, PromptRefinement)
    + Room(base, ActionRuleAdjustment) + Room(base, TerminationTuning)
  }

  // Main result: however long the run, at most `max(1, ceil((12 - k0) / 2)) + 3` steps change the document.
  lemma ImprovementSaturates(base: Dict, ops: seq<Operator>)
    requires SchemaValid(base) && Run(base, ops).Some?
    ensures Changes(base, ops) <= AllRoom(base)
    ensures AllRoom(base) <= Max(1, (13 - ContextK(base).Or(12)) / 2) + 3
  {
    ChangesExactly(base, ops);
    RoomIsSmall(base);
    hide *;
    AllUsedAtMost(base, multiset(ops));
  }

  lemma AllUsedAtMost(base: Dict, counts: multiset<Operator>)
    requires SchemaValid(base)
    requires Room(base, PromptRefinement) <= 1 && Room(base, ActionRuleAdjustment) <= 1
    requires Room(base, TerminationTuning) <= 1
    ensures TotalUsed(base, counts) <= AllRoom(base) <= Room(base, RetrievalTuning) + 3
  {
    hide SchemaValid, Room;
  }

  function Times(op: Operator, n: nat): (ops: seq<Operator>)
    ensures |ops| == n && forall o | o in ops :: o == op
  {
    if n == 0 then [] else Times(op, n - 1) + [op]
  }

  lemma {:induction false} CountTimes(op: Operator, n: nat)
    ensures multiset(Times(op, n)) == multiset{}[op := n]
  {
    if n > 0 { CountTimes(op, n - 1); }
  }

  // As many retrieval tunings as there is room for, and each other operator once.
  function LongestRun(base: Dict): seq<Operator>
    requires SchemaValid(base)
  {
    Times(RetrievalTuning, Room(base, RetrievalTuning)) + [PromptRefinement, ActionRuleAdjustment, TerminationTuning]
  }

  // Main result: a document with usable limits has a run that uses all of the room there is.
  lemma SaturationIsReached(base: Dict)
    requires SchemaValid(base) && ContextK(base).Some? && MaxTurns(base).Some?
    ensures Run(base, LongestRun(base)).Some?
    ensures Changes(base, LongestRun(base)) == AllRoom(base)
  {
    assert forall op :: Patch(base, op).Some?;
    LongestUsesAll(base);
    hide SchemaValid, Patch, Room, LongestRun, TotalUsed, AllRoom, IsTuned;
    RunIsTuned(base, LongestRun(base));
    ChangesExactly(base, LongestRun(base));
  }

  lemma LongestUsesAll(base: Dict)
    requires SchemaValid(base)
    ensures TotalUsed(base, multiset(LongestRun(base))) == AllRoom(base)
  {
    var n := Room(base, RetrievalTuning);
    CountTimes(RetrievalTuning, n);
    RoomIsSmall(base);
    hide SchemaValid, Room, Times;
    var rest := [PromptRefinement, ActionRuleAdjustment, TerminationTuning];
    assert multiset(LongestRun(base)) == multiset(Times(RetrievalTuning, n)) + multiset(rest);
    assert multiset(rest) == multiset{PromptRefinement, ActionRuleAdjustment, TerminationTuning};
  }

  lemma RoomIsSmall(base: Dict)
    requires SchemaValid(base)
    ensures Room(base, PromptRefinement) <= 1 && Room(base, ActionRuleAdjustment) <= 1
    ensures Room(base, TerminationTuning) <= 1
    ensures Room(base, RetrievalTuning) <= Max(1, (13 - ContextK(base).Or(12)) / 2)
    ensures Room(base, RetrievalTuning) > 0 ==> Room(base, RetrievalTuning) == Max(1, (13 - ContextK(base).Or(12)) / 2)
  {
    hide SchemaValid, TunedComponent;
  }

  // The bound is attained exactly when no operator finds its first patch there already.
  lemma BoundIsAttained(base: Dict)
    requires SchemaValid(base) && ContextK(base).Some?
    ensures AllRoom(base) == Max(1, (13 - ContextK(base).value) / 2) + 3 <==> forall op :: Room(base, op) > 0
  {
    RoomIsSmall(base);
    hide Room, SchemaValid, ContextK;
    if forall op :: Room(base, op) > 0 {
      assert Room(base, RetrievalTuning) > 0 && Room(base, PromptRefinement) > 0;
      assert Room(base, ActionRuleAdjustment) > 0 && Room(base, TerminationTuning) > 0;
    } else {
      var op :| Room(base, op) == 0;
      hide AllRoom;
      OneWithoutRoom(base, op);
    }
  }

  lemma OneWithoutRoom(base: Dict, op: Operator)
    requires SchemaValid(base) && Room(base, op) == 0
    ensures AllRoom(base) < Max(1, (13 - ContextK(base).Or(12)) / 2) + 3
  {
    RoomIsSmall(base);
    hide Room, SchemaValid, ContextK;
  }

  // A missing component leaves its operator room.
  lemma MissingHasRoom(base: Dict, op: Operator)
    requires SchemaValid(base) && Target(op) !in base
    ensures Room(base, op) > 0
  {
    assert Patch(base, op).Some? by {
      assert op.RetrievalTuning? ==> ContextK(base) == Some(6);
      assert op.TerminationTuning? ==> MaxTurns(base) == Some(30);
    }
    PatchIsNotEmpty(base, op);
  }

  // ---- What improvement keeps ---------------------------------------------------------------------------------

  // Main result: however a document was improved, it selects the same action with the same
  // confidence in every state, and keeps its prompt and its knowledge.
  lemma DescendantsActAlike(base: Dict, ops: seq<Operator>, state: Dict)
    requires SchemaValid(base) && Run(base, ops).Some?
    ensures var d := Run(base, ops).value;
      && Accepted(base, d, {})
      && OptionalObj(d, "action_policy") && OptionalObj(base, "action_policy")
      && ChoiceOf(Component(d, "action_policy"), state) == ChoiceOf(Component(base, "action_policy"), state)
      && KeepsKeys(base, d, "response_policy", {"system"})
      && KeepsKeys(base, d, "retrieval_policy", {"enabled", "snapshot_id"})
  {
    hide SchemaValid, IsTuned, Patch, ChoiceOf;
    var d := Run(base, ops).value;
    RunIsTuned(base, ops);
    RunIsAccepted(base, ops);
    PatchesAvoid(base);
    KeysKept(base, multiset(ops), d, ActionRuleAdjustment, {"rules", "default_action"});
    KeysKept(base, multiset(ops), d, PromptRefinement, {"system"});
    KeysKept(base, multiset(ops), d, RetrievalTuning, {"enabled", "snapshot_id"});
    SameChoice(Component(base, "action_policy"), Component(d, "action_policy"), state);
  }

  // The entries that no operator writes.
  lemma PatchesAvoid(base: Dict)
    requires SchemaValid(base)
    ensures Patch(base, ActionRuleAdjustment).value.Keys !! {"rules", "default_action"}
    ensures Patch(base, PromptRefinement).value.Keys !! {"system"}
    ensures Patch(base, RetrievalTuning).Some? ==> Patch(base, RetrievalTuning).value.Keys !! {"enabled", "snapshot_id"}
  {
  }

  // A component holds the same entries, or none, at the given keys.
  ghost predicate KeepsKeys(base: Dict, d: Dict, component: string, keys: set<string>) {
    && OptionalObj(base, component) && OptionalObj(d, component)
    && forall key, fallback | key in keys ::
         GetOr(Component(d, component), key, fallback) == GetOr(Component(base, component), key, fallback)
  }

  lemma EntriesKept(base: Dict, op: Operator, n: nat, keys: set<string>)
    requires SchemaValid(base) && Patch(base, op).Some? && n > 0 && Patch(base, op).value.Keys !! keys
    requires OptionalObj(base, Target(op))
    ensures forall key, fallback | key in keys ::
      GetOr(TunedComponent(base, op, n), key, fallback) == GetOr(Component(base, Target(op)), key, fallback)
  {
  }

  lemma KeysKept(base: Dict, counts: multiset<Operator>, d: Dict, op: Operator, keys: set<string>)
    requires SchemaValid(base) && IsTuned(base, counts, d)
    requires Patch(base, op).Some? ==> Patch(base, op).value.Keys !! keys
    ensures KeepsKeys(base, d, Target(op), keys)
  {
    assert OptionalObj(base, Target(op)) && OptionalObj(d, Target(op));
    assert TunedAt(base, op, counts[op], d);
    if counts[op] > 0 {
      TunedTarget(base, counts, d, op);
      EntriesKept(base, op, counts[op], keys);
    }
  }

  lemma SameChoice(a: Dict, b: Dict, state: Dict)
    requires forall fallback :: GetOr(a, "rules", fallback) == GetOr(b, "rules", fallback)
    requires forall fallback :: GetOr(a, "default_action", fallback) == GetOr(b, "default_action", fallback)
    ensures ChoiceOf(a, state) == ChoiceOf(b, state)
  {
  }

  lemma {:induction false} RunIsAccepted(base: Dict, ops: seq<Operator>)
    requires SchemaValid(base) && Run(base, ops).Some?
    ensures Accepted(base, Run(base, ops).value, {})
  {
    if ops != [] {
      RunIsAccepted(base, ops[..|ops| - 1]);
      var d := Run(base, ops[..|ops| - 1]).value;
      StepIsAccepted(d, ops[|ops| - 1]);
      ChainIsAccepted([base, d, Run(base, ops).value], {});
    }
  }

  // ---- Lineages of stored candidates ------------------------------------------------------------------------------

  // Each document after the first is a candidate proposed from the one before, on some evidence.
  ghost predicate IsLineage(c: Crypto, docs: seq<Dict>) {
    docs != [] && forall i | 0 <= i < |docs| - 1 :: IsChild(c, docs[i], docs[i + 1])
  }

  ghost predicate IsChild(c: Crypto, base: Dict, child: Dict) {
    SchemaValid(base) && exists candidate: Candidate ::
      candidate.document == child && IsCandidate(c, base, candidate.operator, candidate)
  }

  // Every lineage is a run, so the results above hold of every descendant.
  lemma {:induction false} LineageIsRun(c: Crypto, docs: seq<Dict>) returns (ops: seq<Operator>)
    requires IsLineage(c, docs) && SchemaValid(docs[0])
    ensures |ops| == |docs| - 1 && Run(docs[0], ops) == Some(docs[|docs| - 1])
  {
    if |docs| == 1 {
      ops := [];
    } else {
      var before := docs[..|docs| - 1];
      assert IsLineage(c, before) by {
        forall i | 0 <= i < |before| - 1 ensures IsChild(c, before[i], before[i + 1]) {
          assert IsChild(c, docs[i], docs[i + 1]);
        }
      }
      var ops' := LineageIsRun(c, before);
      assert IsChild(c, docs[|docs| - 2], docs[|docs| - 2 + 1]);
      var parent, child := docs[|docs| - 2], docs[|docs| - 1];
      var candidate: Candidate :| candidate.document == child && IsCandidate(c, parent, candidate.operator, candidate);
      ops := ops' + [candidate.operator];
      assert ops[..|ops| - 1] == ops';
    }
  }
}
