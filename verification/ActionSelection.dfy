// `choose_action`: the first rule whose condition holds in the conversation state.
module ActionSelection {
  import opened Json
  import opened PolicyDsl

  // The number a rule gives, or one of the two constants of the code, in tenths.
  datatype Confidence = Given(value: Json) | Tenths(n: nat)

  // The action and confidence before the final `str()` and `float()`.
  datatype Choice = Choice(action: Json, confidence: Confidence)

  predicate IsSubstring(needle: string, hay: string) {
    |needle| <= |hay| && (hay[..|needle|] == needle || IsSubstring(needle, hay[1..]))
  }

  // `x in container`; None where Python raises.
  function Contains(container: Json, x: Json): Option<bool> {
    match container
    case Arr(items) => Some(exists i | 0 <= i < |items| :: PyEq(items[i], x))
    case Obj(fields) => if x.Arr? || x.Obj? then None else Some(x.Str? && x.s in fields)
    case Str(s) => if x.Str? then Some(IsSubstring(x.s, s)) else None
    case _ => None
  }

  // A fact is looked for as a part of a text or a key of a mapping as well; in anything else the search
  // raises.
  lemma FactsElsewhere(container: Json, fact: string)
    ensures container.Str? ==>
      (Contains(container, Str(fact)) == Some(true) <==> exists a, b :: container.s == a + fact + b)
    ensures container.Str? ==> Contains(container, Str(fact)).Some?
    ensures container.Obj? ==> Contains(container, Str(fact)) == Some(fact in container.fields)
    ensures container.Null? || container.Bool? || container.Int? ==> Contains(container, Str(fact)) == None
  {
    if container.Str? { SubstringExactly(fact, container.s); }
  }

  lemma {:induction false} SubstringExactly(needle: string, hay: string)
    ensures IsSubstring(needle, hay) <==> exists a, b :: hay == a + needle + b
  {
    if |needle| <= |hay| {
      if hay[..|needle|] == needle {
        assert hay == "" + needle + hay[|needle|..];
      } else if hay != "" {
        SubstringExactly(needle, hay[1..]);
        if a, b :| hay[1..] == a + needle + b { assert hay == [hay[0]] + a + needle + b; }
        if a, b :| hay == a + needle + b {
          assert hay[..|a + needle|] == a + needle;
          assert a != "";
          assert hay[1..] == a[1..] + needle + b;
        }
      }
    }
  }

  // The elements a `for` loop over the rules meets; None where it raises at once or at its first
  // element, a string.
  function Rules(j: Json): Option<seq<Json>> {
    match j
    case Arr(items) => Some(items)
    case Obj(fields) => if fields == map[] then Some([]) else None
    case Str(s) => if s == "" then Some([]) else None
    case _ => None
  }

  // Rules that are no list: an empty text or mapping has none, and anything else raises.
  lemma RulesElsewhere(j: Json)
    ensures j == Str("") || j == Obj(map[]) ==> Rules(j) == Some([])
    ensures !j.Arr? && j != Str("") && j != Obj(map[]) ==> Rules(j) == None
  {
  }

  function Phase(state: Dict): Option<Json> {
    match GetOr(state, "dialogue", Obj(map[]))
    case Obj(dialogue) => Some(GetOr(dialogue, "phase", Str("opening")))
    case _ => None
  }

  function UnresolvedFacts(state: Dict): Option<Json> {
    match GetOr(state, "slots", Obj(map[]))
    case Obj(slots) => Some(GetOr(slots, "unresolved_facts", Arr([])))
    case _ => None
  }

  // Whether a rule applies; None where evaluating it raises.
  function Applies(rule: Json, phase: Json, state: Dict): Option<bool> {
    if !rule.Obj? || !GetOr(rule.fields, "when", Obj(map[])).Obj? then None
    else
      var when := GetOr(rule.fields, "when", Obj(map[])).fields;
      var unmet := Get(when, "unresolved_fact");
      if !(Get(when, "phase").Null? || PyEq(Get(when, "phase"), phase)) then Some(false)
      else if !Truthy(unmet) then Some(true)
      else if UnresolvedFacts(state).None? then None
      else Contains(UnresolvedFacts(state).value, unmet)
  }

  // A rule or condition that is no mapping raises when it is met; so does a fact that is asked for where
  // the slots are none.
  lemma RaisesOnMeeting(rule: Json, phase: Json, state: Dict)
    ensures !rule.Obj? ==> Applies(rule, phase, state) == None
    ensures rule.Obj? && "when" in rule.fields && !rule.fields["when"].Obj? ==> Applies(rule, phase, state) == None
    ensures "slots" in state && !state["slots"].Obj? && Applies(rule, phase, state) == Some(true) ==>
      var when := GetOr(rule.fields, "when", Obj(map[]));
      when.Obj? && !Truthy(Get(when.fields, "unresolved_fact"))
  {
  }

  function RuleChoice(rule: Json): Choice
    requires rule.Obj?
  {
    Choice(GetOr(rule.fields, "action", Str("clarify")),
           if "confidence" in rule.fields then Given(rule.fields["confidence"]) else Tenths(8))
  }

  function FallbackChoice(actionPolicy: Dict): Choice {
    Choice(GetOr(actionPolicy, "default_action", Str("clarify")), Tenths(6))
  }

  function ChooseFrom(rules: seq<Json>, phase: Json, state: Dict, fallback: Choice): Option<Choice> {
    if rules == [] then Some(fallback)
    else
      match Applies(rules[0], phase, state)
      case None => None
      case Some(true) => Some(RuleChoice(rules[0]))
      case Some(false) => ChooseFrom(rules[1..], phase, state, fallback)
  }

  // The choice, as a function of the action policy and the state; None where the code raises.
  function ChoiceOf(actionPolicy: Dict, state: Dict): Option<Choice> {
    match (Phase(state), Rules(GetOr(actionPolicy, "rules", Arr([]))))
    case (Some(phase), Some(rules)) => ChooseFrom(rules, phase, state, FallbackChoice(actionPolicy))
    case _ => None
  }

  method ChooseAction(document: Dict, state: Dict) returns (choice: Option<Choice>)
    requires SchemaValid(document)
    ensures choice == ChoiceOf(Component(document, "action_policy"), state)
  {
    assert OptionalObj(document, "action_policy");
    var actionPolicy := Component(document, "action_policy");
    var phase := Phase(state);
    var rules := Rules(GetOr(actionPolicy, "rules", Arr([])));
    if phase.None? || rules.None? { return None; }
    for i := 0 to |rules.value|
      invariant ChooseFrom(rules.value, phase.value, state, FallbackChoice(actionPolicy)) ==
        ChooseFrom(rules.value[i..], phase.value, state, FallbackChoice(actionPolicy))
    {
      var applies := Applies(rules.value[i], phase.value, state);
      if applies.None? { return None; }
      if applies.value { return Some(RuleChoice(rules.value[i])); }
    }
    choice := Some(FallbackChoice(actionPolicy));
  }

  // Rule `i` is the first that does not plainly fail.
  ghost predicate FirstOpen(rules: seq<Json>, phase: Json, state: Dict, i: int) {
    && 0 <= i < |rules| && Applies(rules[i], phase, state) != Some(false)
    && forall j | 0 <= j < i :: Applies(rules[j], phase, state) == Some(false)
  }

  // First match: the earliest rule that applies is chosen, whatever stands after it; an evaluation
  // that raises before that is a failure; the default is used exactly when every rule fails.
  lemma {:induction false} FirstMatch(rules: seq<Json>, phase: Json, state: Dict, fallback: Choice)
    ensures forall i: int | FirstOpen(rules, phase, state, i) ::
      ChooseFrom(rules, phase, state, fallback) ==
        if Applies(rules[i], phase, state).None? then None else Some(RuleChoice(rules[i]))
    ensures (forall i | 0 <= i < |rules| :: Applies(rules[i], phase, state) == Some(false)) ==>
      ChooseFrom(rules, phase, state, fallback) == Some(fallback)
  {
    if rules != [] {
      var rest := rules[1..];
      FirstMatch(rest, phase, state, fallback);
      forall i: int | FirstOpen(rules, phase, state, i)
        ensures ChooseFrom(rules, phase, state, fallback) ==
          if Applies(rules[i], phase, state).None? then None else Some(RuleChoice(rules[i]))
      {
        if i > 0 {
          assert Applies(rules[0], phase, state) == Some(false);
          assert FirstOpen(rest, phase, state, i - 1) by {
            forall j | 0 <= j < i - 1
              ensures Applies(rest[j], phase, state) == Some(false)
            {
              assert rest[j] == rules[j + 1];
            }
          }
        }
      }
      if forall i | 0 <= i < |rules| :: Applies(rules[i], phase, state) == Some(false) {
        assert Applies(rules[0], phase, state) == Some(false);
        forall i | 0 <= i < |rest|
          ensures Applies(rest[i], phase, state) == Some(false)
        {
          assert rest[i] == rules[i + 1];
        }
      }
    }
  }

  // ---- Choosing, in terms of the documents -----------------------------------------------------------------------

  // No value, or a text, under a key.
  predicate TextOrNone(d: Dict, key: string) {
    key in d ==> d[key].Null? || d[key].Str?
  }

  // A rule whose conditions, if it has any, are texts.
  predicate PlainRule(rule: Json) {
    && rule.Obj? && ("when" in rule.fields ==> rule.fields["when"].Obj?)
    && TextOrNone(When(rule), "phase") && TextOrNone(When(rule), "unresolved_fact")
  }

  function When(rule: Json): Dict
    requires rule.Obj? && ("when" in rule.fields ==> rule.fields["when"].Obj?)
  {
    if "when" in rule.fields then rule.fields["when"].fields else map[]
  }

  // The rule asks for no phase or for this one, and for no fact or for one of these.
  predicate Fits(rule: Json, phase: string, facts: seq<string>)
    requires PlainRule(rule)
  {
    var when := When(rule);
    && ("phase" in when && when["phase"].Str? ==> when["phase"].s == phase)
    && ("unresolved_fact" in when && when["unresolved_fact"].Str? ==>
          when["unresolved_fact"].s == "" || when["unresolved_fact"].s in facts)
  }

  // A conversation in a phase, by default the opening, with a list of unresolved facts, by default none.
  ghost predicate InPhase(state: Dict, phase: string, facts: seq<string>) {
    && ("dialogue" in state ==> state["dialogue"].Obj?)
    && (if "dialogue" in state && "phase" in state["dialogue"].fields
        then state["dialogue"].fields["phase"] == Str(phase) else phase == "opening")
    && ("slots" in state ==> state["slots"].Obj?)
    && (if "slots" in state && "unresolved_facts" in state["slots"].fields
        then state["slots"].fields["unresolved_facts"].Arr?
          && ListsFacts(state["slots"].fields["unresolved_facts"].items, facts)
        else facts == [])
  }

  ghost predicate ListsFacts(items: seq<Json>, facts: seq<string>) {
    |items| == |facts| && forall i | 0 <= i < |items| :: items[i] == Str(facts[i])
  }

  lemma PlainRuleApplies(rule: Json, state: Dict, phase: string, facts: seq<string>)
    requires PlainRule(rule) && InPhase(state, phase, facts)
    ensures Applies(rule, Str(phase), state) == Some(Fits(rule, phase, facts))
  {
    var when := When(rule);
    if "unresolved_fact" in when && when["unresolved_fact"].Str? {
      FactIsListed(UnresolvedFacts(state).value, facts, when["unresolved_fact"].s);
    }
  }

  lemma FactIsListed(listed: Json, facts: seq<string>, fact: string)
    requires listed.Arr? && ListsFacts(listed.items, facts)
    ensures Contains(listed, Str(fact)) == Some(fact in facts)
  {
    var items := listed.items;
    if fact in facts {
      var i :| 0 <= i < |facts| && facts[i] == fact;
      assert PyEq(items[i], Str(fact));
    }
    forall i | 0 <= i < |items| && PyEq(items[i], Str(fact)) ensures fact in facts {
      assert items[i] == Str(facts[i]);
    }
  }

  ghost predicate PlainRules(actionPolicy: Dict, rules: seq<Json>) {
    && (if "rules" in actionPolicy then actionPolicy["rules"] == Arr(rules) else rules == [])
    && forall i | 0 <= i < |rules| :: PlainRule(rules[i])
  }

  ghost predicate FirstFit(rules: seq<Json>, phase: string, facts: seq<string>, i: int) {
    && 0 <= i < |rules| && (forall j | 0 <= j <= i :: PlainRule(rules[j])) && Fits(rules[i], phase, facts)
    && forall j | 0 <= j < i :: !Fits(rules[j], phase, facts)
  }

  // Main result: the choice is the action and the confidence of the first rule that fits the phase and
  // the facts, with `clarify` and 0.8 where the rule gives none.
  lemma ChoosesFirstFit(actionPolicy: Dict, rules: seq<Json>, state: Dict, phase: string, facts: seq<string>, i: int)
    requires PlainRules(actionPolicy, rules) && InPhase(state, phase, facts) && FirstFit(rules, phase, facts, i)
    ensures ChoiceOf(actionPolicy, state) == Some(Choice(
      if "action" in rules[i].fields then rules[i].fields["action"] else Str("clarify"),
      if "confidence" in rules[i].fields then Given(rules[i].fields["confidence"]) else Tenths(8)))
  {
    forall j | 0 <= j <= i ensures Applies(rules[j], Str(phase), state) == Some(Fits(rules[j], phase, facts)) {
      PlainRuleApplies(rules[j], state, phase, facts);
    }
    FirstMatch(rules, Str(phase), state, FallbackChoice(actionPolicy));
    hide Applies, Fits, PlainRule;
    assert FirstOpen(rules, Str(phase), state, i);
  }

  // Main result: where no rule fits, it is the default action, `clarify` if there is none, at 0.6.
  lemma ChoosesDefault(actionPolicy: Dict, rules: seq<Json>, state: Dict, phase: string, facts: seq<string>)
    requires PlainRules(actionPolicy, rules) && InPhase(state, phase, facts)
    requires forall i | 0 <= i < |rules| :: PlainRule(rules[i]) && !Fits(rules[i], phase, facts)
    ensures ChoiceOf(actionPolicy, state) == Some(Choice(
      if "default_action" in actionPolicy then actionPolicy["default_action"] else Str("clarify"), Tenths(6)))
  {
    forall j | 0 <= j < |rules| ensures Applies(rules[j], Str(phase), state) == Some(false) {
      PlainRuleApplies(rules[j], state, phase, facts);
    }
    FirstMatch(rules, Str(phase), state, FallbackChoice(actionPolicy));
    hide Applies, Fits, PlainRule;
  }
}
