// `evaluate_deterministic`: exact scores of a conversation from its replies.
module Evaluation {
  import opened Json
  import opened Text
  import opened Scoring
  import opened Arithmetic

  // What the evaluator reads of an event; `cited` is the truth of its citation list.
  datatype Event = Event(eventType: string, content: Option<string>, cited: bool)

  datatype Result = Result(scores: Scores, grounding: real, groundingViolated: bool, passed: bool)

  function Replies(events: seq<Event>): seq<Event> {
    if events == [] then []
    else (if events[0].eventType == "message.sent" then [events[0]] else []) + Replies(events[1..])
  }

  // The replies are the sent messages, in order.
  lemma {:induction false} RepliesAreSent(events: seq<Event>, more: seq<Event>)
    ensures Replies(events + more) == Replies(events) + Replies(more)
  {
    if events == [] {
      assert events + more == more;
    } else {
      assert (events + more)[0] == events[0] && (events + more)[1..] == events[1..] + more;
      RepliesAreSent(events[1..], more);
    }
  }

  lemma RepliesOfOne(e: Event)
    ensures Replies([e]) == if e.eventType == "message.sent" then [e] else []
    ensures Replies([]) == []
  {
    assert [e][1..] == [];
  }

  // `(content or "").strip().lower()`
  function TextOf(lower: string -> string, e: Event): string {
    lower(Strip(if e.content.Some? then e.content.value else ""))
  }

  function Texts(lower: string -> string, replies: seq<Event>): (texts: seq<string>)
    ensures |texts| == |replies|
  {
    seq(|replies|, i requires 0 <= i < |replies| => TextOf(lower, replies[i]))
  }

  function NonEmpty(texts: seq<string>): seq<string> {
    if texts == [] then []
    else NonEmpty(texts[..|texts| - 1]) + if texts[|texts| - 1] == "" then [] else [texts[|texts| - 1]]
  }

  function Elements(texts: seq<string>): set<string> {
    set t | t in texts
  }

  // Non-empty replies less distinct non-empty replies.
  function Repeated(texts: seq<string>): int {
    |NonEmpty(texts)| - |Elements(NonEmpty(texts))|
  }

  // A reply of more than eight words without a citation.
  predicate Ungrounded(lower: string -> string, e: Event) {
    !e.cited && WordCount(TextOf(lower, e)) > 8
  }

  function UngroundedCount(lower: string -> string, replies: seq<Event>): nat {
    if replies == [] then 0
    else UngroundedCount(lower, replies[..|replies| - 1]) + if Ungrounded(lower, replies[|replies| - 1]) then 1 else 0
  }

  function Quality(repeated: int, n: nat): real {
    1.0 - repeated as real / Max(1, n) as real
  }

  function Grounding(ungrounded: nat, n: nat): real {
    (n as real - 0.25 * ungrounded as real) / Max(1, n) as real
  }

  function ScoresOf(quality: real, grounding: real): Scores {
    map["task_outcome" := quality, "conversation_quality" := quality,
        "grounding" := grounding, "state_progress" := quality,
        "tool_correctness" := 1.0, "user_experience" := quality, "cost_efficiency" := 1.0, "latency_efficiency" := 1.0]
  }

  method EvaluateDeterministic(lower: string -> string, events: seq<Event>, requiredGrounding: real) returns (r: Result)
    ensures var replies := Replies(events);
      var texts := Texts(lower, replies);
      && r.grounding == Grounding(UngroundedCount(lower, replies), |replies|)
      && r.scores == ScoresOf(Quality(Repeated(texts), |texts|), r.grounding)
      && r.groundingViolated == (r.grounding < requiredGrounding)
      && r.passed == !r.groundingViolated
  {
    var assistant := Replies(events);
    ghost var texts := Texts(lower, assistant);
    var repeated, groundingSum := Tally(lower, assistant);
    hide TextOf, Ungrounded, Repeated, UngroundedCount, Quality, Grounding;
    RepeatedIsSmall(texts);
    QualityIsPositive(repeated, |assistant|);
    var grounding := SafeMean(groundingSum, |assistant|);
    GroundingIsMean(UngroundedCount(lower, assistant), |assistant|);
    var quality := if 0.0 < Quality(repeated, |assistant|) then Quality(repeated, |assistant|) else 0.0;
    var violated := grounding < requiredGrounding;
    r := Result(ScoresOf(quality, grounding), grounding, violated, !violated);
  }

  // The loop over the replies.
  method Tally(lower: string -> string, assistant: seq<Event>) returns (repeated: int, groundingSum: real)
    ensures repeated == Repeated(Texts(lower, assistant))
    ensures groundingSum == |assistant| as real - 0.25 * UngroundedCount(lower, assistant) as real
  {
    ghost var texts := Texts(lower, assistant);
    repeated, groundingSum := 0, 0.0;
    var seen: set<string> := {};
    hide TextOf, Ungrounded, Repeated, UngroundedCount;
    StartOfLoop(lower);
    for i := 0 to |assistant|
      invariant seen == Elements(texts[..i])
      invariant repeated == Repeated(texts[..i])
      invariant groundingSum == i as real - 0.25 * UngroundedCount(lower, assistant[..i]) as real
    {
      var text := TextOf(lower, assistant[i]);
      RepeatedStep(texts, i);
      if text in seen && text != "" { repeated := repeated + 1; }
      seen := seen + {text};
      var factual := text != "" && WordCount(text) > 8;
      GroundingStep(lower, assistant, i);
      groundingSum := groundingSum + if assistant[i].cited || !factual then 1.0 else 0.75;
    }
    assert texts[..|assistant|] == texts && assistant[..|assistant|] == assistant;
  }

  // `total / max(1, n)`
  function SafeMean(total: real, n: nat): real {
    total / Max(1, n) as real
  }

  lemma GroundingIsMean(ungrounded: nat, n: nat)
    ensures Grounding(ungrounded, n) == SafeMean(n as real - 0.25 * ungrounded as real, n)
  {
  }

  lemma StartOfLoop(lower: string -> string)
    ensures Repeated([]) == 0 && UngroundedCount(lower, []) == 0
  {
  }

  lemma GroundingStep(lower: string -> string, replies: seq<Event>, i: nat)
    requires i < |replies|
    ensures UngroundedCount(lower, replies[..i + 1]) ==
      UngroundedCount(lower, replies[..i]) +
        var text := TextOf(lower, replies[i]);
        if !replies[i].cited && text != "" && WordCount(text) > 8 then 1 else 0
  {
    assert replies[..i + 1][..i] == replies[..i];
    var text := TextOf(lower, replies[i]);
    if text == "" { assert (set j | 0 <= j < |text| && WordEnd(text, j)) == {}; }
  }

  lemma ElementsAppend(texts: seq<string>, last: string)
    ensures Elements(texts + [last]) == Elements(texts) + {last}
  {
  }

  lemma RepeatedStep(texts: seq<string>, i: nat)
    requires i < |texts|
    ensures Elements(texts[..i + 1]) == Elements(texts[..i]) + {texts[i]}
    ensures Repeated(texts[..i + 1]) ==
      Repeated(texts[..i]) + if texts[i] in Elements(texts[..i]) && texts[i] != "" then 1 else 0
  {
    assert texts[..i + 1] == texts[..i] + [texts[i]];
    ElementsAppend(texts[..i], texts[i]);
    NonEmptyAppend(texts[..i], texts[i]);
    NonEmptyElements(texts[..i]);
    hide NonEmpty;
    if texts[i] != "" {
      var before := NonEmpty(texts[..i]);
      ElementsAppend(before, texts[i]);
      hide Elements;
      if texts[i] in Elements(before) {
        assert Elements(before) + {texts[i]} == Elements(before);
      } else {
        assert |Elements(before) + {texts[i]}| == |Elements(before)| + 1;
      }
    }
  }

  lemma NonEmptyAppend(texts: seq<string>, last: string)
    ensures NonEmpty(texts + [last]) == if last == "" then NonEmpty(texts) else NonEmpty(texts) + [last]
  {
  }

  lemma {:induction false} NonEmptyElements(texts: seq<string>)
    ensures Elements(NonEmpty(texts)) == Elements(texts) - {""}
  {
    if texts != [] {
      var init, last := texts[..|texts| - 1], texts[|texts| - 1];
      NonEmptyElements(init);
      assert texts == init + [last];
      NonEmptyAppend(init, last);
      ElementsAppend(init, last);
      ElementsAppend(NonEmpty(init), last);
    }
  }

  // At least the first of equal replies is not a repetition.
  lemma {:induction false} RepeatedIsSmall(texts: seq<string>)
    ensures 0 <= Repeated(texts) && (texts != [] ==> Repeated(texts) < |texts|)
    ensures texts == [] ==> Repeated(texts) == 0
  {
    if texts != [] {
      var n := |texts| - 1;
      assert texts[..n + 1] == texts;
      RepeatedStep(texts, n);
      RepeatedIsSmall(texts[..n]);
      if n == 0 { assert texts[..0] == []; }
    }
  }

  lemma QualityIsPositive(repeated: int, n: nat)
    requires 0 <= repeated && (n > 0 ==> repeated < n) && (n == 0 ==> repeated == 0)
    ensures 0.0 < Quality(repeated, n) <= 1.0
  {
  }

  // Main result: the quality clamp never acts, and at the default threshold a conversation passes
  // exactly when it has a reply and at most two fifths of its replies are long and uncited.
  lemma PassesExactly(lower: string -> string, events: seq<Event>)
    ensures var replies := Replies(events);
      && 0.0 < Quality(Repeated(Texts(lower, replies)), |replies|) <= 1.0
      && (Grounding(UngroundedCount(lower, replies), |replies|) >= 0.9 <==>
           replies != [] && 5 * UngroundedCount(lower, replies) <= 2 * |replies|)
  {
    var replies := Replies(events);
    RepeatedIsSmall(Texts(lower, replies));
    QualityIsPositive(Repeated(Texts(lower, replies)), |replies|);
    assert replies == [] ==> UngroundedCount(lower, replies) == 0;
    hide Replies, Texts, Repeated, Quality, UngroundedCount;
    ThresholdReads(UngroundedCount(lower, replies), |replies|);
  }

  lemma ThresholdReads(ungrounded: nat, n: nat)
    requires n == 0 ==> ungrounded == 0
    ensures Grounding(ungrounded, n) >= 0.9 <==> n > 0 && 5 * ungrounded <= 2 * n
  {
    if n > 0 {
      QuotientOrder(0.9 * n as real, n as real - 0.25 * ungrounded as real, n as real);
      Cancel(0.9, n as real);
    }
  }

  // A reply without content reads as an empty one, and so does a blank one.
  lemma BlankIsEmpty(lower: string -> string, e: Event)
    requires e.content.Some? ==> forall i | 0 <= i < |e.content.value| :: IsSpace(e.content.value[i])
    ensures TextOf(lower, e) == lower("")
  {
    var a, b := StripPart(e.content.Or(""));
  }

  // Replies are compared and counted in lower case and without the white space around them.
  lemma PaddingIsIgnored(lower: string -> string, e: Event, left: string, text: string, right: string)
    requires e.content == Some(left + text + right) && text != "" && !IsSpace(text[0]) && !IsSpace(text[|text| - 1])
    requires (forall i | 0 <= i < |left| :: IsSpace(left[i])) && forall i | 0 <= i < |right| :: IsSpace(right[i])
    ensures TextOf(lower, e) == lower(text)
  {
    StripOfPadded(left, text, right);
  }

  // Main result: the quality is the share of replies that repeat no earlier one, and the grounding is
  // less by a quarter for each that is long and uncited; without replies they are 1 and 0.
  lemma ScoresInFull(lower: string -> string, events: seq<Event>)
    ensures var replies := Replies(events);
      var texts := Texts(lower, replies);
      && ScoresAre(Quality(Repeated(texts), |replies|), Grounding(UngroundedCount(lower, replies), |replies|),
           |Again(texts)|, |LongUncited(lower, replies)|, |replies|)
  {
    var replies := Replies(events);
    var texts := Texts(lower, replies);
    UngroundedAreLong(lower, replies);
    RepeatedAreEarlier(texts);
    assert replies == [] ==> LongUncited(lower, replies) == {} && Again(texts) == {};
    hide *;
    ScoresTimes(Repeated(texts), UngroundedCount(lower, replies), |replies|);
  }

  ghost predicate ScoresAre(quality: real, grounding: real, again: nat, uncited: nat, n: nat) {
    if n == 0 then quality == 1.0 && grounding == 0.0
    else
      && quality * n as real == n as real - again as real
      && grounding * n as real == n as real - uncited as real / 4.0
  }

  lemma ScoresTimes(repeated: nat, ungrounded: nat, n: nat)
    requires n == 0 ==> repeated == 0 && ungrounded == 0
    ensures ScoresAre(Quality(repeated, n), Grounding(ungrounded, n), repeated, ungrounded, n)
  {
    if n > 0 {
      Cancel(repeated as real / n as real, n as real);
      assert n as real - 0.25 * ungrounded as real == n as real - ungrounded as real / 4.0;
    }
  }

  // Main result: the composite of an evaluation is 0.67 quality + 0.15 grounding + 0.18.
  lemma CompositeOfEvaluation(quality: real, grounding: real)
    ensures WeightedScoreOf(ScoresOf(quality, grounding), map[]) == 0.67 * quality + 0.15 * grounding + 0.18
  {
    var scores := ScoresOf(quality, grounding);
    ScoresHaveKeys(quality, grounding);
    hide ScoresOf, Weight, Weighted, ScoredKeys, Sum;
    SumOfEight(Weight(map[]));
    SumOfEight(Weighted(scores, map[]));
    DefaultWeights();
    WeightedScores(quality, grounding);
    assert Sum(scores.Keys, Weight(map[])) == 1.0;
  }

  // Main result: the composite of any eight scores is their sum under the weights of the code.
  lemma CompositeOfEight(scores: Scores)
    requires scores.Keys == ScoredKeys()
    ensures WeightedScoreOf(scores, map[]) ==
      0.30 * scores["task_outcome"] + 0.18 * scores["conversation_quality"] + 0.15 * scores["grounding"]
      + 0.12 * scores["state_progress"] + 0.08 * scores["tool_correctness"] + 0.07 * scores["user_experience"]
      + 0.05 * scores["cost_efficiency"] + 0.05 * scores["latency_efficiency"]
  {
    DefaultWeights();
    WeightedEight(scores);
    HasEight(scores);
    var denom, total := Sum(scores.Keys, Weight(map[])), Sum(scores.Keys, Weighted(scores, map[]));
    assert WeightedScoreOf(scores, map[]) == if denom == 0.0 then 0.0 else total / denom;
    hide *;
    SumOfEight(Weight(map[]));
    SumOfEight(Weighted(scores, map[]));
    assert denom == 1.0;
  }

  lemma WeightedEight(scores: Scores)
    requires scores.Keys == ScoredKeys()
    ensures var g := Weighted(scores, map[]);
      && g("task_outcome") == 0.30 * scores["task_outcome"]
      && g("conversation_quality") == 0.18 * scores["conversation_quality"]
      && g("grounding") == 0.15 * scores["grounding"] && g("state_progress") == 0.12 * scores["state_progress"]
      && g("tool_correctness") == 0.08 * scores["tool_correctness"]
      && g("user_experience") == 0.07 * scores["user_experience"]
      && g("cost_efficiency") == 0.05 * scores["cost_efficiency"]
      && g("latency_efficiency") == 0.05 * scores["latency_efficiency"]
  {
    DefaultWeights();
    hide Weight, Weighted, ScoredKeys;
    forall key | key in scores ensures Weighted(scores, map[])(key) == scores[key] * Weight(map[])(key) {
      WeightedAt(scores, key);
    }
    assert scores.Keys == ScoredKeys() && EightIn(scores) by { HasEight(scores); }
  }

  predicate EightIn(scores: Scores) {
    && "task_outcome" in scores && "conversation_quality" in scores && "grounding" in scores
    && "state_progress" in scores && "tool_correctness" in scores && "user_experience" in scores
    && "cost_efficiency" in scores && "latency_efficiency" in scores
  }

  lemma HasEight(scores: Scores)
    requires scores.Keys == ScoredKeys()
    ensures EightIn(scores)
  {
    assert "task_outcome" in ScoredKeys() && "grounding" in ScoredKeys();
  }

  // What the evaluator counts: the replies of nine words or more without a citation.
  lemma {:induction false} UngroundedAreLong(lower: string -> string, replies: seq<Event>)
    ensures UngroundedCount(lower, replies) == |LongUncited(lower, replies)|
  {
    if replies != [] {
      var n := |replies| - 1;
      UngroundedAreLong(lower, replies[..n]);
      assert forall i | 0 <= i < n :: replies[..n][i] == replies[i];
      hide TextOf, WordCount;
      AddLast(LongUncited(lower, replies[..n]), LongUncited(lower, replies), n);
    }
  }

  lemma AddLast(before: set<int>, all: set<int>, n: int)
    requires (forall i | i in before :: 0 <= i < n) && (forall i | i in all :: 0 <= i <= n)
    requires forall i | 0 <= i < n :: i in all <==> i in before
    ensures |all| == |before| + if n in all then 1 else 0
  {
    forall i ensures i in all - {n} <==> i in before {}
    assert all - {n} == before;
  }

  function LongUncited(lower: string -> string, replies: seq<Event>): set<int> {
    set i | 0 <= i < |replies| && !replies[i].cited && WordCount(TextOf(lower, replies[i])) >= 9
  }

  // What it repeats: a reply counts as repeated when an earlier one reads the same and is not empty.
  lemma {:induction false} RepeatedAreEarlier(texts: seq<string>)
    ensures Repeated(texts) == |Again(texts)|
  {
    if texts != [] {
      var n := |texts| - 1;
      RepeatedAreEarlier(texts[..n]);
      RepeatedStep(texts, n);
      assert texts[..n + 1] == texts;
      hide Repeated;
      AgainBefore(texts);
      AddLast(Again(texts[..n]), Again(texts), n);
    } else {
      StartOfLoop(s => s);
    }
  }

  lemma AgainBefore(texts: seq<string>)
    requires texts != []
    ensures var n := |texts| - 1;
      && (forall i | 0 <= i < n :: i in Again(texts) <==> i in Again(texts[..n]))
      && (n in Again(texts) <==> texts[n] in Elements(texts[..n]) && texts[n] != "")
  {
    var n := |texts| - 1;
    forall i | 0 <= i < n ensures i in Again(texts) <==> i in Again(texts[..n]) {
      assert texts[..n][..i] == texts[..i];
    }
  }

  function Again(texts: seq<string>): set<int> {
    set i | 0 <= i < |texts| && texts[i] != "" && texts[i] in texts[..i]
  }

  lemma ScoresHaveKeys(quality: real, grounding: real)
    ensures ScoresOf(quality, grounding).Keys == ScoredKeys()
  {
  }

  lemma DefaultWeights()
    ensures var f := Weight(map[]);
      && f("task_outcome") == 0.30 && f("conversation_quality") == 0.18 && f("grounding") == 0.15
      && f("state_progress") == 0.12
      && f("tool_correctness") == 0.08 && f("user_experience") == 0.07 && f("cost_efficiency") == 0.05
      && f("latency_efficiency") == 0.05
  {
  }

  lemma WeightedScores(quality: real, grounding: real)
    ensures var g := Weighted(ScoresOf(quality, grounding), map[]);
      && g("task_outcome") == quality * 0.30 && g("conversation_quality") == quality * 0.18
      && g("grounding") == grounding * 0.15 && g("state_progress") == quality * 0.12
      && g("tool_correctness") == 0.08 && g("user_experience") == quality * 0.07
      && g("cost_efficiency") == 0.05 && g("latency_efficiency") == 0.05
  {
    var scores := ScoresOf(quality, grounding);
    DefaultWeights();
    hide Weight, Weighted;
    forall key ensures Weighted(scores, map[])(key) == ScoreOr(scores, key, 0.0) * Weight(map[])(key) {
      WeightedAt(scores, key);
    }
  }

  lemma WeightedAt(scores: Scores, key: string)
    ensures Weighted(scores, map[])(key) == ScoreOr(scores, key, 0.0) * Weight(map[])(key)
  {
  }

  function ScoredKeys(): set<string> {
    {"task_outcome", "conversation_quality", "grounding", "state_progress",
     "tool_correctness", "user_experience", "cost_efficiency", "latency_efficiency"}
  }

  lemma SumOfNone(f: string -> real)
    ensures Sum({}, f) == 0.0
  {
  }

  lemma SumOfEight(f: string -> real)
    ensures Sum(ScoredKeys(), f) ==
      f("task_outcome") + f("conversation_quality") + f("grounding") + f("state_progress")
      + f("tool_correctness") + f("user_experience") + f("cost_efficiency") + f("latency_efficiency")
  {
    SumOfNone(f);
    hide Sum;
    var keys := ScoredKeys();
    SumSplit(keys, f, "task_outcome");
    keys := keys - {"task_outcome"};
    SumSplit(keys, f, "conversation_quality");
    keys := keys - {"conversation_quality"};
    SumSplit(keys, f, "grounding");
    keys := keys - {"grounding"};
    SumSplit(keys, f, "state_progress");
    keys := keys - {"state_progress"};
    SumSplit(keys, f, "tool_correctness");
    keys := keys - {"tool_correctness"};
    SumSplit(keys, f, "user_experience");
    keys := keys - {"user_experience"};
    SumSplit(keys, f, "cost_efficiency");
    keys := keys - {"cost_efficiency"};
    SumSplit(keys, f, "latency_efficiency");
    assert keys - {"latency_efficiency"} == {};
  }
}
