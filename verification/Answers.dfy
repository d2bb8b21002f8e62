// What turns say, read and record, and what new conversations hold.
module Answers {
  import opened Json
  import opened Text
  import opened PolicyDsl
  import opened ActionSelection
  import opened Runtime
  import Proposals

  // ---- What is said --------------------------------------------------------------------------------------------

  const FIXED_REPLY := "I cannot provide that response safely."

  // The sentence that echoes a text, of which the first 350 characters are read.
  function Sentence(text: string): string {
    "I understand. " + (if |text| <= 350 then text else text[..350])
  }

  // `part` is `s` without the blanks at its end.
  ghost predicate IsTrimmed(s: string, part: string) {
    && 0 < |part| <= |s| && part == s[..|part|] && !IsSpace(part[|part| - 1])
    && forall i | |part| <= i < |s| :: IsSpace(s[i])
  }

  lemma EchoIsTrimmed(text: string)
    ensures IsTrimmed(Sentence(text), Echo(text)) && |Echo(text)| > 2 && Echo(text)[2] == 'u'
  {
    var s := Sentence(text);
    var a, b := StripPart(s);
    assert s[0] == 'I' && s[2] == 'u' && !IsSpace(s[0]) && !IsSpace(s[2]);
  }

  // Main result: a message that is not blocked is answered by its echo, or by the fixed sentence
  // exactly when the echo is blocked; and so the log says.
  lemma AnsweredByEcho(env: Env, conv: Conv, input: Input) returns (echo: string)
    requires Ready(conv.state) && !Raises(env, conv.state, input) && !env.inspect(input.text).blocked
    ensures IsTrimmed(Sentence(input.text), echo)
    ensures ReplyOf(env, conv, input).content == if env.inspect(echo).blocked then FIXED_REPLY else echo
    ensures ReplyOf(env, conv, input).content == FIXED_REPLY <==> env.inspect(echo).blocked
    ensures var log := Turn(env, conv, input).log;
      log != [] && log[|log| - 1].draft.content == Some(ReplyOf(env, conv, input).content)
  {
    echo := Echo(input.text);
    EchoIsTrimmed(input.text);
    ReplyDependsOnTextOnly(env, conv, input);
    FixedReplyDiffers(echo);
    hide Raises, Turn, ReplyOf, Echo, Sentence, Ready, IsTrimmed;
  }

  lemma FixedReplyDiffers(echo: string)
    requires |echo| > 2 && echo[2] == 'u'
    ensures echo != FIXED_REPLY && FIXED_REPLY == SAFE_REPLY
  {
    assert FIXED_REPLY[2] == 'c';
  }

  // So a text of at most 350 characters that ends on a non-space is repeated in full.
  lemma ShortTextIsEchoed(env: Env, conv: Conv, input: Input)
    requires Ready(conv.state) && !Raises(env, conv.state, input) && !env.inspect(input.text).blocked
    requires input.text != "" && |input.text| <= 350 && !IsSpace(input.text[|input.text| - 1])
    ensures !env.inspect("I understand. " + input.text).blocked ==>
      ReplyOf(env, conv, input).content == "I understand. " + input.text
  {
    var echo := AnsweredByEcho(env, conv, input);
    TrimmedInFull(Sentence(input.text), echo);
    hide Raises, ReplyOf, Turn, Ready, IsTrimmed;
  }

  lemma TrimmedInFull(s: string, part: string)
    requires IsTrimmed(s, part) && !IsSpace(s[|s| - 1])
    ensures part == s
  {
    assert s[..|s|] == s;
  }

  // A blocked message is refused and leaves one security event.
  lemma BlockedIsRefused(env: Env, conv: Conv, input: Input)
    requires Ready(conv.state) && !Raises(env, conv.state, input) && env.inspect(input.text).blocked
    ensures ReplyOf(env, conv, input) == Reply("I cannot process that request safely.", "refuse", Arr([]), 0, 0)
    ensures var after := Turn(env, conv, input);
      && |after.log| == |conv.log| + 1 && after == conv.(log := after.log)
      && after.log[|conv.log|].draft == Draft(InjectionDetected, User, None, env.inspect(input.text).report, Observed)
  {
    hide Raises, MaxSequence;
  }

  // The rows of a message and its answer: who says it, with what payload.
  lemma AnswerIsRecorded(env: Env, conv: Conv, input: Input) returns (echo: string)
    requires Ready(conv.state) && !Raises(env, conv.state, input) && !env.inspect(input.text).blocked
    ensures SchemaValid(DocumentOf(input)) && Pick(env, DocumentOf(input), conv.state).Some?
    ensures IsTrimmed(Sentence(input.text), echo)
    ensures var reply, log, n := ReplyOf(env, conv, input), Turn(env, conv, input).log, |conv.log|;
      var picked := Pick(env, DocumentOf(input), conv.state).value;
      && |log| > n + 2
      && log[n].draft
           == Draft(Received, User, Some(input.text), map["safety" := Obj(env.inspect(input.text).report)], Observed)
      && log[n + 1].draft == Draft(Selected, Assistant, None,
           map["action" := Str(picked.action), "confidence" := picked.confidence], Observed)
      && reply.action == picked.action
      && log[|log| - 1].draft == Draft(Sent, Assistant, Some(reply.content),
           map["action" := Str(reply.action), "citations" := reply.citations,
               "safety" := Obj(env.inspect(echo).report),
               "provider_fingerprint" := Str("fake:deterministic:v1")], Observed)
  {
    echo := Echo(input.text);
    EchoIsTrimmed(input.text);
    GeneratesEcho(env, conv, input);
    var rows := PreparedRows(env, conv, input);
    var sent := SentRow(env, conv, input);
    hide Raises, Turn, Prepared, Pick, PromptOf, CitationsOf, Generate, Screened, Echo, Sentence;
  }

  // The evidence is recorded, and its citations are those of the reply.
  lemma EvidenceIsRecorded(env: Env, conv: Conv, input: Input)
    requires Ready(conv.state) && !Raises(env, conv.state, input) && !env.inspect(input.text).blocked
    ensures SchemaValid(DocumentOf(input))
    ensures var log, n := Turn(env, conv, input).log, |conv.log|;
      match EvidenceFor(env, DocumentOf(input), input)
      case None => ReplyOf(env, conv, input).citations == Arr([]) && |log| == n + 3
      case Some(e) =>
        && ReplyOf(env, conv, input).citations == e.citations
        && |log| == n + 4
        && log[n + 2].draft == Draft(RetrievalCompleted, System, None,
             map["citations" := e.citations, "confidence" := e.confidence], Observed)
  {
    PreparedUnfolds(env, conv, input);
    var sent := SentRow(env, conv, input);
    hide Raises, Turn, Prepared, Pick, PromptOf, Generate, Screened, EvidenceFor, Retrieves, MaxSequence;
  }

  // What an answer leaves of the state: one turn more and the action of the reply; all else stays.
  lemma StateAfterAnswer(env: Env, conv: Conv, input: Input)
    requires Ready(conv.state) && !Raises(env, conv.state, input) && !env.inspect(input.text).blocked
    ensures var after, reply := Turn(env, conv, input), ReplyOf(env, conv, input);
      && Ready(after.state) && TurnIndex(after.state) == TurnIndex(conv.state) + 1
      && Get(Dialogue(after.state), "last_action") == Str(reply.action)
      && (forall key | key != "turn_index" && key != "last_action" ::
            Get(Dialogue(after.state), key) == Get(Dialogue(conv.state), key))
      && (forall key | key != "dialogue" :: Get(after.state, key) == Get(conv.state, key))
      && after.status == conv.status && after.id == conv.id && after.source == conv.source
  {
    AnsweredTurn(env, conv, input);
    ActionIsPicked(env, conv, input);
    var action := Str(ReplyOf(env, conv, input).action);
    AdvanceReads(conv.state, action);
    hide Raises, Turn, ReplyOf, Pick, PromptOf, Generate, EvidenceFor, MaxSequence, Answer, Advance, Dialogue, Get,
      Ready, TurnIndex;
  }

  lemma ActionIsPicked(env: Env, conv: Conv, input: Input)
    requires !Raises(env, conv.state, input) && !env.inspect(input.text).blocked
    ensures SchemaValid(DocumentOf(input)) && Pick(env, DocumentOf(input), conv.state).Some?
    ensures ReplyOf(env, conv, input).action == Pick(env, DocumentOf(input), conv.state).value.action
  {
    hide SchemaValid, Pick, PromptOf, Generate, EvidenceFor;
  }

  lemma AdvanceReads(state: Dict, action: Json)
    requires Ready(state)
    ensures var next := Advance(state, action);
      && Ready(next) && TurnIndex(next) == TurnIndex(state) + 1 && Get(Dialogue(next), "last_action") == action
      && (forall key | key != "turn_index" && key != "last_action" ::
            Get(Dialogue(next), key) == Get(Dialogue(state), key))
      && forall key | key != "dialogue" :: Get(next, key) == Get(state, key)
  {
  }

  // When a turn fails.
  lemma TurnsFail(env: Env, state: Dict, input: Input)
    ensures input.killSwitch ==> Raises(env, state, input)
    ensures !input.killSwitch && env.inspect(input.text).blocked ==> !Raises(env, state, input)
    ensures !env.inspect(input.text).blocked && !SchemaValid(DocumentOf(input)) ==> Raises(env, state, input)
    ensures input.document.Some? ==> DocumentOf(input) == input.document.value
  {
    hide SchemaValid, Pick, Retrieves, PlanIsValid;
  }

  // ---- What is read -------------------------------------------------------------------------------------------------

  // A retrieval policy with a snapshot and, if any, an integer limit.
  ghost predicate PlainRetrieval(document: Dict, snapshot: string, limit: int) {
    && SchemaValid(document) && "retrieval_policy" in document && document["retrieval_policy"].Obj?
    && var policy := document["retrieval_policy"].fields;
       && snapshot != "" && "snapshot_id" in policy && policy["snapshot_id"] == Str(snapshot)
       && (if "context_k" in policy then policy["context_k"] == Int(limit) else limit == 6)
  }

  // Main result: the evidence is asked for by the snapshot, the current text and the limit, unless the
  // policy switches it off; and a limit that is not from 1 to 50 makes the turn fail.
  lemma EvidenceIsAskedFor(env: Env, state: Dict, input: Input, snapshot: string, limit: int)
    requires PlainRetrieval(DocumentOf(input), snapshot, limit)
    requires !env.inspect(input.text).blocked
    ensures var policy := DocumentOf(input)["retrieval_policy"].fields;
      var on := "enabled" in policy ==> Truthy(policy["enabled"]);
      && (on && !(1 <= limit <= 50) ==> Raises(env, state, input))
      && EvidenceFor(env, DocumentOf(input), input) ==
           if on && 1 <= limit <= 50 then Some(input.retrieve(env.str(Str(snapshot)), input.text, limit)) else None
  {
    hide SchemaValid, Pick;
  }

  lemma NoSnapshotNoEvidence(env: Env, input: Input)
    requires SchemaValid(DocumentOf(input))
    requires "retrieval_policy" in DocumentOf(input) ==>
      DocumentOf(input)["retrieval_policy"].Obj? && "snapshot_id" !in DocumentOf(input)["retrieval_policy"].fields
    ensures EvidenceFor(env, DocumentOf(input), input) == None
  {
    hide SchemaValid;
  }

  const EVIDENCE_LEAD :=
    "\nUse only the authorized evidence below for factual claims. Cite the supplied source labels.\nEVIDENCE:\n"

  // The system text is the policy's, and the evidence follows it.
  lemma SystemTextIs(env: Env, conv: Conv, input: Input, system: string)
    requires !Raises(env, conv.state, input) && !env.inspect(input.text).blocked
    requires SchemaValid(DocumentOf(input))
    requires "response_policy" in DocumentOf(input) && DocumentOf(input)["response_policy"].Obj?
    requires "system" in DocumentOf(input)["response_policy"].fields
    requires env.str(DocumentOf(input)["response_policy"].fields["system"]) == system
    ensures PromptOf(env, conv, input) != []
    ensures PromptOf(env, conv, input)[0] == Message(System,
      match EvidenceFor(env, DocumentOf(input), input)
      case None => system
      case Some(e) => if e.context == "" then system else system + EVIDENCE_LEAD + e.context)
  {
    hide SchemaValid, Raises, EvidenceFor, Prepared, Suffix, Messages;
  }

  lemma WithoutPolicy(env: Env, state: Dict, input: Input, phase: string, facts: seq<string>)
    requires input.document.None? && InPhase(state, phase, facts)
    ensures SchemaValid(DocumentOf(input))
    ensures Pick(env, DocumentOf(input), state) == env.settle(Choice(Str("clarify"), Tenths(6)))
    ensures EvidenceFor(env, DocumentOf(input), input) == None
    ensures Get(Component(DocumentOf(input), "response_policy"), "system") == Str("Be helpful, concise, and grounded.")
  {
    DefaultIsValid();
    var policy := Component(DEFAULT_DOCUMENT, "action_policy");
    hide SchemaValid;
    ChoosesDefault(policy, [], state, phase, facts);
  }

  lemma DefaultIsValid()
    ensures SchemaValid(DEFAULT_DOCUMENT) && "retrieval_policy" !in DEFAULT_DOCUMENT
    ensures Component(DEFAULT_DOCUMENT, "action_policy") == map["default_action" := Str("clarify")]
  {
    var d := DEFAULT_DOCUMENT;
    assert RequiredStr(d, "id") && RequiredStr(d, "version");
    assert RequiredStr(d, "safety_policy_ref") && RequiredStr(d, "evaluator_suite_ref");
    forall key | key in d ensures OptionalObj(d, key) || key in {"id", "version", "safety_policy_ref",
      "evaluator_suite_ref"} {}
  }

  // ---- What is counted ----------------------------------------------------------------------------------------------

  lemma {:induction false} TokensConcat(a: seq<Message>, b: seq<Message>)
    ensures TokensIn(a + b) == TokensIn(a) + TokensIn(b)
  {
    if b == [] {
      assert a + b == a;
    } else {
      assert (a + b)[..|a + b| - 1] == a + b[..|b| - 1];
      TokensConcat(a, b[..|b| - 1]);
    }
  }

  lemma TokensOfOne(m: Message)
    ensures TokensIn([m]) == WordCount(m.content) && TokensIn([]) == 0
  {
    assert [m][..0] == [];
  }

  // The ledger row of an answer: the words of its prompt and of its echo, for the conversation's source.
  lemma AnswerIsCharged(env: Env, conv: Conv, input: Input)
    requires Ready(conv.state) && !Raises(env, conv.state, input) && !env.inspect(input.text).blocked
    ensures var echo, reply := Echo(input.text), ReplyOf(env, conv, input);
      && IsTrimmed(Sentence(input.text), echo)
      && reply.input == TokensIn(PromptOf(env, conv, input)) && reply.output == WordCount(echo)
      && Turn(env, conv, input).ledger == conv.ledger + [Usage(reply.input, reply.output, conv.source)]
  {
    EchoIsTrimmed(input.text);
    GeneratesEcho(env, conv, input);
    var rows := PreparedRows(env, conv, input);
    AnsweredTurn(env, conv, input);
    hide Raises, Turn, Prepared, Pick, PromptOf, CitationsOf, Generate, Screened, Answer, Echo, Sentence;
  }

  // ---- Replay -------------------------------------------------------------------------------------------------------

  // What a replay gives: the observed events of a log and no others, in the order of the log.
  lemma {:induction false} ReplayConcat(a: seq<Row>, b: seq<Row>)
    ensures ObservedRows(a + b) == ObservedRows(a) + ObservedRows(b)
  {
    if b == [] {
      assert a + b == a;
    } else {
      assert (a + b)[..|a + b| - 1] == a + b[..|b| - 1];
      ReplayConcat(a, b[..|b| - 1]);
    }
  }

  lemma ReplayOfOne(row: Row)
    ensures ObservedRows([row]) == if row.draft.source == Observed then [row] else []
    ensures ObservedRows([]) == []
  {
    assert [row][..0] == [];
  }

  // ---- New conversations --------------------------------------------------------------------------------------------

  // A created conversation is in the opening phase with no unresolved facts, and knows itself.
  lemma CreatedReads(env: Env, tenant: string, project: string, agent: string, id: string, source: Source, name: string)
    ensures var conv := Created(env, tenant, project, agent, id, source, name);
      && InPhase(conv.state, "opening", []) && Ready(conv.state) && TurnIndex(conv.state) == 0
      && conv.id == id && conv.status == Active && conv.source == source && conv.ledger == []
      && Get(conv.state, "conversation_id") == Str(id) && Get(conv.state, "tenant_id") == Str(tenant)
      && Get(conv.state, "project_id") == Str(project) && Get(conv.state, "agent_id") == Str(agent)
      && conv.log == [Row(1, Draft(Started, System, None, map["source_kind" := Str(name)], source),
        env.hash(conv.state))]
  {
  }

  lemma ChattingReads(tenant: string, project: string, agent: string, id: string)
    ensures var conv := Chatting(tenant, project, agent, id);
      && InPhase(conv.state, "opening", []) && Ready(conv.state) && TurnIndex(conv.state) == 0
      && conv == Conv(id, Active, Observed, conv.state, [], [])
      && Get(conv.state, "conversation_id") == Str(id) && Get(conv.state, "tenant_id") == Str(tenant)
      && Get(conv.state, "project_id") == Str(project) && Get(conv.state, "agent_id") == Str(agent)
  {
  }

  // A branch goes on in the parent's state under its own id, and says where it comes from.
  lemma BranchReads(env: Env, parent: Conv, id: string)
    ensures var child := Branched(env, parent, id);
      && Get(child.state, "conversation_id") == Str(id)
      && (forall key | key != "conversation_id" :: Get(child.state, key) == Get(parent.state, key))
      && child == Conv(id, Active, Counterfactual, child.state, child.log, [])
      && child.log == [Row(1, Draft(Started, System, None, map["branched_from" := Str(parent.id)], Counterfactual),
           env.hash(child.state))]
  {
  }

  // Stopping marks the conversation, appends one event and changes nothing else.
  lemma StopReads(env: Env, conv: Conv)
    ensures var after := Stopping(env, conv);
      && after.status == Stopped && after == conv.(status := Stopped, log := after.log)
      && |after.log| == |conv.log| + 1 && after.log[..|conv.log|] == conv.log
      && after.log[|conv.log|].draft == Draft(Finished, System, None, map["reason" := Str("requested")], Observed)
  {
  }
}
