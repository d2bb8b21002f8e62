// The event log and the turn runtime, one request at a time: `append_event`, `run_turn`, and the
// handlers that create, continue, stop, branch and replay a conversation.
module Runtime {
  import opened Json
  import opened PolicyDsl
  import opened ActionSelection
  import opened Arithmetic
  import Text
  import Proposals
  import SelfImprovement

  // ---- What a turn reads from outside ------------------------------------------------------------------------------

  datatype Verdict = Verdict(blocked: bool, report: Dict)

  // The action's name and the confidence as they are written to the log.
  datatype Picked = Picked(action: string, confidence: Json)

  // `hash` is `canonical_hash`, `inspect` the safety patterns, `str` the conversion to text, and
  // `settle` the final conversions of a choice, which may raise.
  datatype Env = Env(
    hash: Dict -> string, inspect: string -> Verdict, str: Json -> string,
    settle: Choice -> Option<Picked>)

  datatype Evidence = Evidence(citations: Json, context: string, confidence: Json)

  // `document` is the policy of the conversation's deployment, if there is one; `retrieve` answers
  // for a snapshot, a query and a limit.
  datatype Input = Input(
    text: string, killSwitch: bool, document: Option<Dict>,
    retrieve: (string, string, int) -> Evidence)

  // ---- Rows ---------------------------------------------------------------------------------------------------------

  // The event types of the log.
  datatype Kind = Started | Finished | InjectionDetected | Received | Selected | RetrievalCompleted | Sent

  datatype Role = System | User | Assistant

  datatype Source = Observed | Counterfactual | OtherSource(name: string)

  datatype Draft = Draft(kind: Kind, role: Role, content: Option<string>, payload: Dict, source: Source)

  datatype Row = Row(sequenceNo: int, draft: Draft, stateHash: string)

  datatype Usage = Usage(input: nat, output: nat, source: Source)

  datatype Status = Active | Stopped

  datatype Conv = Conv(id: string, status: Status, source: Source, state: Dict, log: seq<Row>, ledger: seq<Usage>)

  datatype Reply = Reply(content: string, action: string, citations: Json, input: nat, output: nat)

  function MaxSequence(log: seq<Row>): int {
    if log == [] then 0
    else
      var last, before := log[|log| - 1].sequenceNo, MaxSequence(log[..|log| - 1]);
      if last > before then last else before
  }

  function Append(env: Env, conv: Conv, draft: Draft): (next: Conv)
    ensures next == conv.(log := next.log)
  {
    conv.(log := conv.log + [Row(MaxSequence(conv.log) + 1, draft, env.hash(conv.state))])
  }

  // ---- The dialogue state -------------------------------------------------------------------------------------------

  // The states that the handlers create and keep: a dialogue with a turn index.
  predicate Ready(state: Dict) {
    && "dialogue" in state && state["dialogue"].Obj?
    && "turn_index" in state["dialogue"].fields && state["dialogue"].fields["turn_index"].Int?
  }

  function Dialogue(state: Dict): Dict
    requires Ready(state)
  {
    state["dialogue"].fields
  }

  function TurnIndex(state: Dict): int
    requires Ready(state)
  {
    Dialogue(state)["turn_index"].n
  }

  function Advance(state: Dict, action: Json): (next: Dict)
    requires Ready(state)
    ensures Ready(next) && TurnIndex(next) == TurnIndex(state) + 1 && Get(Dialogue(next), "last_action") == action
    ensures forall key | key in state && key != "dialogue" :: key in next && next[key] == state[key]
  {
    state["dialogue" := Obj(Dialogue(state)["turn_index" := Int(TurnIndex(state) + 1)]["last_action" := action])]
  }

  function InitialState(tenant: string, project: string, agent: string, id: string, rest: Dict): (state: Dict)
    requires "dialogue" !in rest
    ensures Ready(state) && TurnIndex(state) == 0
  {
    map["tenant_id" := Str(tenant), "project_id" := Str(project), "agent_id" := Str(agent),
        "conversation_id" := Str(id),
        "dialogue" := Obj(map["turn_index" := Int(0), "phase" := Str("opening")]),
        "slots" := Obj(map["discovered_facts" := Obj(map[]), "unresolved_facts" := Arr([])])] + rest
  }

  // ---- The prompt ---------------------------------------------------------------------------------------------------

  datatype Message = Message(role: Role, content: string)

  predicate IsMessage(row: Row) {
    row.draft.kind == Received || row.draft.kind == Sent
  }

  function Messages(log: seq<Row>): seq<Row> {
    if log == [] then []
    else Messages(log[..|log| - 1]) + (if IsMessage(log[|log| - 1]) then [log[|log| - 1]] else [])
  }

  function Suffix<T>(s: seq<T>, n: nat): seq<T> {
    if |s| <= n then s else s[|s| - n..]
  }

  const WINDOW: nat := 12

  function AsMessage(row: Row): Message {
    Message(if row.draft.role == User then User else Assistant, row.draft.content.Or(""))
  }

  function AsMessages(rows: seq<Row>): (messages: seq<Message>)
    ensures |messages| == |rows| && forall i | 0 <= i < |rows| :: messages[i] == AsMessage(rows[i])
  {
    seq(|rows|, i requires 0 <= i < |rows| => AsMessage(rows[i]))
  }

  const EVIDENCE_HEADER :=
    "\nUse only the authorized evidence below for factual claims. Cite the supplied source labels.\nEVIDENCE:\n"

  function SystemPrompt(env: Env, document: Dict, context: string): string
    requires SchemaValid(document)
  {
    assert OptionalObj(document, "response_policy");
    var fallback := Str("You are a grounded conversation agent.");
    var system := env.str(GetOr(Component(document, "response_policy"), "system", fallback));
    if context == "" then system else system + EVIDENCE_HEADER + context
  }

  function Prompt(env: Env, document: Dict, context: string, log: seq<Row>): seq<Message>
    requires SchemaValid(document)
  {
    [Message(System, SystemPrompt(env, document, context))] + AsMessages(Suffix(Messages(log), WINDOW))
  }

  // ---- The deterministic provider -----------------------------------------------------------------------------------

  function LastUser(messages: seq<Message>): string {
    if messages == [] then ""
    else if messages[|messages| - 1].role == User then messages[|messages| - 1].content
    else LastUser(messages[..|messages| - 1])
  }

  function Echo(text: string): string {
    Text.Strip("I understand. " + (if |text| > 350 then text[..350] else text))
  }

  function Generate(messages: seq<Message>): string {
    Echo(LastUser(messages))
  }

  function TokensIn(messages: seq<Message>): nat {
    if messages == [] then 0
    else TokensIn(messages[..|messages| - 1]) + Text.WordCount(messages[|messages| - 1].content)
  }

  // ---- One turn -----------------------------------------------------------------------------------------------------

  const REFUSAL := "I cannot process that request safely."
  const SAFE_REPLY := "I cannot provide that response safely."

  const DEFAULT_DOCUMENT: Dict := map[
    "id" := Str("runtime-default"), "version" := Str("1"),
    "safety_policy_ref" := Str("builtin:safe-v1"), "evaluator_suite_ref" := Str("builtin:generic-v1"),
    "action_policy" := Obj(map["default_action" := Str("clarify")]),
    "response_policy" := Obj(map["system" := Str("Be helpful, concise, and grounded.")])]

  function DocumentOf(input: Input): Dict {
    input.document.Or(DEFAULT_DOCUMENT)
  }

  function Pick(env: Env, document: Dict, state: Dict): Option<Picked>
    requires SchemaValid(document)
  {
    assert OptionalObj(document, "action_policy");
    var choice := ChoiceOf(Component(document, "action_policy"), state);
    if choice.None? then None else env.settle(choice.value)
  }

  function RetrievalPolicy(document: Dict): Dict
    requires SchemaValid(document)
  {
    assert OptionalObj(document, "retrieval_policy");
    Component(document, "retrieval_policy")
  }

  predicate Retrieves(document: Dict)
    requires SchemaValid(document)
  {
    && Truthy(GetOr(RetrievalPolicy(document), "enabled", Bool(true)))
    && Truthy(Get(RetrievalPolicy(document), "snapshot_id"))
  }

  // A retrieval plan takes a limit from 1 to 50.
  predicate PlanIsValid(document: Dict)
    requires SchemaValid(document)
  {
    Proposals.ContextK(document).Some? && 1 <= Proposals.ContextK(document).value <= 50
  }

  function EvidenceFor(env: Env, document: Dict, input: Input): Option<Evidence>
    requires SchemaValid(document)
  {
    if Retrieves(document) && PlanIsValid(document)
    then
      var snapshot := env.str(Get(RetrievalPolicy(document), "snapshot_id"));
      Some(input.retrieve(snapshot, input.text, Proposals.ContextK(document).value))
    else None
  }

  // An answered turn fails when the document, the choice or the retrieval plan is not usable.
  predicate Raises(env: Env, state: Dict, input: Input) {
    || input.killSwitch
    || (!env.inspect(input.text).blocked && (
          || !SchemaValid(DocumentOf(input))
          || Pick(env, DocumentOf(input), state).None?
          || (Retrieves(DocumentOf(input)) && !PlanIsValid(DocumentOf(input)))))
  }

  function Injection(v: Verdict): Draft {
    Draft(InjectionDetected, User, None, v.report, Observed)
  }

  function ReceivedDraft(env: Env, text: string): Draft {
    Draft(Received, User, Some(text), map["safety" := Obj(env.inspect(text).report)], Observed)
  }

  function SelectedDraft(picked: Picked): Draft {
    Draft(Selected, Assistant, None, map["action" := Str(picked.action), "confidence" := picked.confidence], Observed)
  }

  function RetrievalDraft(e: Evidence): Draft {
    Draft(RetrievalCompleted, System, None, map["citations" := e.citations, "confidence" := e.confidence], Observed)
  }

  function SentDraft(env: Env, content: string, picked: Picked, citations: Json, generated: string): Draft {
    Draft(Sent, Assistant, Some(content),
      map["action" := Str(picked.action), "citations" := citations, "safety" := Obj(env.inspect(generated).report),
          "provider_fingerprint" := Str("fake:deterministic:v1")], Observed)
  }

  function Screened(env: Env, generated: string): string {
    if env.inspect(generated).blocked then SAFE_REPLY else generated
  }

  // The conversation when the prompt is built: the message, the action and the evidence are logged.
  function Prepared(env: Env, conv: Conv, input: Input): Conv
    requires !Raises(env, conv.state, input) && !env.inspect(input.text).blocked
  {
    var heard := Append(env, conv, ReceivedDraft(env, input.text));
    var picked := Append(env, heard, SelectedDraft(Pick(env, DocumentOf(input), conv.state).value));
    match EvidenceFor(env, DocumentOf(input), input)
    case Some(e) => Append(env, picked, RetrievalDraft(e))
    case None => picked
  }

  function PromptOf(env: Env, conv: Conv, input: Input): seq<Message>
    requires !Raises(env, conv.state, input) && !env.inspect(input.text).blocked
  {
    var context := match EvidenceFor(env, DocumentOf(input), input) case Some(e) => e.context case None => "";
    Prompt(env, DocumentOf(input), context, Prepared(env, conv, input).log)
  }

  function CitationsOf(env: Env, input: Input): Json
    requires SchemaValid(DocumentOf(input))
  {
    match EvidenceFor(env, DocumentOf(input), input) case Some(e) => e.citations case None => Arr([])
  }

  // The event that answers the message.
  function Answer(env: Env, conv: Conv, input: Input): Draft
    requires !Raises(env, conv.state, input) && !env.inspect(input.text).blocked
  {
    var generated := Generate(PromptOf(env, conv, input));
    var picked := Pick(env, DocumentOf(input), conv.state).value;
    SentDraft(env, Screened(env, generated), picked, CitationsOf(env, input), generated)
  }

  function Turn(env: Env, conv: Conv, input: Input): Conv
    requires Ready(conv.state) && !Raises(env, conv.state, input)
  {
    if env.inspect(input.text).blocked then Append(env, conv, Injection(env.inspect(input.text)))
    else
      var prompt := PromptOf(env, conv, input);
      var action := Pick(env, DocumentOf(input), conv.state).value.action;
      var advanced := Prepared(env, conv, input).(state := Advance(conv.state, Str(action)));
      var sent := Append(env, advanced, Answer(env, conv, input));
      sent.(ledger := sent.ledger + [Usage(TokensIn(prompt), Text.WordCount(Generate(prompt)), conv.source)])
  }

  function ReplyOf(env: Env, conv: Conv, input: Input): Reply
    requires !Raises(env, conv.state, input)
  {
    if env.inspect(input.text).blocked then Reply(REFUSAL, "refuse", Arr([]), 0, 0)
    else
      var prompt := PromptOf(env, conv, input);
      var action := Pick(env, DocumentOf(input), conv.state).value.action;
      Reply(Screened(env, Generate(prompt)), action, CitationsOf(env, input),
        TokensIn(prompt), Text.WordCount(Generate(prompt)))
  }

  class Conversation {
    const id: string
    const source: Source
    var status: Status
    var state: Dict
    var log: seq<Row>
    var ledger: seq<Usage>

    function Contents(): Conv
      reads this
    {
      Conv(id, status, source, state, log, ledger)
    }

    // A row of the conversations table, before any event.
    constructor (id: string, source: Source, state: Dict)
      ensures Contents() == Conv(id, Active, source, state, [], [])
    {
      this.id, this.source, this.status, this.state, this.log, this.ledger := id, source, Active, state, [], [];
    }

    method AppendEvent(env: Env, draft: Draft)
      modifies this`log
      ensures Contents() == Append(env, old(Contents()), draft)
    {
      var sequence := 0;
      for i := 0 to |log|
        invariant sequence == MaxSequence(log[..i])
      {
        assert log[..i + 1][..i] == log[..i];
        if log[i].sequenceNo > sequence { sequence := log[i].sequenceNo; }
      }
      assert log[..|log|] == log;
      log := log + [Row(sequence + 1, draft, env.hash(state))];
    }

    // The last messages, read backwards and then put in order.
    method RecentMessages() returns (history: seq<Row>)
      ensures history == Suffix(Messages(log), WINDOW)
    {
      history := [];
      var i := |log|;
      assert log[..i] == log;
      while i > 0 && |history| < WINDOW
        invariant 0 <= i <= |log| && |history| <= WINDOW
        invariant Messages(log[..i]) + history == Messages(log)
      {
        i := i - 1;
        assert log[..i + 1][..i] == log[..i];
        if IsMessage(log[i]) { history := [log[i]] + history; }
      }
    }

    // An exception leaves the session as it is; nothing is said of it then.
    method RunTurn(env: Env, input: Input) returns (reply: Option<Reply>)
      requires Ready(state)
      modifies this
      ensures reply.None? <==> Raises(env, old(state), input)
      ensures reply.Some? ==>
        Contents() == Turn(env, old(Contents()), input) && reply.value == ReplyOf(env, old(Contents()), input)
    {
      hide Append, SchemaValid, ChoiceOf, Generate, Suffix, Messages, TokensIn, Text.WordCount, Proposals.ContextK,
        Advance, Retrieves, PlanIsValid;
      if input.killSwitch { return None; }
      var inbound := env.inspect(input.text);
      if inbound.blocked {
        AppendEvent(env, Injection(inbound));
        return Some(Reply(REFUSAL, "refuse", Arr([]), 0, 0));
      }
      AppendEvent(env, ReceivedDraft(env, input.text));
      var document := DocumentOf(input);
      if !SchemaValid(document) { return None; }
      var choice := ChooseAction(document, state);
      if choice.None? || env.settle(choice.value).None? { return None; }
      var picked := env.settle(choice.value).value;
      AppendEvent(env, SelectedDraft(picked));
      var citations, context := Arr([]), "";
      if Retrieves(document) {
        if !PlanIsValid(document) { return None; }
        var evidence := EvidenceFor(env, document, input).value;
        citations, context := evidence.citations, evidence.context;
        AppendEvent(env, RetrievalDraft(evidence));
      }
      var history := RecentMessages();
      var prompt := [Message(System, SystemPrompt(env, document, context))] + AsMessages(history);
      var generated := Generate(prompt);
      var content := if env.inspect(generated).blocked then SAFE_REPLY else generated;
      state := Advance(state, Str(picked.action));
      AppendEvent(env, SentDraft(env, content, picked, citations, generated));
      ledger := ledger + [Usage(TokensIn(prompt), Text.WordCount(generated), source)];
      reply := Some(Reply(content, picked.action, citations, TokensIn(prompt), Text.WordCount(generated)));
    }

    // The handler: a turn that raises is not committed.
    method HandleMessage(env: Env, input: Input) returns (reply: Option<Reply>)
      requires Ready(state)
      modifies this
      ensures Contents() == Act(env, old(Contents()), Say(input))
      ensures reply == if Raises(env, old(state), input) then None else Some(ReplyOf(env, old(Contents()), input))
    {
      var status0, state0, log0, ledger0 := status, state, log, ledger;
      reply := RunTurn(env, input);
      hide Raises, Turn, ReplyOf;
      if reply.None? { status, state, log, ledger := status0, state0, log0, ledger0; }
    }

    method Stop(env: Env)
      modifies this
      ensures Contents() == Stopping(env, old(Contents()))
    {
      status := Stopped;
      AppendEvent(env, Draft(Finished, System, None, map["reason" := Str("requested")], Observed));
    }

    method Branch(env: Env, childId: string) returns (child: Conversation)
      ensures fresh(child) && child.Contents() == Branched(env, Contents(), childId)
    {
      child := new Conversation(childId, Counterfactual, state["conversation_id" := Str(childId)]);
      child.AppendEvent(env, Draft(Started, System, None, map["branched_from" := Str(id)], Counterfactual));
    }

    // Exact replay reads the log and calls nothing.
    method Replay() returns (replay: Replayed)
      ensures replay.events == ObservedRows(log)
      ensures replay.coverage == if replay.events != [] then 1.0 else 0.0
      ensures replay.ledgerDelta == 0
    {
      var before := |ledger|;
      var events := [];
      for i := 0 to |log|
        invariant events == ObservedRows(log[..i])
      {
        assert log[..i + 1][..i] == log[..i];
        if log[i].draft.source == Observed { events := events + [log[i]]; }
      }
      assert log[..|log|] == log;
      replay := Replayed(events, if events != [] then 1.0 else 0.0, |ledger| - before);
    }
  }

  // ---- Handlers -----------------------------------------------------------------------------------------------------

  datatype Replayed = Replayed(events: seq<Row>, coverage: real, ledgerDelta: int)

  function ObservedRows(log: seq<Row>): seq<Row> {
    if log == [] then []
    else ObservedRows(log[..|log| - 1]) + (if log[|log| - 1].draft.source == Observed then [log[|log| - 1]] else [])
  }

  method CreateConversation(env: Env, tenant: string, project: string, agent: string, id: string, source: Source,
      sourceName: string)
    returns (conv: Conversation)
    ensures fresh(conv) && conv.Contents() == Created(env, tenant, project, agent, id, source, sourceName)
  {
    conv := new Conversation(id, source, InitialState(tenant, project, agent, id, map["governance" := Obj(map[])]));
    conv.AppendEvent(env, Draft(Started, System, None, map["source_kind" := Str(sourceName)], source));
  }

  // The chat endpoint: it continues the conversation that was found, if one was, or begins one
  // without a start event; the text is the last user message. A turn that raises leaves no trace.
  method Chat(
      env: Env, tenant: string, project: string, agent: string, id: string, found: Option<Conversation>,
      messages: seq<Message>, input: Input)
    returns (result: Option<(Conversation, Reply)>)
    requires input.text == LastUser(messages) && (found.Some? ==> Ready(found.value.state))
    modifies if found.Some? then {found.value} else {}
    ensures var before := if found.Some? then old(found.value.Contents()) else Chatting(tenant, project, agent, id);
      && (result.None? <==> Raises(env, before.state, input))
      && (result.None? && found.Some? ==> found.value.Contents() == before)
      && (result.Some? ==>
            && (if found.Some? then result.value.0 == found.value else fresh(result.value.0))
            && result.value.0.Contents() == Turn(env, before, input) && result.value.1 == ReplyOf(env, before, input))
  {
    hide Raises, Turn, ReplyOf;
    var conv: Conversation;
    if found.Some? {
      conv := found.value;
    } else {
      conv := new Conversation(id, Observed, InitialState(tenant, project, agent, id, map[]));
    }
    var reply := conv.HandleMessage(env, input);
    result := if reply.None? then None else Some((conv, reply.value));
  }

  function Created(env: Env, tenant: string, project: string, agent: string, id: string, source: Source,
      sourceName: string): Conv {
    var initial := InitialState(tenant, project, agent, id, map["governance" := Obj(map[])]);
    Append(env, Conv(id, Active, source, initial, [], []),
      Draft(Started, System, None, map["source_kind" := Str(sourceName)], source))
  }

  function Chatting(tenant: string, project: string, agent: string, id: string): Conv {
    Conv(id, Active, Observed, InitialState(tenant, project, agent, id, map[]), [], [])
  }

  function Stopping(env: Env, conv: Conv): Conv {
    Append(env, conv.(status := Stopped), Draft(Finished, System, None, map["reason" := Str("requested")], Observed))
  }

  function Branched(env: Env, conv: Conv, childId: string): Conv {
    Append(env, Conv(childId, Active, Counterfactual, conv.state["conversation_id" := Str(childId)], [], []),
      Draft(Started, System, None, map["branched_from" := Str(conv.id)], Counterfactual))
  }

  datatype Action = Say(input: Input) | StopIt

  function Act(env: Env, conv: Conv, a: Action): (next: Conv)
    requires Ready(conv.state)
    ensures Ready(next.state)
  {
    match a
    case Say(input) => if Raises(env, conv.state, input) then conv else Turn(env, conv, input)
    case StopIt => Stopping(env, conv)
  }

  function Run(env: Env, conv: Conv, actions: seq<Action>): (next: Conv)
    requires Ready(conv.state)
    ensures Ready(next.state)
  {
    if actions == [] then conv else Act(env, Run(env, conv, actions[..|actions| - 1]), actions[|actions| - 1])
  }

  // A conversation as a handler makes it: at most a start event.
  ghost predicate Newborn(env: Env, conv: Conv) {
    && Ready(conv.state) && conv.ledger == []
    && (conv.log == []
        || exists draft: Draft :: draft.kind == Started && conv.log == [Row(1, draft, env.hash(conv.state))])
  }

  lemma BirthsAreNewborn(env: Env, tenant: string, project: string, agent: string, id: string, source: Source,
      sourceName: string, parent: Conv)
    requires Ready(parent.state)
    ensures Newborn(env, Created(env, tenant, project, agent, id, source, sourceName))
    ensures Newborn(env, Chatting(tenant, project, agent, id))
    ensures Newborn(env, Branched(env, parent, id))
    ensures TurnIndex(Branched(env, parent, id).state) == TurnIndex(parent.state)
  {
  }

  // ---- The state is the fold of the log -----------------------------------------------------------------------------

  function Applied(state: Dict, draft: Draft): (next: Dict)
    requires Ready(state)
    ensures Ready(next)
  {
    if draft.kind == Sent then Advance(state, Get(draft.payload, "action")) else state
  }

  function Fold(initial: Dict, log: seq<Row>): (state: Dict)
    requires Ready(initial)
    ensures Ready(state)
  {
    if log == [] then initial else Applied(Fold(initial, log[..|log| - 1]), log[|log| - 1].draft)
  }

  function SentCount(log: seq<Row>): nat {
    if log == [] then 0 else SentCount(log[..|log| - 1]) + (if log[|log| - 1].draft.kind == Sent then 1 else 0)
  }

  // Row `i` carries the next number and the hash of the state up to and including itself.
  ghost predicate RowIsRight(env: Env, initial: Dict, log: seq<Row>, i: int)
    requires Ready(initial) && 0 <= i < |log|
  {
    log[i].sequenceNo == i + 1 && log[i].stateHash == env.hash(Fold(initial, log[..i + 1]))
  }

  ghost predicate Consistent(env: Env, initial: Dict, conv: Conv)
    requires Ready(initial)
  {
    && conv.state == Fold(initial, conv.log)
    && forall i | 0 <= i < |conv.log| :: RowIsRight(env, initial, conv.log, i)
  }

  lemma {:induction false} MaxIsLength(env: Env, initial: Dict, log: seq<Row>)
    requires Ready(initial) && forall i | 0 <= i < |log| :: RowIsRight(env, initial, log, i)
    ensures MaxSequence(log) == |log|
  {
    if log != [] {
      var init := log[..|log| - 1];
      forall i | 0 <= i < |init| ensures RowIsRight(env, initial, init, i) {
        assert init[..i + 1] == log[..i + 1];
        assert RowIsRight(env, initial, log, i);
      }
      MaxIsLength(env, initial, init);
      assert RowIsRight(env, initial, log, |init|);
    }
  }

  // Writing the state that an event brings about and then appending the event.
  lemma AppendIsConsistent(env: Env, initial: Dict, conv: Conv, draft: Draft)
    requires Ready(initial) && Consistent(env, initial, conv)
    ensures Consistent(env, initial, Append(env, conv.(state := Applied(conv.state, draft)), draft))
  {
    var next := Append(env, conv.(state := Applied(conv.state, draft)), draft);
    MaxIsLength(env, initial, conv.log);
    assert next.log[..|conv.log|] == conv.log;
    forall i | 0 <= i < |next.log| ensures RowIsRight(env, initial, next.log, i) {
      if i < |conv.log| {
        assert RowIsRight(env, initial, conv.log, i);
        assert next.log[..i + 1] == conv.log[..i + 1];
      } else {
        assert next.log[..i + 1] == next.log;
      }
    }
  }

  lemma PreparedIsConsistent(env: Env, initial: Dict, conv: Conv, input: Input)
    requires Ready(initial) && Consistent(env, initial, conv)
    requires !Raises(env, conv.state, input) && !env.inspect(input.text).blocked
    ensures Consistent(env, initial, Prepared(env, conv, input)) && Prepared(env, conv, input).state == conv.state
  {
    hide Consistent, Append, Fold;
    var received := ReceivedDraft(env, input.text);
    AppendIsConsistent(env, initial, conv, received);
    var heard := Append(env, conv, received);
    var selected := SelectedDraft(Pick(env, DocumentOf(input), conv.state).value);
    hide Raises, Pick;
    AppendIsConsistent(env, initial, heard, selected);
    var e := EvidenceFor(env, DocumentOf(input), input);
    if e.Some? { AppendIsConsistent(env, initial, Append(env, heard, selected), RetrievalDraft(e.value)); }
  }

  lemma TurnIsConsistent(env: Env, initial: Dict, conv: Conv, input: Input)
    requires Ready(initial) && Consistent(env, initial, conv) && Ready(conv.state) && !Raises(env, conv.state, input)
    ensures Consistent(env, initial, Turn(env, conv, input))
  {
    if env.inspect(input.text).blocked {
      hide Consistent, Append, Raises;
      AppendIsConsistent(env, initial, conv, Injection(env.inspect(input.text)));
    } else {
      PreparedIsConsistent(env, initial, conv, input);
      AnswerApplies(env, conv, input);
      var prepared, draft := Prepared(env, conv, input), Answer(env, conv, input);
      hide *;
      AppendIsConsistent(env, initial, prepared, draft);
      var answered := Append(env, prepared.(state := Applied(prepared.state, draft)), draft);
      IgnoresLedger(env, initial, answered, Turn(env, conv, input).ledger);
    }
  }

  lemma AnswerApplies(env: Env, conv: Conv, input: Input)
    requires Ready(conv.state) && !Raises(env, conv.state, input) && !env.inspect(input.text).blocked
    ensures var draft, after := Answer(env, conv, input), Turn(env, conv, input);
      var advanced := Prepared(env, conv, input).(state := Applied(conv.state, draft));
      after == Append(env, advanced, draft).(ledger := after.ledger)
  {
    hide Raises, Prepared, PromptOf, Pick, Append, CitationsOf, Generate;
  }

  lemma IgnoresLedger(env: Env, initial: Dict, conv: Conv, ledger: seq<Usage>)
    requires Ready(initial) && Consistent(env, initial, conv)
    ensures Consistent(env, initial, conv.(ledger := ledger))
  {
  }

  lemma ActIsConsistent(env: Env, initial: Dict, conv: Conv, a: Action)
    requires Ready(initial) && Consistent(env, initial, conv) && Ready(conv.state)
    ensures Consistent(env, initial, Act(env, conv, a))
  {
    match a
    case StopIt =>
      AppendIsConsistent(env, initial, conv.(status := Stopped),
        Draft(Finished, System, None, map["reason" := Str("requested")], Observed));
    case Say(input) =>
      hide Raises, Turn, Consistent;
      if !Raises(env, conv.state, input) { TurnIsConsistent(env, initial, conv, input); }
  }

  lemma NewbornIsConsistent(env: Env, conv: Conv)
    requires Newborn(env, conv)
    ensures Consistent(env, conv.state, conv)
  {
  }

  // Main result: over every serial run, of a created, chatting or branched conversation, the stored
  // state is the fold of the log, rows are numbered 1, 2, 3, ... and carry the hash of their state.
  lemma {:induction false} RunIsConsistent(env: Env, conv: Conv, actions: seq<Action>)
    requires Newborn(env, conv)
    ensures Consistent(env, conv.state, Run(env, conv, actions))
  {
    if actions == [] {
      NewbornIsConsistent(env, conv);
    } else {
      RunIsConsistent(env, conv, actions[..|actions| - 1]);
      hide Newborn, Consistent, Act;
      ActIsConsistent(env, conv.state, Run(env, conv, actions[..|actions| - 1]), actions[|actions| - 1]);
    }
  }

  // ... so the turn index counts the replies, from the inherited value on.
  lemma {:induction false} TurnIndexCountsReplies(initial: Dict, log: seq<Row>)
    requires Ready(initial)
    ensures TurnIndex(Fold(initial, log)) == TurnIndex(initial) + SentCount(log)
  {
    if log != [] {
      TurnIndexCountsReplies(initial, log[..|log| - 1]);
    }
  }

  // ---- Messages and prompts -----------------------------------------------------------------------------------------

  lemma {:induction false} MessagesConcat(a: seq<Row>, b: seq<Row>)
    ensures Messages(a + b) == Messages(a) + Messages(b)
    ensures SentCount(a + b) == SentCount(a) + SentCount(b)
  {
    if b == [] {
      assert a + b == a;
    } else {
      assert (a + b)[..|a + b| - 1] == a + b[..|b| - 1];
      MessagesConcat(a, b[..|b| - 1]);
    }
  }

  ghost predicate IsReceived(env: Env, row: Row) {
    && row.draft.kind == Received && row.draft.role == User
    && row.draft.content.Some? && !env.inspect(row.draft.content.value).blocked
  }

  ghost predicate IsSent(env: Env, row: Row) {
    && row.draft.kind == Sent && row.draft.role == Assistant
    && row.draft.content.Some? && !env.inspect(row.draft.content.value).blocked
  }

  // Received and sent messages take turns, received first, and none of them is blocked text.
  ghost predicate Alternate(env: Env, rows: seq<Row>) {
    forall i | 0 <= i < |rows| :: if i % 2 == 0 then IsReceived(env, rows[i]) else IsSent(env, rows[i])
  }

  // The log between two turns: complete exchanges, each with its ledger row.
  ghost predicate WellTold(env: Env, conv: Conv) {
    && Alternate(env, Messages(conv.log)) && |Messages(conv.log)| == 2 * SentCount(conv.log)
    && |conv.ledger| == SentCount(conv.log)
  }

  // The fixed sentence that replaces a blocked reply is not itself blocked.
  ghost predicate SafeReplyPasses(env: Env) {
    !env.inspect(SAFE_REPLY).blocked
  }

  // The rows that a message adds before the prompt is built.
  lemma PreparedUnfolds(env: Env, conv: Conv, input: Input)
    requires !Raises(env, conv.state, input) && !env.inspect(input.text).blocked
    ensures SchemaValid(DocumentOf(input)) && Pick(env, DocumentOf(input), conv.state).Some?
    ensures var e := EvidenceFor(env, DocumentOf(input), input);
      var heard := Append(env, conv, ReceivedDraft(env, input.text));
      var picked := Append(env, heard, SelectedDraft(Pick(env, DocumentOf(input), conv.state).value));
      && (e.Some? <==> Retrieves(DocumentOf(input)))
      && Prepared(env, conv, input) == if e.Some? then Append(env, picked, RetrievalDraft(e.value)) else picked
  {
  }

  lemma AppendAdds(env: Env, conv: Conv, draft: Draft) returns (row: Row)
    ensures row == RowOf(env, conv, draft) && row.draft == draft && row.stateHash == env.hash(conv.state)
    ensures Append(env, conv, draft) == conv.(log := conv.log + [row])
  {
    row := RowOf(env, conv, draft);
  }

  const PREPARED := [Received, Selected]
  const PREPARED_WITH_EVIDENCE := [Received, Selected, RetrievalCompleted]

  lemma PreparedRows(env: Env, conv: Conv, input: Input) returns (rows: seq<Row>)
    requires !Raises(env, conv.state, input) && !env.inspect(input.text).blocked
    ensures SchemaValid(DocumentOf(input)) && Pick(env, DocumentOf(input), conv.state).Some?
    ensures Prepared(env, conv, input) == conv.(log := conv.log + rows)
    ensures KindsOf(rows) == if Retrieves(DocumentOf(input)) then PREPARED_WITH_EVIDENCE else PREPARED
    ensures |rows| > 1 && rows[0].draft == ReceivedDraft(env, input.text)
    ensures rows[1].draft == SelectedDraft(Pick(env, DocumentOf(input), conv.state).value)
    ensures forall i | 0 <= i < |rows| :: rows[i].stateHash == env.hash(conv.state)
  {
    PreparedUnfolds(env, conv, input);
    var received := ReceivedDraft(env, input.text);
    var selected := SelectedDraft(Pick(env, DocumentOf(input), conv.state).value);
    var e := EvidenceFor(env, DocumentOf(input), input);
    assert received.kind == Received && selected.kind == Selected;
    assert e.Some? ==> RetrievalDraft(e.value).kind == RetrievalCompleted;
    hide *;
    if e.Some? {
      rows := ThreeRows(env, conv, received, selected, RetrievalDraft(e.value));
    } else {
      rows := TwoRows(env, conv, received, selected);
    }
  }

  lemma TwoRows(env: Env, conv: Conv, a: Draft, b: Draft) returns (rows: seq<Row>)
    ensures Append(env, Append(env, conv, a), b) == conv.(log := conv.log + rows)
    ensures |rows| == 2 && rows[0].draft == a && rows[1].draft == b
    ensures KindsOf(rows) == [a.kind, b.kind]
    ensures forall i | 0 <= i < |rows| :: rows[i].stateHash == env.hash(conv.state)
  {
    hide Append;
    var first := AppendAdds(env, conv, a);
    var second := AppendAdds(env, Append(env, conv, a), b);
    rows := [first, second];
    assert conv.log + [first] + [second] == conv.log + rows;
  }

  lemma ThreeRows(env: Env, conv: Conv, a: Draft, b: Draft, c: Draft) returns (rows: seq<Row>)
    ensures Append(env, Append(env, Append(env, conv, a), b), c) == conv.(log := conv.log + rows)
    ensures |rows| == 3 && rows[0].draft == a && rows[1].draft == b
    ensures KindsOf(rows) == [a.kind, b.kind, c.kind]
    ensures forall i | 0 <= i < |rows| :: rows[i].stateHash == env.hash(conv.state)
  {
    hide Append;
    var two := TwoRows(env, conv, a, b);
    var third := AppendAdds(env, Append(env, Append(env, conv, a), b), c);
    rows := two + [third];
    assert conv.log + two + [third] == conv.log + rows;
  }

  function KindsOf(rows: seq<Row>): (kinds: seq<Kind>)
    ensures |kinds| == |rows| && forall i | 0 <= i < |rows| :: kinds[i] == rows[i].draft.kind
  {
    seq(|rows|, i requires 0 <= i < |rows| => rows[i].draft.kind)
  }

  lemma KindsGrow(rows: seq<Row>, row: Row)
    ensures KindsOf([]) == [] && KindsOf(rows + [row]) == KindsOf(rows) + [row.draft.kind]
  {
  }

  lemma {:induction false} OnlyFirstIsMessage(rows: seq<Row>)
    requires rows != [] && rows[0].draft.kind == Received
    requires forall i | 0 < i < |rows| :: !IsMessage(rows[i])
    ensures Messages(rows) == [rows[0]] && SentCount(rows) == 0
  {
    if |rows| > 1 {
      OnlyFirstIsMessage(rows[..|rows| - 1]);
    } else {
      assert rows[..0] == [] && rows == [rows[0]];
    }
  }

  lemma PreparedMessages(env: Env, conv: Conv, input: Input) returns (row: Row)
    requires !Raises(env, conv.state, input) && !env.inspect(input.text).blocked
    ensures IsReceived(env, row) && row.draft.content == Some(input.text)
    ensures Messages(Prepared(env, conv, input).log) == Messages(conv.log) + [row]
    ensures SentCount(Prepared(env, conv, input).log) == SentCount(conv.log)
    ensures Prepared(env, conv, input).ledger == conv.ledger
  {
    hide Raises, Prepared, Messages, SentCount, Pick, Retrieves;
    var rows := PreparedRows(env, conv, input);
    row := rows[0];
    assert forall i | 0 < i < |rows| :: KindsOf(rows)[i] != Received && KindsOf(rows)[i] != Sent;
    OnlyFirstIsMessage(rows);
    MessagesConcat(conv.log, rows);
  }

  function RowOf(env: Env, conv: Conv, draft: Draft): Row {
    Row(MaxSequence(conv.log) + 1, draft, env.hash(conv.state))
  }

  lemma AppendedMessage(env: Env, conv: Conv, draft: Draft)
    ensures var row := RowOf(env, conv, draft);
      && Append(env, conv, draft).log == conv.log + [row]
      && Messages(conv.log + [row]) == Messages(conv.log)
        + (if draft.kind == Received || draft.kind == Sent then [row] else [])
      && SentCount(conv.log + [row]) == SentCount(conv.log) + (if draft.kind == Sent then 1 else 0)
  {
  }

  // An answered turn is the answer appended to the prepared conversation, and a ledger row.
  lemma AnsweredTurn(env: Env, conv: Conv, input: Input)
    requires Ready(conv.state) && !Raises(env, conv.state, input) && !env.inspect(input.text).blocked
    ensures var prompt := PromptOf(env, conv, input);
      var state := Advance(conv.state, Str(Pick(env, DocumentOf(input), conv.state).value.action));
      var sent := Append(env, Prepared(env, conv, input).(state := state), Answer(env, conv, input));
      Turn(env, conv, input)
        == sent.(ledger := sent.ledger + [Usage(TokensIn(prompt), Text.WordCount(Generate(prompt)), conv.source)])
  {
  }

  lemma AnswerIs(env: Env, conv: Conv, input: Input)
    requires !Raises(env, conv.state, input) && !env.inspect(input.text).blocked
    ensures SchemaValid(DocumentOf(input)) && Pick(env, DocumentOf(input), conv.state).Some?
    ensures var draft, generated := Answer(env, conv, input), Generate(PromptOf(env, conv, input));
      && draft.kind == Sent && draft.role == Assistant && draft.content == Some(Screened(env, generated))
      && Get(draft.payload, "action") == Str(Pick(env, DocumentOf(input), conv.state).value.action)
  {
    hide Raises, PromptOf, Pick, CitationsOf, Generate, Screened;
    Answerable(env, conv.state, input);
  }

  // What an answered turn adds after the prompt is built.
  lemma SentRow(env: Env, conv: Conv, input: Input) returns (sent: Row)
    requires Ready(conv.state) && !Raises(env, conv.state, input) && !env.inspect(input.text).blocked
    ensures SchemaValid(DocumentOf(input)) && Pick(env, DocumentOf(input), conv.state).Some?
    ensures var after, action := Turn(env, conv, input), Str(Pick(env, DocumentOf(input), conv.state).value.action);
      && after.log == Prepared(env, conv, input).log + [sent] && sent.stateHash == env.hash(after.state)
      && sent.draft == Answer(env, conv, input)
      && Ready(after.state) && Get(Dialogue(after.state), "last_action") == action
    ensures |Turn(env, conv, input).ledger| == |conv.ledger| + 1
  {
    AnswerIs(env, conv, input);
    AnsweredTurn(env, conv, input);
    var rows := PreparedRows(env, conv, input);
    var state := Advance(conv.state, Str(Pick(env, DocumentOf(input), conv.state).value.action));
    hide *;
    sent := AppendAdds(env, Prepared(env, conv, input).(state := state), Answer(env, conv, input));
  }

  lemma AnswerRow(env: Env, conv: Conv, input: Input) returns (sent: Row)
    requires SafeReplyPasses(env) && Ready(conv.state) && !Raises(env, conv.state, input)
    requires !env.inspect(input.text).blocked
    ensures IsSent(env, sent) && Turn(env, conv, input).log == Prepared(env, conv, input).log + [sent]
    ensures |Turn(env, conv, input).ledger| == |conv.ledger| + 1
  {
    hide Raises, Prepared, PromptOf, Pick, Generate, Answer, Turn, Advance, Ready;
    sent := SentRow(env, conv, input);
    AnswerIs(env, conv, input);
  }

  lemma Answerable(env: Env, state: Dict, input: Input)
    requires !Raises(env, state, input) && !env.inspect(input.text).blocked
    ensures SchemaValid(DocumentOf(input)) && Pick(env, DocumentOf(input), state).Some?
  {
  }

  lemma TurnIsWellTold(env: Env, conv: Conv, input: Input)
    requires SafeReplyPasses(env) && WellTold(env, conv) && Ready(conv.state) && !Raises(env, conv.state, input)
    ensures WellTold(env, Turn(env, conv, input))
  {
    if env.inspect(input.text).blocked {
      AppendedMessage(env, conv, Injection(env.inspect(input.text)));
    } else {
      var received := PreparedMessages(env, conv, input);
      var sent := AnswerRow(env, conv, input);
      var prepared, after := Prepared(env, conv, input), Turn(env, conv, input);
      hide Raises, Prepared, Turn, WellTold;
      MessagesConcat(prepared.log, [sent]);
      assert Messages([sent]) == [sent] && SentCount([sent]) == 1;
      Exchange(env, conv, after, received, sent);
    }
  }

  lemma Exchange(env: Env, conv: Conv, after: Conv, received: Row, sent: Row)
    requires WellTold(env, conv) && IsReceived(env, received) && IsSent(env, sent)
    requires Messages(after.log) == Messages(conv.log) + [received] + [sent]
    requires SentCount(after.log) == SentCount(conv.log) + 1 && |after.ledger| == |conv.ledger| + 1
    ensures WellTold(env, after)
  {
  }

  // Main result: in every serial run the messages alternate, received first, none of them is
  // blocked text, and there is one ledger row for each reply.
  lemma {:induction false} RunIsWellTold(env: Env, conv: Conv, actions: seq<Action>)
    requires SafeReplyPasses(env) && Newborn(env, conv)
    ensures WellTold(env, Run(env, conv, actions))
  {
    if actions == [] {
      NewbornIsWellTold(env, conv);
    } else {
      RunIsWellTold(env, conv, actions[..|actions| - 1]);
      var before := Run(env, conv, actions[..|actions| - 1]);
      hide WellTold, Raises, Turn, Newborn;
      match actions[|actions| - 1]
      case Say(input) => if !Raises(env, before.state, input) { TurnIsWellTold(env, before, input); }
      case StopIt => StopIsWellTold(env, before);
    }
  }

  lemma NewbornIsWellTold(env: Env, conv: Conv)
    requires Newborn(env, conv)
    ensures WellTold(env, conv)
  {
  }

  lemma StopIsWellTold(env: Env, conv: Conv)
    requires WellTold(env, conv)
    ensures WellTold(env, Stopping(env, conv))
  {
  }

  // The messages of a prompt after the system text: the last twelve at most, that alternate, end
  // with the current text and hold no blocked text.
  ghost predicate IsWindow(env: Env, told: seq<Row>, text: string, history: seq<Message>) {
    && |history| == Min(12, |told| + 1)
    && history[|history| - 1] == Message(User, text)
    && (forall i | 0 <= i < |history| - 1 :: history[i] == AsMessage(told[|told| + 1 - |history| + i]))
    && (forall i | 0 <= i < |history| :: !env.inspect(history[i].content).blocked)
    && (forall i | 0 <= i < |history| :: history[i].role == if (|history| - 1 - i) % 2 == 0 then User else Assistant)
  }

  // Main result: after any run, the prompt of a turn is the system text and such a window of the
  // messages before it.
  lemma PromptIsWindow(env: Env, conv: Conv, actions: seq<Action>, input: Input)
    requires SafeReplyPasses(env) && Newborn(env, conv)
    requires !Raises(env, Run(env, conv, actions).state, input) && !env.inspect(input.text).blocked
    ensures var before := Run(env, conv, actions);
      IsWindow(env, Messages(before.log), input.text, PromptOf(env, before, input)[1..])
  {
    RunIsWellTold(env, conv, actions);
    hide Run, Newborn, PromptOf, IsWindow, Raises;
    TurnPrompt(env, Run(env, conv, actions), input);
  }

  lemma TurnPrompt(env: Env, before: Conv, input: Input)
    requires WellTold(env, before) && !Raises(env, before.state, input) && !env.inspect(input.text).blocked
    ensures IsWindow(env, Messages(before.log), input.text, PromptOf(env, before, input)[1..])
  {
    var row := PreparedMessages(env, before, input);
    assert PromptOf(env, before, input)[1..] == AsMessages(Suffix(Messages(Prepared(env, before, input).log), WINDOW));
    hide Raises, Prepared, PromptOf, IsWindow, Messages, SentCount, Suffix;
    WindowShape(env, Messages(before.log), row);
  }

  lemma WindowShape(env: Env, told: seq<Row>, row: Row)
    requires Alternate(env, told) && |told| % 2 == 0 && IsReceived(env, row)
    ensures IsWindow(env, told, row.draft.content.Or(""), AsMessages(Suffix(told + [row], WINDOW)))
  {
    var n := Min(WINDOW, |told| + 1);
    var history := AsMessages(Suffix(told + [row], WINDOW));
    SuffixRows(told, row);
    hide Suffix, AsMessage, AsMessages, Alternate, IsSent;
    OneMessage(env, told, row, |told|);
    assert history[n - 1] == AsMessage(row) == Message(User, row.draft.content.Or("")) by { LastMessage(env, row); }
    forall i | 0 <= i < n
      ensures !env.inspect(history[i].content).blocked
      ensures history[i].role == if (n - 1 - i) % 2 == 0 then User else Assistant
    {
      OneMessage(env, told, row, |told| + 1 - n + i);
    }
  }

  lemma LastMessage(env: Env, row: Row)
    requires IsReceived(env, row)
    ensures AsMessage(row) == Message(User, row.draft.content.Or(""))
  {
  }

  lemma SuffixRows(told: seq<Row>, row: Row)
    ensures var n, history := Min(WINDOW, |told| + 1), AsMessages(Suffix(told + [row], WINDOW));
      && |history| == n && history[n - 1] == AsMessage(row)
      && (forall i | 0 <= i < n :: history[i] == AsMessage((told + [row])[|told| + 1 - n + i]))
      && (forall i | 0 <= i < n - 1 :: history[i] == AsMessage(told[|told| + 1 - n + i]))
  {
    hide AsMessage;
  }

  lemma OneMessage(env: Env, told: seq<Row>, row: Row, at: int)
    requires Alternate(env, told) && |told| % 2 == 0 && IsReceived(env, row) && 0 <= at <= |told|
    ensures !env.inspect(AsMessage((told + [row])[at]).content).blocked
    ensures AsMessage((told + [row])[at]).role == if (|told| - at) % 2 == 0 then User else Assistant
  {
  }

  lemma GeneratesEcho(env: Env, conv: Conv, input: Input)
    requires !Raises(env, conv.state, input) && !env.inspect(input.text).blocked
    ensures Generate(PromptOf(env, conv, input)) == Echo(input.text)
  {
    var row := PreparedMessages(env, conv, input);
    var prompt := PromptOf(env, conv, input);
    assert prompt[|prompt| - 1] == AsMessage(row);
    hide Raises, Prepared, Messages, PromptOf, Echo, Suffix, AsMessages;
  }

  // Main result: the reply depends on the current text alone, whatever the history, the document,
  // the retrieved evidence and the status of the conversation.
  lemma ReplyDependsOnTextOnly(env: Env, conv: Conv, input: Input)
    requires Ready(conv.state) && !Raises(env, conv.state, input) && !env.inspect(input.text).blocked
    ensures ReplyOf(env, conv, input).content == Screened(env, Echo(input.text))
    ensures var after := Turn(env, conv, input);
      after.log != [] && after.log[|after.log| - 1].draft.content == Some(Screened(env, Echo(input.text)))
  {
    GeneratesEcho(env, conv, input);
    AnswerIs(env, conv, input);
    var sent := SentRow(env, conv, input);
    hide Raises, Turn, Prepared, PromptOf, Pick, CitationsOf, Generate, Echo, Answer, Screened;
  }

  // The events of an answered turn, with or without retrieval.
  const ANSWERED := [Received, Selected, Sent]
  const ANSWERED_WITH_EVIDENCE := [Received, Selected, RetrievalCompleted, Sent]

  // The rows that answer a message: they come in this order, the action that was selected in the
  // state before the turn is the one sent and remembered, and the reply alone carries the hash of
  // the state after it.
  ghost predicate AreAnswer(env: Env, conv: Conv, input: Input, after: Conv, rows: seq<Row>)
    requires SchemaValid(DocumentOf(input)) && Ready(after.state)
  {
    var picked := Pick(env, DocumentOf(input), conv.state);
    var last := |rows| - 1;
    && KindsOf(rows) == (if Retrieves(DocumentOf(input)) then ANSWERED_WITH_EVIDENCE else ANSWERED)
    && picked.Some?
    && Get(rows[1].draft.payload, "action") == Str(picked.value.action)
    && Get(rows[last].draft.payload, "action") == Str(picked.value.action)
    && Get(Dialogue(after.state), "last_action") == Str(picked.value.action)
    && (forall i | 0 <= i < last :: rows[i].stateHash == env.hash(conv.state))
    && rows[last].stateHash == env.hash(after.state)
  }

  // Main result: a turn keeps the rows of the log, and adds one security event and nothing else, or
  // the rows of an answer.
  lemma TurnGrammar(env: Env, conv: Conv, input: Input) returns (rows: seq<Row>)
    requires Ready(conv.state) && !Raises(env, conv.state, input)
    ensures var after := Turn(env, conv, input);
      && after.log == conv.log + rows
      && if env.inspect(input.text).blocked
         then KindsOf(rows) == [InjectionDetected] && after == conv.(log := after.log)
         else Ready(after.state) && AreAnswer(env, conv, input, after, rows)
  {
    if env.inspect(input.text).blocked {
      hide *;
      rows := BlockedGrammar(env, conv, input);
    } else {
      hide *;
      rows := AnsweredGrammar(env, conv, input);
    }
  }

  lemma BlockedGrammar(env: Env, conv: Conv, input: Input) returns (rows: seq<Row>)
    requires Ready(conv.state) && !Raises(env, conv.state, input) && env.inspect(input.text).blocked
    ensures Turn(env, conv, input) == conv.(log := conv.log + rows) && KindsOf(rows) == [InjectionDetected]
  {
    hide Raises;
    rows := [RowOf(env, conv, Injection(env.inspect(input.text)))];
  }

  lemma AnsweredGrammar(env: Env, conv: Conv, input: Input) returns (rows: seq<Row>)
    requires Ready(conv.state) && !Raises(env, conv.state, input) && !env.inspect(input.text).blocked
    ensures SchemaValid(DocumentOf(input)) && Ready(Turn(env, conv, input).state)
    ensures Turn(env, conv, input).log == conv.log + rows && AreAnswer(env, conv, input, Turn(env, conv, input), rows)
  {
    hide *;
    var prepared := PreparedRows(env, conv, input);
    var sent := SentRow(env, conv, input);
    AnswerIs(env, conv, input);
    rows := prepared + [sent];
    assert conv.log + prepared + [sent] == conv.log + rows;
    TogetherAnswer(env, conv, input, Turn(env, conv, input), prepared, sent);
  }

  lemma TogetherAnswer(env: Env, conv: Conv, input: Input, after: Conv, prepared: seq<Row>, sent: Row)
    requires SchemaValid(DocumentOf(input)) && Ready(after.state) && Pick(env, DocumentOf(input), conv.state).Some?
    requires KindsOf(prepared) == if Retrieves(DocumentOf(input)) then PREPARED_WITH_EVIDENCE else PREPARED
    requires forall i | 0 <= i < |prepared| :: prepared[i].stateHash == env.hash(conv.state)
    requires |prepared| > 1 && prepared[1].draft == SelectedDraft(Pick(env, DocumentOf(input), conv.state).value)
    requires var action := Str(Pick(env, DocumentOf(input), conv.state).value.action);
      && Get(sent.draft.payload, "action") == action
      && Get(Dialogue(after.state), "last_action") == action
    requires sent.draft.kind == Sent && sent.stateHash == env.hash(after.state)
    ensures AreAnswer(env, conv, input, after, prepared + [sent])
  {
    hide Retrieves, Pick, SchemaValid, Ready, KindsOf;
    KindsGrow(prepared, sent);
  }

  lemma AppendIgnores(env: Env, conv: Conv, draft: Draft, status: Status)
    ensures Append(env, conv.(status := status), draft) == Append(env, conv, draft).(status := status)
  {
    hide MaxSequence;
  }

  lemma PreparedIgnores(env: Env, conv: Conv, input: Input, status: Status)
    requires !Raises(env, conv.state, input) && !env.inspect(input.text).blocked
    ensures Prepared(env, conv.(status := status), input) == Prepared(env, conv, input).(status := status)
  {
    var received := ReceivedDraft(env, input.text);
    var selected := SelectedDraft(Pick(env, DocumentOf(input), conv.state).value);
    var e := EvidenceFor(env, DocumentOf(input), input);
    hide Raises, EvidenceFor, Pick, Append;
    AppendIgnores(env, conv, received, status);
    AppendIgnores(env, Append(env, conv, received), selected, status);
    if e.Some? {
      AppendIgnores(env, Append(env, Append(env, conv, received), selected), RetrievalDraft(e.value), status);
    }
  }

  lemma PromptIgnores(env: Env, conv: Conv, input: Input, status: Status)
    requires !Raises(env, conv.state, input) && !env.inspect(input.text).blocked
    ensures PromptOf(env, conv.(status := status), input) == PromptOf(env, conv, input)
    ensures Answer(env, conv.(status := status), input) == Answer(env, conv, input)
  {
    PreparedIgnores(env, conv, input, status);
    hide Raises, Prepared, EvidenceFor, Pick, CitationsOf, Generate, Prompt, SentDraft, Screened;
  }

  // Stopping a conversation does not stop its turns.
  lemma TurnIgnoresStatus(env: Env, conv: Conv, input: Input)
    requires Ready(conv.state) && !Raises(env, conv.state, input)
    ensures Turn(env, conv.(status := Stopped), input) == Turn(env, conv, input).(status := Stopped)
  {
    if env.inspect(input.text).blocked {
      hide Raises, Append;
      AppendIgnores(env, conv, Injection(env.inspect(input.text)), Stopped);
    } else {
      Answerable(env, conv.state, input);
      AnsweredTurn(env, conv, input);
      AnsweredTurn(env, conv.(status := Stopped), input);
      PreparedIgnores(env, conv, input, Stopped);
      PromptIgnores(env, conv, input, Stopped);
      hide *;
      var state := Advance(conv.state, Str(Pick(env, DocumentOf(input), conv.state).value.action));
      AppendIgnores(env, Prepared(env, conv, input).(state := state), Answer(env, conv, input), Stopped);
    }
  }

  // ---- Improved policies -------------------------------------------------------------------------------------

  // A policy that improvement made of another, where both can be looked up.
  ghost predicate Improves(base: Dict, ops: seq<Proposals.Operator>, better: Dict) {
    SchemaValid(base) && SelfImprovement.Run(base, ops) == Some(better)
  }

  lemma ImprovementKeepsPlan(base: Dict, ops: seq<Proposals.Operator>, better: Dict)
    requires Improves(base, ops, better)
    ensures SchemaValid(better)
    ensures Retrieves(better) <==> Retrieves(base)
    ensures PlanIsValid(base) ==> PlanIsValid(better)
  {
    SelfImprovement.DescendantsActAlike(base, ops, map[]);
    if Proposals.RetrievalTuning in ops {
      SelfImprovement.ContextAfterTuning(base, ops);
    } else {
      SelfImprovement.ContextWithoutTuning(base, ops);
    }
    hide SchemaValid, SelfImprovement.Run, Proposals.ContextK, ChoiceOf;
  }

  lemma ImprovementKeepsPick(env: Env, base: Dict, ops: seq<Proposals.Operator>, better: Dict, state: Dict)
    requires Improves(base, ops, better)
    ensures SchemaValid(better) && Pick(env, better, state) == Pick(env, base, state)
  {
    SelfImprovement.DescendantsActAlike(base, ops, state);
    hide SchemaValid, SelfImprovement.Run, ChoiceOf;
  }

  // Main result: no run of improvements makes an answered turn fail or changes what it answers, and
  // so deploying an improved policy disturbs no conversation.
  lemma ImprovementKeepsAnswers(env: Env, conv: Conv, input: Input, base: Dict, ops: seq<Proposals.Operator>,
      better: Dict)
    requires Ready(conv.state) && Improves(base, ops, better) && input.document == Some(base)
    requires !Raises(env, conv.state, input)
    ensures var improved := input.(document := Some(better));
      && !Raises(env, conv.state, improved)
      && ReplyOf(env, conv, improved).content == ReplyOf(env, conv, input).content
      && ReplyOf(env, conv, improved).action == ReplyOf(env, conv, input).action
  {
    var improved := input.(document := Some(better));
    ImprovementKeepsPlan(base, ops, better);
    ImprovementKeepsPick(env, base, ops, better, conv.state);
    hide Improves, SchemaValid, Pick, Retrieves, PlanIsValid, PromptOf, CitationsOf, Generate, TokensIn;
    if !env.inspect(input.text).blocked {
      ReplyDependsOnTextOnly(env, conv, input);
      ReplyDependsOnTextOnly(env, conv, improved);
    }
  }

  // ---- Replay -------------------------------------------------------------------------------------------------------

  ghost predicate AllObserved(rows: seq<Row>) {
    forall i | 0 <= i < |rows| :: rows[i].draft.source == Observed
  }

  lemma {:induction false} ObservedConcat(a: seq<Row>, b: seq<Row>)
    requires AllObserved(b)
    ensures ObservedRows(a + b) == ObservedRows(a) + b
  {
    if b == [] {
      assert a + b == a;
    } else {
      assert (a + b)[..|a + b| - 1] == a + b[..|b| - 1];
      ObservedConcat(a, b[..|b| - 1]);
      assert b == b[..|b| - 1] + [b[|b| - 1]];
    }
  }

  // Turns and stops add observed events, even in a counterfactual branch, and change none.
  lemma ActAddsObserved(env: Env, conv: Conv, a: Action)
    requires Ready(conv.state)
    ensures conv.log <= Act(env, conv, a).log && AllObserved(Act(env, conv, a).log[|conv.log|..])
  {
    hide Raises, Generate, Suffix, Messages, MaxSequence, TokensIn, Pick, PromptOf, CitationsOf, EvidenceFor;
  }

  lemma {:induction false} RunAddsObserved(env: Env, conv: Conv, actions: seq<Action>)
    requires Ready(conv.state)
    ensures conv.log <= Run(env, conv, actions).log && AllObserved(Run(env, conv, actions).log[|conv.log|..])
  {
    if actions != [] {
      RunAddsObserved(env, conv, actions[..|actions| - 1]);
      var before := Run(env, conv, actions[..|actions| - 1]);
      ActAddsObserved(env, before, actions[|actions| - 1]);
      var after := Act(env, before, actions[|actions| - 1]);
      assert after == Run(env, conv, actions);
      hide Act, Run, Ready;
      assert after.log[|conv.log|..] == before.log[|conv.log|..] + after.log[|before.log|..];
    }
  }

  // Main result: exact replay of a branched conversation gives back all of its events but the start,
  // after any run.
  lemma ReplayOfBranch(env: Env, parent: Conv, childId: string, actions: seq<Action>)
    requires Ready(parent.state)
    ensures var child := Run(env, Branched(env, parent, childId), actions);
      child.log != [] && ObservedRows(child.log) == child.log[1..]
  {
    var newborn := Branched(env, parent, childId);
    var child := Run(env, newborn, actions);
    RunAddsObserved(env, newborn, actions);
    hide Run;
    assert child.log == newborn.log + child.log[1..];
    ObservedConcat(newborn.log, child.log[1..]);
  }
}
