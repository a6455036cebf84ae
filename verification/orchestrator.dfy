/** The orchestrator agent: a registry of other agents' cards, fetched over
    JSON-RPC, and a router that recognises discovery requests, lists the
    registry, and delegates a task by keyword to the calculator and the
    translator agents, relaying the last `agent` message each one produces. */
module Orchestrator {
  import opened Wrappers
  import opened JsonValue
  import opened JsonRpc
  import opened Tasks
  import opened AgentCards
  import opened OrderedMaps
  import opened Strings
  import opened Transport

  // ---------------------------------------------------------------- registry

  /** `registered_agents`: cards by name, in registration order. */
  type Registry = OrderedMap<string, AgentCard>

  /** Every card is filed under its own name. */
  predicate RegistryValid(reg: Registry) {
    reg.Valid() && forall n :: n in reg.entries ==> reg.entries[n].name == n
  }

  /** The outcome of `register_agent`: its return value and the registry after it. */
  datatype Registration = Registration(ok: bool, registry: Registry)

  /** The body `register_agent` posts: a `getAgentCard` request with id 1 and no params. */
  function CardRequestBody(): (j: Json)
    ensures DecodeRequest(j) == Success(MakeRequest("getAgentCard", None, IntId(1)))
  {
    RequestRoundTrip(MakeRequest("getAgentCard", None, IntId(1)));
    JObj(EncodeRequest(MakeRequest("getAgentCard", None, IntId(1))))
  }

  /** The card carried by a reply to `getAgentCard`: the status must be 200, the
      body a JSON object with a `result` key, and that result a decodable card.
      Every other reply, including one whose body is not JSON, yields none. */
  function CardOf(o: Outcome): (c: Option<AgentCard>)
    ensures c.Some? <==>
      && o.Replied? && o.reply.status == 200 && o.reply.body.Success?
      && o.reply.body.value.JObj? && "result" in o.reply.body.value.fields
      && DecodeCard(o.reply.body.value.fields["result"]).Success?
    ensures c.Some? ==> DecodeCard(o.reply.body.value.fields["result"]) == Success(c.value)
  {
    match o
    case Unreachable(_) => None
    case Replied(reply) =>
      if reply.status != 200 then None
      else match reply.body
        case Failure(_) => None
        case Success(data) =>
          if !data.JObj? || "result" !in data.fields then None
          else match DecodeCard(data.fields["result"])
            case Success(card) => Some(card)
            case Failure(_) => None
  }

  /** `register_agent`: a card fetched successfully is filed under its own name,
      replacing any earlier card of that name; on any other outcome the answer
      is false and the registry is unchanged. It never fails. */
  function RegisterAgent(reg: Registry, url: string, post: Post): (r: Registration)
    requires RegistryValid(reg)
    ensures RegistryValid(r.registry)
    ensures r.ok <==> CardOf(post(url, CardRequestBody())).Some?
    ensures !r.ok ==> r.registry == reg
    ensures r.ok ==> var card := CardOf(post(url, CardRequestBody())).value;
      && r.registry.entries == reg.entries[card.name := card]
      && (card.name in reg.entries ==> r.registry.keys == reg.keys)
      && (card.name !in reg.entries ==> r.registry.keys == reg.keys + [card.name])
  {
    match CardOf(post(url, CardRequestBody()))
    case None => Registration(false, reg)
    case Some(card) => Registration(true, reg.Put(card.name, card))
  }

  /** Registering two cards of the same name keeps the second, in the position
      the name first took. */
  lemma RegisterLastWriteWins(reg: Registry, url1: string, url2: string, post: Post)
    requires RegistryValid(reg)
    requires CardOf(post(url1, CardRequestBody())).Some? && CardOf(post(url2, CardRequestBody())).Some?
    requires CardOf(post(url1, CardRequestBody())).value.name == CardOf(post(url2, CardRequestBody())).value.name
    ensures var r1 := RegisterAgent(reg, url1, post);
      var r2 := RegisterAgent(r1.registry, url2, post);
      var card := CardOf(post(url2, CardRequestBody())).value;
      && r2.registry.entries[card.name] == card
      && r2.registry.keys == r1.registry.keys
      && |r2.registry.entries| == |r1.registry.entries|
  {
    var r1 := RegisterAgent(reg, url1, post);
    var card := CardOf(post(url2, CardRequestBody())).value;
    PutSize(r1.registry, card.name, card);
  }

  /** Registering against an agent that answers `getAgentCard` with its card,
      as the agent runtime does, files that card, with `None` metadata read back
      as `{}`. */
  lemma RegisterLiveAgent(reg: Registry, url: string, post: Post, card: AgentCard, reason: string)
    requires RegistryValid(reg)
    requires post(url, CardRequestBody())
      == Replied(HttpReply(200, reason, url, Success(JObj(EncodeResponse(ResultResponse(IntId(1), JObj(EncodeCard(card))))))))
    ensures RegisterAgent(reg, url, post).ok
    ensures RegisterAgent(reg, url, post).registry.entries[card.name] == NormalizeCard(card)
  {
    CardRoundTrip(card);
  }

  // ----------------------------------------------------------------- listing

  const NoAgentsText: string :=
    "No agents are currently registered. Please register agents using the orchestrator's register_agent() method."

  /** One skill line of the listing. */
  function SkillLine(s: Skill): string {
    "    - " + s.name + ": " + s.description + "\n"
  }

  function SkillLines(ss: seq<Skill>): string {
    if |ss| == 0 then "" else SkillLine(ss[0]) + SkillLines(ss[1..])
  }

  /** The heading that introduces an agent in the listing. */
  function AgentHeading(name: string): string {
    "**" + name + "**\n"
  }

  /** The block describing one registered agent. */
  function AgentBlock(name: string, card: AgentCard): (b: string)
    ensures StartsWith(b, AgentHeading(name))
  {
    var b := AgentHeading(name) + "  Description: " + card.description + "\n" + "  Skills:\n"
      + SkillLines(card.skills) + "\n";
    assert b[..|AgentHeading(name)|] == AgentHeading(name);
    b
  }

  /** The blocks of the agents named in `names`, in that order. */
  function AgentBlocks(names: seq<string>, cards: map<string, AgentCard>): string
    requires forall k :: 0 <= k < |names| ==> names[k] in cards
  {
    if |names| == 0 then ""
    else AgentBlock(names[0], cards[names[0]]) + AgentBlocks(names[1..], cards)
  }

  /** The listing mentions the heading of every agent whose block it holds. */
  lemma {:induction false} BlocksMentionEach(names: seq<string>, cards: map<string, AgentCard>, i: nat)
    requires forall k :: 0 <= k < |names| ==> names[k] in cards
    requires i < |names|
    ensures Contains(AgentBlocks(names, cards), AgentHeading(names[i]))
    decreases i
  {
    var first := AgentBlock(names[0], cards[names[0]]);
    var rest := AgentBlocks(names[1..], cards);
    if i == 0 {
      assert OccursAt(first + rest, AgentHeading(names[0]), 0) by {
        assert (first + rest)[..|AgentHeading(names[0])|] == first[..|AgentHeading(names[0])|];
      }
    } else {
      BlocksMentionEach(names[1..], cards, i - 1);
      ContainsInConcat(first, rest, "", AgentHeading(names[i]));
      assert first + rest + "" == first + rest;
    }
  }

  /** The header of a non-empty listing. */
  function ListingHeader(n: nat): string {
    "I have access to " + NatToString(n) + " agent(s):\n\n"
  }

  /** `_list_agents`. */
  function ListAgents(reg: Registry): (r: string)
    requires RegistryValid(reg)
    ensures |reg.entries| == 0 ==> r == NoAgentsText
    ensures |reg.entries| > 0 ==> StartsWith(r, ListingHeader(|reg.entries|))
  {
    if |reg.entries| == 0 then NoAgentsText
    else
      var header := ListingHeader(|reg.entries|);
      var r := header + AgentBlocks(reg.keys, reg.entries);
      assert r[..|header|] == header;
      r
  }

  /** A non-empty listing counts the registered agents and names every one of them. */
  lemma ListingMentionsEveryAgent(reg: Registry, name: string)
    requires RegistryValid(reg) && name in reg.entries
    ensures StartsWith(ListAgents(reg), ListingHeader(|reg.keys|))
    ensures Contains(ListAgents(reg), AgentHeading(name))
  {
    SizeIsKeyCount(reg);
    var i :| 0 <= i < |reg.keys| && reg.keys[i] == name;
    BlocksMentionEach(reg.keys, reg.entries, i);
    var header := ListingHeader(|reg.entries|);
    ContainsInConcat(header, AgentBlocks(reg.keys, reg.entries), "", AgentHeading(name));
    assert header + AgentBlocks(reg.keys, reg.entries) + "" == ListAgents(reg);
  }

  // -------------------------------------------------------------- delegation

  /** What a routing step returns: the text, and the requests it put on the wire, in order. */
  datatype Answer = Answer(text: string, sent: seq<Sent>)

  const NoResponseText: string := "No response from agent"

  function DelegationError(name: string, e: string): string {
    "Error delegating to " + name + ": " + e
  }

  /** The `createTask` request: id 1, no params. */
  function CreateTaskBody(): Json {
    JObj(EncodeRequest(MakeRequest("createTask", None, IntId(1))))
  }

  /** The `sendTaskMessage` request: id 2, the task id as received, role `user`. */
  function SendMessageBody(taskId: Json, content: string): Json {
    JObj(EncodeRequest(MakeRequest("sendTaskMessage",
      Some(map["task_id" := taskId, "role" := JStr("user"), "content" := JStr(content)]), IntId(2))))
  }

  /** `create_response.json()["result"]["task_id"]`. */
  function CreatedTaskId(body: Result<Json, string>): (r: Result<Json, string>)
    ensures r.Success? <==>
      && body.Success? && body.value.JObj? && "result" in body.value.fields
      && body.value.fields["result"].JObj? && "task_id" in body.value.fields["result"].fields
    ensures r.Success? ==> r.value == body.value.fields["result"].fields["task_id"]
  {
    var data :- body;
    var result :- Subscript(data, "result");
    Subscript(result, "task_id")
  }

  /** `for msg in reversed(items): if msg["role"] == "agent": return msg["content"]`:
      the content of the last item whose role is `agent`, or `None` when no item
      has it. Looking at an item that is not an object with a `role`, or at the
      `content` of the chosen item, can fail. */
  function ScanBack(items: seq<Json>): (r: Result<Option<Json>, string>)
    ensures r == Success(None) ==> forall i :: 0 <= i < |items| ==>
      (Subscript(items[i], "role").Success? && items[i].fields["role"] != JStr("agent"))
    ensures r.Success? && r.value.Some? ==>
      exists i :: (0 <= i < |items| && Subscript(items[i], "role") == Success(JStr("agent"))
                   && Subscript(items[i], "content") == Success(r.value.value)
                   && forall j :: i < j < |items| ==>
                        (Subscript(items[j], "role").Success? && items[j].fields["role"] != JStr("agent")))
  {
    if |items| == 0 then Success(None)
    else
      var msg := items[|items| - 1];
      var role :- Subscript(msg, "role");
      if role == JStr("agent") then
        var content :- Subscript(msg, "content");
        Success(Some(content))
      else
        var r := ScanBack(items[..|items| - 1]);
        assert forall j :: 0 <= j < |items| - 1 ==> items[..|items| - 1][j] == items[j];
        r
  }

  /** `reversed(messages)` followed by the scan: a list is scanned from the end;
      the keys of a dict and the characters of a string are strings, which
      cannot be subscripted by `"role"`, so only empty ones get through; any
      other value cannot be reversed. */
  function LastAgentMessage(messages: Json): (r: Result<Option<Json>, string>)
    ensures messages.JArr? ==> r == ScanBack(messages.items)
    ensures messages.JObj? || messages.JStr? ==> (r.Success? <==> !Truthy(messages))
    ensures r.Success? && !messages.JArr? ==> r.value.None?
    ensures messages.JNull? || messages.JBool? || messages.JInt? ==> r.Failure?
  {
    match messages
    case JArr(items) => ScanBack(items)
    case JObj(fields) => if |fields| == 0 then Success(None) else Failure("string indices must be integers, not 'str'")
    case JStr(s) => if |s| == 0 then Success(None) else Failure("string indices must be integers, not 'str'")
    case _ => Failure("'" + TypeName(messages) + "' object is not reversible")
  }

  /** What `_delegate_to_agent` makes of the `sendTaskMessage` reply body: the
      last `agent` message of `result["messages"]` (a missing list counts as
      empty), `None` when there is none, or the failure met on the way. */
  function ReplyContent(body: Result<Json, string>): (r: Result<Option<Json>, string>)
    ensures body.Failure? ==> r == Failure(body.error)
    ensures r.Success? ==> body.Success? && body.value.JObj? && "result" in body.value.fields
                           && body.value.fields["result"].JObj?
  {
    var data :- body;
    var result :- Subscript(data, "result");
    var messages :- GetOr(result, "messages", JArr([]));
    LastAgentMessage(messages)
  }

  /** The text `_delegate_to_agent` returns for a decoded `sendTaskMessage` reply. */
  function ContentText(name: string, c: Result<Option<Json>, string>): (r: string)
    ensures c.Failure? ==> r == DelegationError(name, c.error)
    ensures c == Success(None) ==> r == NoResponseText
    ensures c.Success? && c.value.Some? ==> r == PyStr(c.value.value)
  {
    match c
    case Failure(e) => DelegationError(name, e)
    case Success(None) => NoResponseText
    case Success(Some(content)) => PyStr(content)
  }

  /** `_delegate_to_agent`: create a task on the agent, send it the content,
      and relay the last `agent` message of the task it returns. Every failure
      becomes a text: a non-200 status names the step that failed, any other
      failure is reported as an error delegating to the agent. */
  function Delegate(card: AgentCard, content: string, post: Post): (r: Answer)
    ensures 1 <= |r.sent| <= 2 && r.sent[0] == Sent(card.url, CreateTaskBody())
    ensures forall k :: 0 <= k < |r.sent| ==> r.sent[k].url == card.url
    ensures post(card.url, CreateTaskBody()).Unreachable? ==>
      r == Answer(DelegationError(card.name, post(card.url, CreateTaskBody()).error), [Sent(card.url, CreateTaskBody())])
    ensures post(card.url, CreateTaskBody()).Replied? && post(card.url, CreateTaskBody()).reply.status != 200 ==>
      r == Answer("Failed to create task on " + card.name, [Sent(card.url, CreateTaskBody())])
    ensures |r.sent| == 2 <==>
      && post(card.url, CreateTaskBody()).Replied? && post(card.url, CreateTaskBody()).reply.status == 200
      && CreatedTaskId(post(card.url, CreateTaskBody()).reply.body).Success?
    ensures |r.sent| == 2 ==>
      var taskId := CreatedTaskId(post(card.url, CreateTaskBody()).reply.body).value;
      var second := post(card.url, SendMessageBody(taskId, content));
      && r.sent[1] == Sent(card.url, SendMessageBody(taskId, content))
      && (second.Unreachable? ==> r.text == DelegationError(card.name, second.error))
      && (second.Replied? && second.reply.status != 200 ==> r.text == "Failed to send message to " + card.name)
      && (second.Replied? && second.reply.status == 200 ==> r.text == ContentText(card.name, ReplyContent(second.reply.body)))
  {
    var first := Sent(card.url, CreateTaskBody());
    match post(card.url, CreateTaskBody())
    case Unreachable(e) => Answer(DelegationError(card.name, e), [first])
    case Replied(created) =>
      if created.status != 200 then Answer("Failed to create task on " + card.name, [first])
      else match CreatedTaskId(created.body)
        case Failure(e) => Answer(DelegationError(card.name, e), [first])
        case Success(taskId) => SendToCreated(card, content, post, taskId)
  }

  /** The second half of `_delegate_to_agent`: send the content to the created
      task and relay what comes back. */
  function SendToCreated(card: AgentCard, content: string, post: Post, taskId: Json): (r: Answer)
    ensures r.sent == [Sent(card.url, CreateTaskBody()), Sent(card.url, SendMessageBody(taskId, content))]
    ensures var second := post(card.url, SendMessageBody(taskId, content));
      && (second.Unreachable? ==> r.text == DelegationError(card.name, second.error))
      && (second.Replied? && second.reply.status != 200 ==> r.text == "Failed to send message to " + card.name)
      && (second.Replied? && second.reply.status == 200 ==> r.text == ContentText(card.name, ReplyContent(second.reply.body)))
  {
    var body := SendMessageBody(taskId, content);
    var sent := [Sent(card.url, CreateTaskBody()), Sent(card.url, body)];
    match post(card.url, body)
    case Unreachable(e) => Answer(DelegationError(card.name, e), sent)
    case Replied(reply) =>
      if reply.status != 200 then Answer("Failed to send message to " + card.name, sent)
      else Answer(ContentText(card.name, ReplyContent(reply.body)), sent)
  }

  /** Scanning the encoding of a task's messages finds exactly what
      `LastAgentContent` finds on the messages themselves. */
  lemma {:induction false} ScanEncodedMessages(ms: seq<TaskMessage>)
    ensures ScanBack(EncodeMessages(ms)) ==
      match LastAgentContent(ms)
      case None => Success(None)
      case Some(c) => Success(Some(JStr(c)))
    decreases |ms|
  {
    if |ms| > 0 {
      var js := EncodeMessages(ms);
      var last := ms[|ms| - 1];
      assert js[|js| - 1] == JObj(EncodeMessage(last));
      assert js[..|js| - 1] == EncodeMessages(ms[..|ms| - 1]);
      assert JStr(RoleValue(last.role)) == JStr("agent") <==> last.role == AgentRole;
      ScanEncodedMessages(ms[..|ms| - 1]);
    }
  }

  /** Delegating to an agent that answers like the agent runtime (a created
      task, then that task with the exchange appended) relays the content of
      the task's last `agent` message, or says there was none. */
  lemma DelegateToLiveAgent(card: AgentCard, content: string, post: Post, created: Task, updated: Task, reason: string)
    requires post(card.url, CreateTaskBody()) ==
      Replied(HttpReply(200, reason, card.url, Success(JObj(EncodeResponse(ResultResponse(IntId(1), JObj(EncodeTask(created))))))))
    requires post(card.url, SendMessageBody(JStr(created.taskId), content)) ==
      Replied(HttpReply(200, reason, card.url, Success(JObj(EncodeResponse(ResultResponse(IntId(2), JObj(EncodeTask(updated))))))))
    ensures |Delegate(card, content, post).sent| == 2
    ensures LastAgentContent(updated.messages).Some? ==>
      Delegate(card, content, post).text == LastAgentContent(updated.messages).value
    ensures LastAgentContent(updated.messages).None? ==> Delegate(card, content, post).text == NoResponseText
  {
    CreatedTaskOf(created);
    RelayedContentOf(updated);
    DelegateRelays(card, content, post, JStr(created.taskId));
    RelayText(card.name, ReplyContent(Success(JObj(EncodeResponse(ResultResponse(IntId(2), JObj(EncodeTask(updated))))))),
              LastAgentContent(updated.messages));
  }

  /** The text relayed for a content read as `m`. */
  lemma RelayText(name: string, c: Result<Option<Json>, string>, m: Option<string>)
    requires m.None? ==> c == Success(None)
    requires m.Some? ==> c == Success(Some(JStr(m.value)))
    ensures m.Some? ==> ContentText(name, c) == m.value
    ensures m.None? ==> ContentText(name, c) == NoResponseText
  {
  }

  /** When the task is created and the message accepted, the answer is the
      content read from the second reply, after exactly two requests. */
  lemma DelegateRelays(card: AgentCard, content: string, post: Post, taskId: Json)
    requires post(card.url, CreateTaskBody()).Replied? && post(card.url, CreateTaskBody()).reply.status == 200
    requires CreatedTaskId(post(card.url, CreateTaskBody()).reply.body) == Success(taskId)
    requires post(card.url, SendMessageBody(taskId, content)).Replied?
    requires post(card.url, SendMessageBody(taskId, content)).reply.status == 200
    ensures Delegate(card, content, post) ==
      Answer(ContentText(card.name, ReplyContent(post(card.url, SendMessageBody(taskId, content)).reply.body)),
             [Sent(card.url, CreateTaskBody()), Sent(card.url, SendMessageBody(taskId, content))])
  {
  }

  /** The task id read from the runtime's answer to `createTask` is the created task's id. */
  lemma CreatedTaskOf(created: Task)
    ensures CreatedTaskId(Success(JObj(EncodeResponse(ResultResponse(IntId(1), JObj(EncodeTask(created)))))))
            == Success(JStr(created.taskId))
  {
  }

  /** The content relayed from the runtime's answer to `sendTaskMessage` is the
      task's last `agent` message. */
  lemma RelayedContentOf(updated: Task)
    ensures var c := ReplyContent(Success(JObj(EncodeResponse(ResultResponse(IntId(2), JObj(EncodeTask(updated)))))));
      match LastAgentContent(updated.messages)
      case None => c == Success(None)
      case Some(text) => c == Success(Some(JStr(text)))
  {
    var task := JObj(EncodeTask(updated));
    var o := EncodeResponse(ResultResponse(IntId(2), task));
    var messages := JArr(EncodeMessages(updated.messages));
    assert Subscript(JObj(o), "result") == Success(task);
    assert GetOr(task, "messages", JArr([])) == Success(messages);
    assert ReplyContent(Success(JObj(o))) == LastAgentMessage(messages);
    ScanEncodedMessages(updated.messages);
  }

  // ----------------------------------------------------------------- routing

  const CalculatorKeywords: seq<string> := ["calculate", "solve", "+", "-", "*", "/", "=", "equation"]
  const TranslatorKeywords: seq<string> := ["translate", "spanish", "french", "german"]
  const DiscoveryPhrases: seq<string> := ["list agents", "discover agents", "what agents"]

  /** The reply's text before the list of agent names when no agent was
      consulted. It is one string in the source; it is written here in two
      pieces because the verifier does not look more than about forty-five
      characters into a literal, and the proofs below need its first one. */
  const NotSurePrefix: string := "I'm not sure " + "which agent can handle this task. Available agents: "

  /** The delegation to the agent registered under `name`, when the content
      mentions one of its keywords and such an agent is registered. */
  function Consult(reg: Registry, name: string, keywords: seq<string>, content: string, post: Post): (r: Option<Answer>)
    ensures r.Some? <==> ContainsAny(content, keywords) && name in reg.entries
    ensures r.Some? ==> r.value == Delegate(reg.entries[name], content, post)
  {
    if ContainsAny(content, keywords) && name in reg.entries then Some(Delegate(reg.entries[name], content, post))
    else None
  }

  /** `_orchestrate_task`: the calculator and the translator are consulted
      independently; their answers, prefixed and calculator first, are joined
      by a blank line. With no answer the reply lists the registered names. */
  function Orchestrate(reg: Registry, content: string, post: Post): (r: Answer)
    ensures var calculator := Consult(reg, "CalculatorAgent", CalculatorKeywords, content, post);
      var translator := Consult(reg, "TranslatorAgent", TranslatorKeywords, content, post);
      && (calculator.Some? && translator.Some? ==>
            r == Answer("Calculator: " + calculator.value.text + "\n\n" + "Translator: " + translator.value.text,
                        calculator.value.sent + translator.value.sent))
      && (calculator.Some? && translator.None? ==> r == Answer("Calculator: " + calculator.value.text, calculator.value.sent))
      && (calculator.None? && translator.Some? ==> r == Answer("Translator: " + translator.value.text, translator.value.sent))
      && (calculator.None? && translator.None? ==> r == Answer(NotSurePrefix + Join(reg.keys, ", "), []))
  {
    Combine(Consult(reg, "CalculatorAgent", CalculatorKeywords, content, post),
            Consult(reg, "TranslatorAgent", TranslatorKeywords, content, post),
            reg.keys)
  }

  /** The reply built from the two consultations: the list of prefixed answers
      joined by a blank line, or the apology naming the registered agents. */
  function Combine(calculator: Option<Answer>, translator: Option<Answer>, names: seq<string>): (r: Answer)
    ensures calculator.Some? && translator.Some? ==>
      r == Answer("Calculator: " + calculator.value.text + "\n\n" + "Translator: " + translator.value.text,
                  calculator.value.sent + translator.value.sent)
    ensures calculator.Some? && translator.None? ==> r == Answer("Calculator: " + calculator.value.text, calculator.value.sent)
    ensures calculator.None? && translator.Some? ==> r == Answer("Translator: " + translator.value.text, translator.value.sent)
    ensures calculator.None? && translator.None? ==> r == Answer(NotSurePrefix + Join(names, ", "), [])
  {
    var results := (if calculator.Some? then ["Calculator: " + calculator.value.text] else [])
                 + (if translator.Some? then ["Translator: " + translator.value.text] else []);
    var sent := SentBy(calculator) + SentBy(translator);
    if |results| > 0 then
      assert |results| == 2 ==> Join(results, "\n\n") == results[0] + "\n\n" + results[1] by {
        if |results| == 2 { assert results[1..] == [results[1]]; }
      }
      Answer(Join(results, "\n\n"), sent)
    else Answer(NotSurePrefix + Join(names, ", "), [])
  }

  /** The apology opens with a letter that neither answer prefix opens with. */
  lemma NotSurePrefixOpens()
    ensures |NotSurePrefix| > 0 && NotSurePrefix[0] == 'I'
  {
  }

  /** The reply says it is not sure exactly when nothing was delegated, and
      then nothing was sent. */
  lemma NotSureIffNothingSent(reg: Registry, content: string, post: Post)
    ensures var r := Orchestrate(reg, content, post);
      StartsWith(r.text, NotSurePrefix) <==> r.sent == []
  {
    var r := Orchestrate(reg, content, post);
    var calculator := Consult(reg, "CalculatorAgent", CalculatorKeywords, content, post);
    var translator := Consult(reg, "TranslatorAgent", TranslatorKeywords, content, post);
    NotSurePrefixOpens();
    if calculator.Some? {
      assert r.text[0] == 'C' && |calculator.value.sent| > 0;
      FirstCharMismatch(r.text, NotSurePrefix);
    } else if translator.Some? {
      assert r == Answer("Translator: " + translator.value.text, translator.value.sent);
      assert r.text[0] == 'T' && |translator.value.sent| > 0;
      FirstCharMismatch(r.text, NotSurePrefix);
    } else {
      assert r.text[..|NotSurePrefix|] == NotSurePrefix;
    }
  }

  /** Every request the router sends goes to the URL of a registered agent. */
  lemma SentOnlyToRegistered(reg: Registry, content: string, post: Post)
    ensures forall k :: 0 <= k < |Orchestrate(reg, content, post).sent| ==>
      exists n :: n in reg.entries && Orchestrate(reg, content, post).sent[k].url == reg.entries[n].url
  {
    var r := Orchestrate(reg, content, post);
    var calculator := Consult(reg, "CalculatorAgent", CalculatorKeywords, content, post);
    var translator := Consult(reg, "TranslatorAgent", TranslatorKeywords, content, post);
    OrchestrateSent(reg, content, post);
    ConsultSendsTo(reg, "CalculatorAgent", CalculatorKeywords, content, post);
    ConsultSendsTo(reg, "TranslatorAgent", TranslatorKeywords, content, post);
    forall k | 0 <= k < |r.sent| ensures exists n :: n in reg.entries && r.sent[k].url == reg.entries[n].url {
      var x := r.sent[k];
      assert x in SentBy(calculator) + SentBy(translator);
      if x in SentBy(calculator) {
        assert x.url == reg.entries["CalculatorAgent"].url;
      } else {
        assert x.url == reg.entries["TranslatorAgent"].url;
      }
    }
  }

  /** The requests a consultation sent, none when it did not happen. */
  function SentBy(o: Option<Answer>): seq<Sent> {
    if o.Some? then o.value.sent else []
  }

  /** The router sends the calculator's requests, then the translator's, and nothing else. */
  lemma OrchestrateSent(reg: Registry, content: string, post: Post)
    ensures Orchestrate(reg, content, post).sent
            == SentBy(Consult(reg, "CalculatorAgent", CalculatorKeywords, content, post))
               + SentBy(Consult(reg, "TranslatorAgent", TranslatorKeywords, content, post))
  {
  }

  /** A consultation sends requests only to the agent it consults, which is registered. */
  lemma ConsultSendsTo(reg: Registry, name: string, keywords: seq<string>, content: string, post: Post)
    ensures var o := Consult(reg, name, keywords, content, post);
      forall x :: x in SentBy(o) ==> name in reg.entries && x.url == reg.entries[name].url
  {
  }

  /** Whatever the content, the orchestrator sends requests only to registered
      agents; a discovery request sends none, and otherwise the not-sure reply
      comes exactly when nothing was sent. */
  lemma HandleTaskSends(reg: Registry, content: string, post: Post)
    requires RegistryValid(reg)
    ensures var r := HandleTask(reg, content, post);
      && (forall k :: 0 <= k < |r.sent| ==> exists n :: n in reg.entries && r.sent[k].url == reg.entries[n].url)
      && (ContainsAny(Strip(Lower(content)), DiscoveryPhrases) ==> r.sent == [])
      && (!ContainsAny(Strip(Lower(content)), DiscoveryPhrases) ==> (StartsWith(r.text, NotSurePrefix) <==> r.sent == []))
  {
    var c := Strip(Lower(content));
    if !ContainsAny(c, DiscoveryPhrases) {
      SentOnlyToRegistered(reg, c, post);
      NotSureIffNothingSent(reg, c, post);
    }
  }

  /** `handle_task`: the lower-cased, trimmed content is either a discovery
      request, answered by the listing with nothing sent, or routed. */
  function HandleTask(reg: Registry, content: string, post: Post): (r: Answer)
    requires RegistryValid(reg)
    ensures ContainsAny(Strip(Lower(content)), DiscoveryPhrases) ==> r == Answer(ListAgents(reg), [])
    ensures !ContainsAny(Strip(Lower(content)), DiscoveryPhrases) ==> r == Orchestrate(reg, Strip(Lower(content)), post)
  {
    var c := Strip(Lower(content));
    if ContainsAny(c, DiscoveryPhrases) then Answer(ListAgents(reg), [])
    else Orchestrate(reg, c, post)
  }
}
