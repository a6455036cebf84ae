/** The JSON-RPC client of an agent: it numbers its requests 1, 2, 3, ...,
    turns every reply into a result or one of three kinds of error, builds
    the parameter maps of the task methods, and offers a one-call chat. The
    network is a parameter; every call returns the requests it sent. */
module Client {
  import opened Wrappers
  import opened JsonValue
  import opened JsonRpc
  import opened Tasks
  import opened AgentCards
  import opened Strings
  import opened Transport
  import Runtime

  /** The client's state: the agent's URL and the last request id issued. */
  datatype Client = Client(url: string, lastId: nat)

  /** `A2AClient(agent_url)`: trailing slashes are dropped and no id is issued yet. */
  function NewClient(agentUrl: string): (c: Client)
    ensures c.lastId == 0
    ensures StartsWith(agentUrl, c.url)
    ensures forall i :: |c.url| <= i < |agentUrl| ==> agentUrl[i] == '/'
    ensures |c.url| == 0 || c.url[|c.url| - 1] != '/'
  {
    Client(RStripChar(agentUrl, '/'), 0)
  }

  /** The three ways a call can fail, each raised as an `Exception` with its own text. */
  datatype ClientError =
    | RequestFailed(detail: string)          // the transport, the HTTP status or the body's JSON
    | RpcFailed(code: int, message: string)  // the agent answered with a JSON-RPC error
    | Malformed(text: string)                // the answer could not be read as expected
  {
    function Text(): string {
      match this
      case RequestFailed(d) => "Request failed: " + d
      case RpcFailed(code, m) => "RPC Error " + IntToString(code) + ": " + m
      case Malformed(t) => t
    }
  }

  /** The two tagged kinds of error can never be mistaken for one another. */
  lemma ErrorKindsDistinct(detail: string, code: int, message: string)
    ensures RequestFailed(detail).Text() != RpcFailed(code, message).Text()
  {
    var a := RequestFailed(detail).Text();
    var b := RpcFailed(code, message).Text();
    assert a[0] == 'R' && b[0] == 'R';
    assert a[1] == 'e' && b[1] == 'P';
  }

  /** A client operation: the client afterwards, the requests sent, in order, and the outcome. */
  datatype Session<T> = Session(client: Client, sent: seq<Sent>, result: Result<T, ClientError>)

  /** Request `k` of `sent` carries the id `start + 1 + k`. */
  predicate IdsFrom(sent: seq<Sent>, start: nat) {
    forall k :: 0 <= k < |sent| ==>
      sent[k].body.JObj? && "id" in sent[k].body.fields && sent[k].body.fields["id"] == JInt(start + 1 + k)
  }

  /** The session issued one id per request sent, counting on from the client's
      last id, to the client's URL. */
  predicate Counted<T>(c: Client, r: Session<T>) {
    && r.client.url == c.url
    && r.client.lastId == c.lastId + |r.sent|
    && IdsFrom(r.sent, c.lastId)
    && forall k :: 0 <= k < |r.sent| ==> r.sent[k].url == c.url
  }

  /** The body of a request with the given id. */
  function RequestBody(methodName: string, params: Option<Object>, id: nat): (j: Json)
    ensures DecodeRequest(j) == Success(MakeRequest(methodName, params, IntId(id)))
  {
    RequestRoundTrip(MakeRequest(methodName, params, IntId(id)));
    JObj(EncodeRequest(MakeRequest(methodName, params, IntId(id))))
  }

  /** What `_call_method` makes of the reply: a transport failure, an HTTP error
      status or a body that is not JSON is a request failure; an answer that is
      not a response is malformed; a response with an error is an RPC failure;
      otherwise the result. */
  function ReplyResult(o: Outcome): (r: Result<Json, ClientError>)
    ensures o.Unreachable? ==> r == Failure(RequestFailed(o.error))
    ensures o.Replied? && StatusError(o.reply).Some? ==> r == Failure(RequestFailed(StatusError(o.reply).value))
    ensures o.Replied? && StatusError(o.reply).None? && o.reply.body.Failure? ==> r == Failure(RequestFailed(o.reply.body.error))
    ensures r.Success? <==>
      && o.Replied? && StatusError(o.reply).None? && o.reply.body.Success?
      && DecodeResponse(o.reply.body.value).Success? && DecodeResponse(o.reply.body.value).value.error.None?
    ensures r.Success? ==> r.value == DecodeResponse(o.reply.body.value).value.result
    ensures r.Failure? && r.error.RpcFailed? ==>
      && o.Replied? && o.reply.body.Success? && DecodeResponse(o.reply.body.value).Success?
      && var e := DecodeResponse(o.reply.body.value).value.error;
      e.Some? && r.error == RpcFailed(e.value.code, e.value.message)
  {
    match o
    case Unreachable(e) => Failure(RequestFailed(e))
    case Replied(reply) =>
      match StatusError(reply)
      case Some(e) => Failure(RequestFailed(e))
      case None =>
        match reply.body
        case Failure(e) => Failure(RequestFailed(e))
        case Success(data) =>
          match DecodeResponse(data)
          case Failure(e) => Failure(Malformed(e))
          case Success(response) =>
            match response.error
            case Some(err) => Failure(RpcFailed(err.code, err.message))
            case None => Success(response.result)
  }

  /** `_call_method`: the next id is taken before anything is sent, so a failed
      call still uses one up. */
  function CallMethod(c: Client, methodName: string, params: Option<Object>, post: Post): (r: Session<Json>)
    ensures Counted(c, r) && |r.sent| == 1
    ensures r.sent[0] == Sent(c.url, RequestBody(methodName, params, c.lastId + 1))
    ensures r.result == ReplyResult(post(c.url, RequestBody(methodName, params, c.lastId + 1)))
  {
    var id := c.lastId + 1;
    var body := RequestBody(methodName, params, id);
    Session(c.(lastId := id), [Sent(c.url, body)], ReplyResult(post(c.url, body)))
  }

  /** Against an agent that serves the request with the agent runtime, a call
      returns exactly the runtime's result, or the runtime's error code and
      message as an RPC failure. */
  lemma CallAgainstRuntime(c: Client, methodName: string, params: Option<Object>, post: Post,
                           a: Runtime.Agent, env: Runtime.Env, reason: string)
    requires a.Valid()
    requires var body := RequestBody(methodName, params, c.lastId + 1);
      var answer := Runtime.HandleBody(a, env, Success(body));
      post(c.url, body) == Replied(HttpReply(answer.status, reason, c.url, Success(JObj(EncodeResponse(answer.response)))))
    ensures var served := Runtime.Dispatch(a, env, MakeRequest(methodName, params, IntId(c.lastId + 1))).response;
      var r := CallMethod(c, methodName, params, post).result;
      && (served.error.None? ==> r == Success(served.result))
      && (served.error.Some? ==> r == Failure(RpcFailed(served.error.value.code, served.error.value.message)))
  {
    var req := MakeRequest(methodName, params, IntId(c.lastId + 1));
    Runtime.ServeRequest(a, env, req);
    CallAnswered(c, methodName, params, post, Runtime.Dispatch(a, env, req).response, reason);
  }

  /** A call answered with status 200 and a response of the runtime's shape
      returns that response's result, or its error as an RPC failure. */
  lemma CallAnswered(c: Client, methodName: string, params: Option<Object>, post: Post, served: Response, reason: string)
    requires served.error.None? || served.result == JNull
    requires post(c.url, RequestBody(methodName, params, c.lastId + 1))
      == Replied(HttpReply(200, reason, c.url, Success(JObj(EncodeResponse(served)))))
    ensures var r := CallMethod(c, methodName, params, post).result;
      && (served.error.None? ==> r == Success(served.result))
      && (served.error.Some? ==> r == Failure(RpcFailed(served.error.value.code, served.error.value.message)))
  {
    CallResult(c, methodName, params, post);
    ReadResponse(served, reason, c.url);
  }

  /** The result of a call is what is read from the reply to its request. */
  lemma CallResult(c: Client, methodName: string, params: Option<Object>, post: Post)
    ensures CallMethod(c, methodName, params, post).result
      == ReplyResult(post(c.url, RequestBody(methodName, params, c.lastId + 1)))
  {
  }

  /** Reading back a response the agent runtime can send (one of `result` and
      `error`) gives its result, or its error as an RPC failure. */
  lemma ReadResponse(served: Response, reason: string, url: string)
    requires served.error.None? || served.result == JNull
    ensures var r := ReplyResult(Replied(HttpReply(200, reason, url, Success(JObj(EncodeResponse(served))))));
      && (served.error.None? ==> r == Success(served.result))
      && (served.error.Some? ==> r == Failure(RpcFailed(served.error.value.code, served.error.value.message)))
  {
    ResponseRoundTrip(served);
    assert StatusError(HttpReply(200, reason, url, Success(JObj(EncodeResponse(served))))).None?;
  }

  /** A result that is handed on to a decoder: its failure is raised as is. */
  function Decoded<T>(r: Result<T, string>): (d: Result<T, ClientError>)
    ensures d.Success? <==> r.Success?
    ensures r.Success? ==> d.value == r.value
    ensures r.Failure? ==> d.error == Malformed(r.error)
  {
    match r
    case Success(v) => Success(v)
    case Failure(e) => Failure(Malformed(e))
  }

  /** `get_agent_card`. */
  function GetAgentCard(c: Client, post: Post): (r: Session<AgentCard>)
    ensures Counted(c, r) && |r.sent| == 1
    ensures r.sent[0].body == RequestBody("getAgentCard", None, c.lastId + 1)
    ensures var call := CallMethod(c, "getAgentCard", None, post).result;
      && (call.Failure? ==> r.result == Failure(call.error))
      && (call.Success? ==> r.result == Decoded(DecodeCard(call.value)))
  {
    var call := CallMethod(c, "getAgentCard", None, post);
    match call.result
    case Failure(e) => Session(call.client, call.sent, Failure(e))
    case Success(result) => Session(call.client, call.sent, Decoded(DecodeCard(result)))
  }

  /** The `create_task` parameters: `task_id` and `metadata` only when truthy. */
  function CreateParams(taskId: Option<string>, metadata: Option<Object>): (p: Object)
    ensures "task_id" in p <==> taskId.Some? && taskId.value != ""
    ensures "metadata" in p <==> metadata.Some? && |metadata.value| > 0
    ensures p.Keys <= {"task_id", "metadata"}
    ensures "task_id" in p ==> p["task_id"] == JStr(taskId.value)
    ensures "metadata" in p ==> p["metadata"] == JObj(metadata.value)
  {
    var withId: Object := if taskId.Some? && taskId.value != "" then map["task_id" := JStr(taskId.value)] else map[];
    if metadata.Some? && |metadata.value| > 0 then withId["metadata" := JObj(metadata.value)] else withId
  }

  /** The result of a call that returns a task, decoded on the client's clock. */
  function TaskResult(call: Result<Json, ClientError>, now: string): (r: Result<Task, ClientError>)
    ensures call.Failure? ==> r == Failure(call.error)
    ensures call.Success? ==> r == Decoded(DecodeTask(call.value, now))
  {
    match call
    case Failure(e) => Failure(e)
    case Success(result) => Decoded(DecodeTask(result, now))
  }

  /** `create_task`: the parameter map is always sent, even when empty. */
  function CreateTask(c: Client, taskId: Option<string>, metadata: Option<Object>, post: Post, now: string): (r: Session<Task>)
    ensures Counted(c, r) && |r.sent| == 1
    ensures r.sent[0].body == RequestBody("createTask", Some(CreateParams(taskId, metadata)), c.lastId + 1)
    ensures r.result == TaskResult(CallMethod(c, "createTask", Some(CreateParams(taskId, metadata)), post).result, now)
  {
    var call := CallMethod(c, "createTask", Some(CreateParams(taskId, metadata)), post);
    Session(call.client, call.sent, TaskResult(call.result, now))
  }

  /** The `send_message` parameters: task id, content and the role's value
      always, `metadata` only when truthy. */
  function MessageParams(taskId: string, content: string, role: MessageRole, metadata: Option<Object>): (p: Object)
    ensures p.Keys == {"task_id", "content", "role"} + (if metadata.Some? && |metadata.value| > 0 then {"metadata"} else {})
    ensures p["task_id"] == JStr(taskId) && p["content"] == JStr(content) && p["role"] == JStr(RoleValue(role))
    ensures "metadata" in p ==> p["metadata"] == JObj(metadata.value)
  {
    var base := map["task_id" := JStr(taskId), "content" := JStr(content), "role" := JStr(RoleValue(role))];
    if metadata.Some? && |metadata.value| > 0 then base["metadata" := JObj(metadata.value)] else base
  }

  /** The message parameters are what the agent runtime reads back as the
      inbound message: the same role, content and metadata. */
  lemma MessageParamsRead(taskId: string, content: string, role: MessageRole, metadata: Option<Object>, now: string)
    ensures var m := Runtime.InboundMessage(MessageParams(taskId, content, role, metadata), now);
      && m.Success? && m.value.role == role && m.value.content == content
      && m.value.metadata == (if metadata.Some? && |metadata.value| > 0 then metadata else None)
  {
    var p := MessageParams(taskId, content, role, metadata);
    ParseRoleValue(role);
    assert Lookup(p, "role", JStr("user")) == JStr(RoleValue(role));
    assert Lookup(p, "metadata", JNull) == if metadata.Some? && |metadata.value| > 0 then JObj(metadata.value) else JNull;
  }

  /** `send_message`. */
  function SendMessage(c: Client, taskId: string, content: string, role: MessageRole, metadata: Option<Object>,
                       post: Post, now: string): (r: Session<Task>)
    ensures Counted(c, r) && |r.sent| == 1
    ensures r.sent[0].body == RequestBody("sendTaskMessage", Some(MessageParams(taskId, content, role, metadata)), c.lastId + 1)
    ensures r.result == TaskResult(CallMethod(c, "sendTaskMessage", Some(MessageParams(taskId, content, role, metadata)), post).result, now)
  {
    var call := CallMethod(c, "sendTaskMessage", Some(MessageParams(taskId, content, role, metadata)), post);
    Session(call.client, call.sent, TaskResult(call.result, now))
  }

  /** `get_task`. */
  function GetTask(c: Client, taskId: string, post: Post, now: string): (r: Session<Task>)
    ensures Counted(c, r) && |r.sent| == 1
    ensures r.sent[0].body == RequestBody("getTask", Some(map["task_id" := JStr(taskId)]), c.lastId + 1)
    ensures r.result == TaskResult(CallMethod(c, "getTask", Some(map["task_id" := JStr(taskId)]), post).result, now)
  {
    var call := CallMethod(c, "getTask", Some(map["task_id" := JStr(taskId)]), post);
    Session(call.client, call.sent, TaskResult(call.result, now))
  }

  /** `[Task.from_dict(x) for x in tasks]`: a list is decoded item by item;
      iterating a string or a dict yields strings, which are not tasks, so
      only empty ones get through; anything else cannot be iterated. */
  function DecodeTaskList(tasks: Json, now: string): (r: Result<seq<Task>, string>)
    ensures tasks.JArr? ==> r == DecodeEach(tasks.items, j => DecodeTask(j, now))
    ensures tasks.JStr? || tasks.JObj? ==> (r.Success? <==> !Truthy(tasks))
    ensures r.Success? && !tasks.JArr? ==> r.value == []
    ensures tasks.JNull? || tasks.JBool? || tasks.JInt? ==> r.Failure?
  {
    match tasks
    case JArr(items) => DecodeEach(items, j => DecodeTask(j, now))
    case JStr(s) => if |s| == 0 then Success([]) else Failure("'str' object has no attribute 'get'")
    case JObj(f) => if |f| == 0 then Success([]) else Failure("'str' object has no attribute 'get'")
    case _ => Failure("'" + TypeName(tasks) + "' object is not iterable")
  }

  /** `list_tasks`. */
  function ListTasks(c: Client, post: Post, now: string): (r: Session<seq<Task>>)
    ensures Counted(c, r) && |r.sent| == 1
    ensures r.sent[0].body == RequestBody("listTasks", None, c.lastId + 1)
    ensures var call := CallMethod(c, "listTasks", None, post).result;
      && (call.Failure? ==> r.result == Failure(call.error))
      && (call.Success? && call.value.JObj? && "tasks" in call.value.fields ==>
            r.result == Decoded(DecodeTaskList(call.value.fields["tasks"], now)))
      && (call.Success? && !(call.value.JObj? && "tasks" in call.value.fields) ==>
            r.result == Failure(Malformed(Subscript(call.value, "tasks").error)))
  {
    var call := CallMethod(c, "listTasks", None, post);
    match call.result
    case Failure(e) => Session(call.client, call.sent, Failure(e))
    case Success(result) =>
      match Subscript(result, "tasks")
      case Failure(e) => Session(call.client, call.sent, Failure(Malformed(e)))
      case Success(tasks) => Session(call.client, call.sent, Decoded(DecodeTaskList(tasks, now)))
  }

  /** The text `chat` returns for the task the agent sends back. */
  function ChatReply(t: Task): (s: string)
    ensures LastAgentContent(t.messages).Some? ==> s == LastAgentContent(t.messages).value
    ensures LastAgentContent(t.messages).None? ==> s == "No response from agent"
  {
    match LastAgentContent(t.messages)
    case Some(content) => content
    case None => "No response from agent"
  }

  /** `chat`: a task is created first only when no task id, or an empty one,
      is given; the message is then sent as the user, and the last `agent`
      message of the returned task is the answer. */
  function Chat(c: Client, message: string, taskId: Option<string>, post: Post, now: string): (r: Session<string>)
    ensures Counted(c, r) && 1 <= |r.sent| <= 2
    ensures taskId.Some? && taskId.value != "" ==>
      var sent := SendMessage(c, taskId.value, message, UserRole, None, post, now);
      && r.sent == sent.sent
      && (sent.result.Success? ==> r.result == Success(ChatReply(sent.result.value)))
      && (sent.result.Failure? ==> r.result == Failure(sent.result.error))
    ensures (taskId.None? || taskId.value == "") ==>
      var created := CreateTask(c, None, None, post, now);
      && r.sent[0] == created.sent[0]
      && (created.result.Failure? ==> r == Session(created.client, created.sent, Failure(created.result.error)))
      && (created.result.Success? ==>
            var sent := SendMessage(created.client, created.result.value.taskId, message, UserRole, None, post, now);
            && r.sent == created.sent + sent.sent
            && (sent.result.Success? ==> r.result == Success(ChatReply(sent.result.value)))
            && (sent.result.Failure? ==> r.result == Failure(sent.result.error)))
  {
    if taskId.Some? && taskId.value != "" then
      Reply(SendMessage(c, taskId.value, message, UserRole, None, post, now))
    else
      AfterCreate(c, CreateTask(c, None, None, post, now), message, post, now)
  }

  /** The rest of `chat` once a task has been asked for: a failure ends the
      session, a created task is sent the message as the user. */
  function AfterCreate(c: Client, created: Session<Task>, message: string, post: Post, now: string): (r: Session<string>)
    requires Counted(c, created) && |created.sent| == 1
    ensures Counted(c, r) && 1 <= |r.sent| <= 2 && r.sent[0] == created.sent[0]
    ensures created.result.Failure? ==> r == Session(created.client, created.sent, Failure(created.result.error))
    ensures created.result.Success? ==>
      var sent := SendMessage(created.client, created.result.value.taskId, message, UserRole, None, post, now);
      && r.sent == created.sent + sent.sent
      && (sent.result.Success? ==> r.result == Success(ChatReply(sent.result.value)))
      && (sent.result.Failure? ==> r.result == Failure(sent.result.error))
  {
    match created.result
    case Failure(e) => Session(created.client, created.sent, Failure(e))
    case Success(task) =>
      var sent := SendMessage(created.client, task.taskId, message, UserRole, None, post, now);
      var r := Reply(sent);
      CountedThen(c, created, r);
      Session(r.client, created.sent + r.sent, r.result)
  }

  /** The answer of a `chat` session, read off the task it got back. */
  function Reply(s: Session<Task>): (r: Session<string>)
    ensures r.client == s.client && r.sent == s.sent
    ensures s.result.Success? ==> r.result == Success(ChatReply(s.result.value))
    ensures s.result.Failure? ==> r.result == Failure(s.result.error)
  {
    match s.result
    case Success(t) => Session(s.client, s.sent, Success(ChatReply(t)))
    case Failure(e) => Session(s.client, s.sent, Failure(e))
  }

  /** Successive calls keep counting: two sessions run one after the other
      issue the ids `n + 1`, `n + 2`, ... without gap or repetition. */
  lemma {:induction false} CountedThen<S, T>(c: Client, first: Session<S>, second: Session<T>)
    requires Counted(c, first) && Counted(first.client, second)
    ensures Counted(c, Session(second.client, first.sent + second.sent, second.result))
  {
    var all := first.sent + second.sent;
    forall k | 0 <= k < |all|
      ensures all[k].body.JObj? && "id" in all[k].body.fields && all[k].body.fields["id"] == JInt(c.lastId + 1 + k)
      ensures all[k].url == c.url
    {
      if k < |first.sent| {
        assert all[k] == first.sent[k];
      } else {
        assert all[k] == second.sent[k - |first.sent|];
      }
    }
  }

  /** `health_check`: the agent's answer, or, on any failure, a report that it
      is unhealthy with the failure's text. It never fails. */
  function HealthCheck(c: Client, get: Get): (r: Json)
    ensures var o := get(c.url + "/health");
      && (o.Replied? && StatusError(o.reply).None? && o.reply.body.Success? ==> r == o.reply.body.value)
      && (o.Unreachable? ==> r == Unhealthy(o.error))
      && (o.Replied? && StatusError(o.reply).Some? ==> r == Unhealthy(StatusError(o.reply).value))
      && (o.Replied? && StatusError(o.reply).None? && o.reply.body.Failure? ==> r == Unhealthy(o.reply.body.error))
  {
    match get(c.url + "/health")
    case Unreachable(e) => Unhealthy(e)
    case Replied(reply) =>
      match StatusError(reply)
      case Some(e) => Unhealthy(e)
      case None =>
        match reply.body
        case Failure(e) => Unhealthy(e)
        case Success(data) => data
  }

  /** The report of a failed health check. */
  function Unhealthy(e: string): (j: Json)
    ensures j.JObj? && j.fields.Keys == {"status", "error"}
    ensures j.fields["status"] == JStr("unhealthy") && j.fields["error"] == JStr(e)
  {
    JObj(map["status" := JStr("unhealthy"), "error" := JStr(e)])
  }

  /** A health check against the agent runtime's `/health` route reports the
      agent healthy, by name. */
  lemma HealthOfRuntime(c: Client, get: Get, a: Runtime.Agent, reason: string)
    requires get(c.url + "/health") == Replied(HttpReply(200, reason, c.url + "/health", Success(JObj(Runtime.Health(a)))))
    ensures HealthCheck(c, get) == JObj(map["status" := JStr("healthy"), "agent" := JStr(a.name)])
  {
    assert Runtime.Health(a) == map["status" := JStr("healthy"), "agent" := JStr(a.name)];
  }
}
