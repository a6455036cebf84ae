/** The agent runtime: a method table, a task store kept in insertion order,
    the five standard A2A methods that drive the task lifecycle
    (pending, then in progress, then completed or failed), and the JSON-RPC
    dispatcher that turns a request into a response.

    The state of an agent is a value; every operation returns the next state.
    The agent's own card, the clock, fresh task ids and the domain logic of
    `handle_task` are parameters. */
module Runtime {
  import opened Wrappers
  import opened JsonValue
  import opened JsonRpc
  import opened Tasks
  import opened AgentCards
  import opened OrderedMaps
  import Strings

  // ------------------------------------------------------------ method table

  /** What a method name is bound to: one of the five standard handlers, or a
      handler registered later, identified by a tag. */
  datatype Handler =
    | GetAgentCard
    | CreateTask
    | SendTaskMessage
    | GetTask
    | ListTasks
    | Extension(tag: nat)

  type MethodTable = OrderedMap<string, Handler>

  /** `register_method`: binding a name that is already bound replaces its handler. */
  function RegisterMethod(t: MethodTable, name: string, h: Handler): (r: MethodTable)
    requires t.Valid()
    ensures r.Valid()
    ensures name in r.entries && r.entries[name] == h
    ensures forall n :: n in t.entries && n != name ==> n in r.entries && r.entries[n] == t.entries[n]
    ensures r.entries.Keys == t.entries.Keys + {name}
    ensures name in t.entries ==> r.keys == t.keys
    ensures name !in t.entries ==> r.keys == t.keys + [name]
  {
    t.Put(name, h)
  }

  /** Registering twice under one name is the same as registering the second handler only. */
  lemma RegisterLastWriteWins(t: MethodTable, name: string, h1: Handler, h2: Handler)
    requires t.Valid()
    ensures RegisterMethod(RegisterMethod(t, name, h1), name, h2) == RegisterMethod(t, name, h2)
  {
    var t1 := t.Put(name, h1);
    assert t1.entries[name := h2] == t.entries[name := h2];
    assert t1.Put(name, h2).keys == t.Put(name, h2).keys;
  }

  /** The table `_register_standard_methods` builds: five names, each bound
      to its own handler, in registration order. */
  function StandardMethods(): (t: MethodTable)
    ensures t.Valid()
    ensures t.keys == ["getAgentCard", "createTask", "sendTaskMessage", "getTask", "listTasks"]
    ensures t.entries == map["getAgentCard" := GetAgentCard, "createTask" := CreateTask,
                             "sendTaskMessage" := SendTaskMessage, "getTask" := GetTask,
                             "listTasks" := ListTasks]
  {
    OrderedMap(["getAgentCard", "createTask", "sendTaskMessage", "getTask", "listTasks"],
               map["getAgentCard" := GetAgentCard, "createTask" := CreateTask,
                   "sendTaskMessage" := SendTaskMessage, "getTask" := GetTask,
                   "listTasks" := ListTasks])
  }

  /** A fresh agent answers exactly five method names. */
  lemma StandardMethodCount()
    ensures |StandardMethods().entries| == 5
  {
    SizeIsKeyCount(StandardMethods());
  }

  // ------------------------------------------------------------------- agent

  datatype Agent = Agent(name: string, card: AgentCard, methods: MethodTable, tasks: OrderedMap<string, Task>) {

    /** Both tables are well-formed dictionaries, and every task is stored under its own id. */
    predicate Valid() {
      && methods.Valid()
      && tasks.Valid()
      && forall id :: id in tasks.entries ==> tasks.entries[id].taskId == id
    }
  }

  /** `BaseAgent.__init__`: the standard methods and no tasks. */
  function NewAgent(name: string, card: AgentCard): (a: Agent)
    ensures a.Valid()
    ensures a.name == name && a.card == card
    ensures a.methods == StandardMethods()
    ensures a.tasks.keys == [] && a.tasks.entries == map[]
  {
    Agent(name, card, StandardMethods(), Empty())
  }

  /** What one request may consult beyond the agent: the clock, the id
      `uuid.uuid4()` would produce, the subclass's `handle_task`, and the
      handlers registered under `Extension` tags. */
  datatype Env = Env(
    now: string,
    freshId: string,
    handleTask: (string, TaskMessage) -> Result<string, string>,
    extension: (nat, Object) -> Result<Json, string>)

  /** A handler's normal return: the next state of the agent and the `result` value. */
  datatype Applied = Applied(agent: Agent, result: Json)

  // ---------------------------------------------------------- task handlers

  /** The text of the `ValueError` raised for a task id that is not usable. */
  function TaskNotFound(id: Json): string {
    "Task '" + PyStr(id) + "' not found"
  }

  /** `params.get("task_id")` checked by `not task_id or task_id not in self.tasks`:
      a falsy id is rejected first, an unhashable one makes the membership test
      raise, and any other id must be a stored key. */
  function FindTask(tasks: OrderedMap<string, Task>, params: Object): (r: Result<string, string>)
    ensures r.Success? <==> "task_id" in params && params["task_id"].JStr?
                            && params["task_id"].s != "" && params["task_id"].s in tasks.entries
    ensures r.Success? ==> params["task_id"] == JStr(r.value)
    ensures "task_id" !in params ==> r == Failure("Task 'None' not found")
    ensures "task_id" in params && params["task_id"].JStr? && params["task_id"].s !in tasks.entries ==>
      r == Failure("Task '" + params["task_id"].s + "' not found")
  {
    assert TaskNotFound(JNull) == "Task 'None' not found";
    var id := Lookup(params, "task_id", JNull);
    if !Truthy(id) then Failure(TaskNotFound(id))
    else match id
      case JArr(_) => Failure("unhashable type: 'list'")
      case JObj(_) => Failure("unhashable type: 'dict'")
      case JStr(s) => if s in tasks.entries then Success(s) else Failure(TaskNotFound(id))
      case _ => Failure(TaskNotFound(id))
  }

  /** `_create_task`: the id defaults to a fresh one and the metadata to `{}`;
      given metadata is stored as it is, an explicit `null` as `None`; the new task is pending
      with no messages and replaces any task stored under the same id. */
  function HandleCreateTask(a: Agent, env: Env, params: Object): (r: Result<Applied, string>)
    requires a.Valid()
    ensures r.Success? <==> ("task_id" !in params || params["task_id"].JStr?)
                            && ("metadata" !in params || params["metadata"].JNull? || params["metadata"].JObj?)
    ensures r.Success? ==>
      var id := if "task_id" in params then params["task_id"].s else env.freshId;
      var b := r.value.agent;
      && b.Valid()
      && b.name == a.name && b.card == a.card && b.methods == a.methods
      && id in b.tasks.entries
      && b.tasks.entries == a.tasks.entries[id := b.tasks.entries[id]]
      && (id in a.tasks.entries ==> b.tasks.keys == a.tasks.keys)
      && (id !in a.tasks.entries ==> b.tasks.keys == a.tasks.keys + [id])
      && b.tasks.entries[id].status == Pending
      && b.tasks.entries[id].messages == []
      && b.tasks.entries[id].createdAt == env.now && b.tasks.entries[id].updatedAt == env.now
      && ("metadata" !in params ==> b.tasks.entries[id].metadata == Some(map[]))
      && ("metadata" in params && params["metadata"].JObj? ==>
            b.tasks.entries[id].metadata == Some(params["metadata"].fields))
      && ("metadata" in params && params["metadata"].JNull? ==> b.tasks.entries[id].metadata == None)
      && r.value.result == JObj(EncodeTask(b.tasks.entries[id]))
  {
    var taskId :- AsString(Lookup(params, "task_id", JStr(env.freshId)), "task_id");
    var metadata :- AsOptObject(Lookup(params, "metadata", JObj(map[])), "metadata");
    var task := NewTask(taskId, Pending, [], metadata, None, None, env.now);
    Success(Applied(a.(tasks := a.tasks.Put(taskId, task)), JObj(EncodeTask(task))))
  }

  /** The body of `_send_task_message` once the inbound message is built: the
      message is appended and the task goes in progress; then the reply of
      `handle_task` is appended as an agent message and the task completes, or
      its exception text is appended as a system message and the task fails. */
  function Process(t: Task, inbound: TaskMessage, outcome: Result<string, string>, now: string): (r: Task)
    ensures |r.messages| == |t.messages| + 2
    ensures r.messages[..|t.messages|] == t.messages && r.messages[|t.messages|] == inbound
    ensures r.taskId == t.taskId && r.metadata == t.metadata && r.createdAt == t.createdAt
    ensures r.updatedAt == now
    ensures var last := r.messages[|t.messages| + 1];
      && last.timestamp == now && last.metadata == None
      && (outcome.Success? ==> r.status == Completed && last.role == AgentRole && last.content == outcome.value)
      && (outcome.Failure? ==> r.status == Failed && last.role == SystemRole
                               && Strings.StartsWith(last.content, "Error processing task: ")
                               && last.content == "Error processing task: " + outcome.error)
  {
    var received := AddMessage(t, inbound, now).(status := InProgress);
    match outcome
    case Success(reply) =>
      AddMessage(received, NewMessage(AgentRole, reply, None, None, now), now).(status := Completed)
    case Failure(e) =>
      var text := "Error processing task: " + e;
      assert text[..|"Error processing task: "|] == "Error processing task: ";
      AddMessage(received.(status := Failed), NewMessage(SystemRole, text, None, None, now), now)
  }

  /** The inbound message of `_send_task_message`: the role defaults to `user`
      and is checked first, then `content` is required, then the metadata is read. */
  function InboundMessage(params: Object, now: string): (r: Result<TaskMessage, string>)
    ensures r.Success? <==> ParseRole(Lookup(params, "role", JStr("user"))).Success?
                            && "content" in params && params["content"].JStr?
                            && AsOptObject(Lookup(params, "metadata", JNull), "").Success?
    ensures r.Success? ==> JStr(r.value.content) == params["content"] && r.value.timestamp == now
    ensures r.Success? ==> ("role" !in params ==> r.value.role == UserRole)
    ensures r.Success? ==> ("role" in params ==> params["role"] == JStr(RoleValue(r.value.role)))
    ensures ParseRole(Lookup(params, "role", JStr("user"))).Success? && "content" !in params ==>
      r == Failure(KeyErrorText("content"))
  {
    var role :- ParseRole(Lookup(params, "role", JStr("user")));
    var contentField :- Field(params, "content");
    var content :- AsString(contentField, "content");
    var metadata :- AsOptObject(Lookup(params, "metadata", JNull), "metadata");
    Success(NewMessage(role, content, None, metadata, now))
  }

  /** The state change of `_send_task_message` on a stored task, once the
      inbound message is built: only that task changes, it keeps its place in
      the store, and it gains exactly two messages. */
  function Deliver(a: Agent, env: Env, id: string, inbound: TaskMessage): (r: Applied)
    requires a.Valid() && id in a.tasks.entries
    ensures var b := r.agent;
      var before := a.tasks.entries[id];
      && b.Valid()
      && b.name == a.name && b.card == a.card && b.methods == a.methods
      && b.tasks.keys == a.tasks.keys
      && id in b.tasks.entries
      && b.tasks.entries == a.tasks.entries[id := b.tasks.entries[id]]
      && |b.tasks.entries[id].messages| == |before.messages| + 2
      && b.tasks.entries[id].messages[..|before.messages|] == before.messages
      && b.tasks.entries[id].messages[|before.messages|] == inbound
      && (env.handleTask(id, inbound).Success? <==> b.tasks.entries[id].status == Completed)
      && (env.handleTask(id, inbound).Failure? <==> b.tasks.entries[id].status == Failed)
      && r.result == JObj(EncodeTask(b.tasks.entries[id]))
  {
    var before := a.tasks.entries[id];
    var task := Process(before, inbound, env.handleTask(id, inbound), env.now);
    var b := a.(tasks := a.tasks.Put(id, task));
    assert b.tasks.entries[id] == task && task.taskId == id;
    assert b.Valid();
    Applied(b, JObj(EncodeTask(task)))
  }

  /** `_send_task_message`: every check happens before the store is touched,
      and a failure of `handle_task` is recorded in the task, not raised. */
  function HandleSendTaskMessage(a: Agent, env: Env, params: Object): (r: Result<Applied, string>)
    requires a.Valid()
    ensures r.Success? <==> FindTask(a.tasks, params).Success? && InboundMessage(params, env.now).Success?
    ensures FindTask(a.tasks, params).Failure? ==> r == FindTask(a.tasks, params).PropagateFailure()
    ensures r.Success? ==> params["task_id"].s in a.tasks.entries
    ensures r.Success? ==> r.value == Deliver(a, env, params["task_id"].s, InboundMessage(params, env.now).value)
    ensures FindTask(a.tasks, params).Success? && InboundMessage(params, env.now).Failure? ==>
      r == Failure(InboundMessage(params, env.now).error)
  {
    var taskId :- FindTask(a.tasks, params);
    var inbound :- InboundMessage(params, env.now);
    Success(Deliver(a, env, taskId, inbound))
  }

  /** `_get_task`: the stored task, or the same failure `_send_task_message` reports. */
  function HandleGetTask(a: Agent, params: Object): (r: Result<Applied, string>)
    requires a.Valid()
    ensures r.Success? <==> FindTask(a.tasks, params).Success?
    ensures r.Failure? ==> r.error == FindTask(a.tasks, params).error
    ensures r.Success? ==> r.value.agent == a
    ensures r.Success? ==> r.value.result == JObj(EncodeTask(a.tasks.entries[params["task_id"].s]))
  {
    var taskId :- FindTask(a.tasks, params);
    Success(Applied(a, JObj(EncodeTask(a.tasks.entries[taskId]))))
  }

  /** `[task.to_dict() for task in self.tasks.values()]`. */
  function EncodeTasks(ts: seq<Task>): (js: seq<Json>)
    ensures |js| == |ts|
    ensures forall i :: 0 <= i < |ts| ==> js[i] == JObj(EncodeTask(ts[i]))
  {
    seq(|ts|, i requires 0 <= i < |ts| => JObj(EncodeTask(ts[i])))
  }

  /** `_list_tasks`: every stored task exactly once, in the order the ids were first stored. */
  function HandleListTasks(a: Agent): (r: Applied)
    requires a.Valid()
    ensures r.agent == a
    ensures r.result.JObj? && r.result.fields.Keys == {"tasks"} && r.result.fields["tasks"].JArr?
    ensures var listed := r.result.fields["tasks"].items;
      && |listed| == |a.tasks.keys|
      && forall i :: 0 <= i < |listed| ==>
           listed[i] == JObj(EncodeTask(a.tasks.entries[a.tasks.keys[i]]))
           && EncodeTask(a.tasks.entries[a.tasks.keys[i]])["task_id"] == JStr(a.tasks.keys[i])
  {
    Applied(a, JObj(map["tasks" := JArr(EncodeTasks(a.tasks.Values()))]))
  }

  /** `_get_agent_card`. */
  function HandleGetAgentCard(a: Agent): (r: Applied)
    ensures r.agent == a
    ensures DecodeCard(r.result) == Success(NormalizeCard(a.card))
  {
    CardRoundTrip(a.card);
    Applied(a, JObj(EncodeCard(a.card)))
  }

  /** Calls the handler bound to a method name. Extension handlers see the
      parameters and return a result; they do not change the agent. */
  function Invoke(a: Agent, env: Env, h: Handler, params: Object): (r: Result<Applied, string>)
    requires a.Valid()
    ensures r.Success? ==> r.value.agent.Valid()
    ensures r.Success? ==> r.value.agent.name == a.name && r.value.agent.card == a.card
                           && r.value.agent.methods == a.methods
  {
    match h
    case GetAgentCard => Success(HandleGetAgentCard(a))
    case CreateTask => HandleCreateTask(a, env, params)
    case SendTaskMessage => HandleSendTaskMessage(a, env, params)
    case GetTask => HandleGetTask(a, params)
    case ListTasks => Success(HandleListTasks(a))
    case Extension(tag) =>
      var result :- env.extension(tag, params);
      Success(Applied(a, result))
  }

  // -------------------------------------------------------------- dispatcher

  /** The agent after a request, and the response to send back. */
  datatype Reply = Reply(agent: Agent, response: Response)

  /** `_handle_request`: an unbound method name is answered with
      METHOD_NOT_FOUND, a handler failure with INTERNAL_ERROR carrying the
      exception text as `message`; in both cases the agent is unchanged. Every
      response carries the request's id, including a null one. */
  function Dispatch(a: Agent, env: Env, req: Request): (r: Reply)
    requires a.Valid()
    ensures r.agent.Valid()
    ensures r.agent.name == a.name && r.agent.card == a.card && r.agent.methods == a.methods
    ensures r.response.id == req.id && r.response.jsonrpc == "2.0"
    ensures req.methodName !in a.methods.entries ==>
      r.agent == a && r.response == ErrorResponse(req.id, METHOD_NOT_FOUND, "Method '" + req.methodName + "' not found")
    ensures req.methodName in a.methods.entries ==>
      var out := Invoke(a, env, a.methods.entries[req.methodName], ObjectOrEmpty(req.params));
      && (out.Failure? ==> r.agent == a && r.response == ErrorResponse(req.id, INTERNAL_ERROR, out.error))
      && (out.Success? ==> r.agent == out.value.agent && r.response.error.None? && r.response.result == out.value.result)
  {
    var m := req.methodName;
    if m !in a.methods.entries then
      Reply(a, ErrorResponse(req.id, METHOD_NOT_FOUND, "Method '" + m + "' not found"))
    else
      match Invoke(a, env, a.methods.entries[m], ObjectOrEmpty(req.params))
      case Success(applied) => Reply(applied.agent, ResultResponse(req.id, applied.result))
      case Failure(e) => Reply(a, ErrorResponse(req.id, INTERNAL_ERROR, e))
  }

  /** The response sent for a request always has exactly one of `result` and `error`,
      and an error code, when there is one, is METHOD_NOT_FOUND or INTERNAL_ERROR. */
  lemma DispatchResponseShape(a: Agent, env: Env, req: Request)
    requires a.Valid()
    ensures var o := EncodeResponse(Dispatch(a, env, req).response);
      && ("error" in o) != ("result" in o)
      && o["id"] == EncodeId(req.id)
    ensures var e := Dispatch(a, env, req).response.error;
      e.Some? ==> e.value.code == METHOD_NOT_FOUND || e.value.code == INTERNAL_ERROR
  {
  }

  // ----------------------------------------------------------- HTTP binding

  /** The HTTP status the POST route answers with, and the response it sends as its body. */
  datatype HttpAnswer = HttpAnswer(agent: Agent, status: int, response: Response)

  /** The POST route: `request.get_json()` (a failure carries its text), then
      a falsy body is rejected with 400 and INVALID_PARAMS, and a body that is
      not a request gets 500 and INTERNAL_ERROR, both with a null id;
      everything else is dispatched and answered with 200. */
  function HandleBody(a: Agent, env: Env, body: Result<Json, string>): (r: HttpAnswer)
    requires a.Valid()
    ensures r.agent.Valid()
    ensures r.status == 200 || r.status == 400 || r.status == 500
    ensures r.status != 200 ==> r.agent == a && r.response.id == NullId && r.response.error.Some?
    ensures r.status == 200 <==> body.Success? && Truthy(body.value) && DecodeRequest(body.value).Success?
    ensures body.Success? && !Truthy(body.value) ==>
      r.status == 400 && r.response == ErrorResponse(NullId, INVALID_PARAMS, "Invalid JSON")
    ensures r.status == 500 ==> r.response.error.value.code == INTERNAL_ERROR
    ensures body.Failure? ==> r.response == ErrorResponse(NullId, INTERNAL_ERROR, body.error)
    ensures body.Success? && Truthy(body.value) && DecodeRequest(body.value).Failure? ==>
      r.response == ErrorResponse(NullId, INTERNAL_ERROR, DecodeRequest(body.value).error)
    ensures r.status == 200 ==> r == HttpAnswer(Dispatch(a, env, DecodeRequest(body.value).value).agent, 200,
                                                Dispatch(a, env, DecodeRequest(body.value).value).response)
  {
    match body
    case Failure(e) => HttpAnswer(a, 500, ErrorResponse(NullId, INTERNAL_ERROR, e))
    case Success(data) =>
      if !Truthy(data) then HttpAnswer(a, 400, ErrorResponse(NullId, INVALID_PARAMS, "Invalid JSON"))
      else match DecodeRequest(data)
        case Failure(e) => HttpAnswer(a, 500, ErrorResponse(NullId, INTERNAL_ERROR, e))
        case Success(req) =>
          var reply := Dispatch(a, env, req);
          HttpAnswer(reply.agent, 200, reply.response)
  }

  /** A well-formed request posted to the route is dispatched and answered with 200. */
  lemma ServeRequest(a: Agent, env: Env, req: Request)
    requires a.Valid()
    ensures var reply := Dispatch(a, env, req);
      HandleBody(a, env, Success(JObj(EncodeRequest(req)))) == HttpAnswer(reply.agent, 200, reply.response)
    ensures Dispatch(a, env, req).response.error.None? || Dispatch(a, env, req).response.result == JNull
  {
    var o := EncodeRequest(req);
    assert "jsonrpc" in o;
    assert |o| > 0;
    RequestRoundTrip(req);
  }

  /** The GET `/health` route. */
  function Health(a: Agent): (o: Object)
    ensures o.Keys == {"status", "agent"}
    ensures o["status"] == JStr("healthy") && o["agent"] == JStr(a.name)
  {
    map["status" := JStr("healthy"), "agent" := JStr(a.name)]
  }

  // ------------------------------------------------------------------ lemmas

  /** A created task can be fetched by its id, unless that id is the empty
      string: `_create_task` stores it, but `_get_task` rejects every falsy id. */
  lemma CreateThenGet(a: Agent, env: Env, id: string)
    requires a.Valid()
    ensures var created := HandleCreateTask(a, env, map["task_id" := JStr(id)]);
      && created.Success?
      && (id != "" ==> HandleGetTask(created.value.agent, map["task_id" := JStr(id)])
                       == Success(Applied(created.value.agent, created.value.result)))
      && (id == "" ==> HandleGetTask(created.value.agent, map["task_id" := JStr(id)])
                       == Failure("Task '' not found"))
  {
    CreateStores(a, env, id);
    var created := HandleCreateTask(a, env, map["task_id" := JStr(id)]);
    GetStored(created.value.agent, id);
  }

  /** Creating a task under a given id stores it under that id and answers its encoding. */
  lemma CreateStores(a: Agent, env: Env, id: string)
    requires a.Valid()
    ensures var created := HandleCreateTask(a, env, map["task_id" := JStr(id)]);
      && created.Success? && created.value.agent.Valid() && id in created.value.agent.tasks.entries
      && created.value.result == JObj(EncodeTask(created.value.agent.tasks.entries[id]))
  {
  }

  /** Fetching a stored task answers its encoding, unless its id is the empty string. */
  lemma GetStored(b: Agent, id: string)
    requires b.Valid() && id in b.tasks.entries
    ensures id != "" ==> HandleGetTask(b, map["task_id" := JStr(id)]) == Success(Applied(b, JObj(EncodeTask(b.tasks.entries[id]))))
    ensures id == "" ==> HandleGetTask(b, map["task_id" := JStr(id)]) == Failure("Task '' not found")
  {
    assert TaskNotFound(JStr("")) == "Task '' not found";
  }

  /** There is no guard on finished tasks: a completed or failed task accepts a
      further message and is processed again. */
  lemma FinishedTaskAcceptsMessages(a: Agent, env: Env, id: string, content: string)
    requires a.Valid()
    requires id != "" && id in a.tasks.entries
    requires a.tasks.entries[id].status == Completed || a.tasks.entries[id].status == Failed
    ensures var r := HandleSendTaskMessage(a, env, map["task_id" := JStr(id), "content" := JStr(content)]);
      && r.Success?
      && |r.value.agent.tasks.entries[id].messages| == |a.tasks.entries[id].messages| + 2
  {
    var params := map["task_id" := JStr(id), "content" := JStr(content)];
    assert ParseRole(JStr("user")) == Success(UserRole);
    assert InboundMessage(params, env.now).Success?;
  }

  /** A sequence of requests keeps the agent well-formed, with the same name, card and method table. */
  lemma {:induction false} DispatchAllPreservesValid(a: Agent, envs: seq<Env>, reqs: seq<Request>)
    requires a.Valid() && |envs| == |reqs|
    ensures var b := DispatchAll(a, envs, reqs);
      b.Valid() && b.name == a.name && b.card == a.card && b.methods == a.methods
    decreases |reqs|
  {
    if |reqs| > 0 {
      var b := Dispatch(a, envs[0], reqs[0]).agent;
      DispatchAllPreservesValid(b, envs[1..], reqs[1..]);
    }
  }

  /** The agent after serving `reqs` in order, the `k`-th of them in the
      environment `envs[k]` (its own clock reading and fresh id). */
  function DispatchAll(a: Agent, envs: seq<Env>, reqs: seq<Request>): Agent
    requires a.Valid() && |envs| == |reqs|
    decreases |reqs|
  {
    if |reqs| == 0 then a
    else
      var b := Dispatch(a, envs[0], reqs[0]).agent;
      DispatchAll(b, envs[1..], reqs[1..])
  }
}
