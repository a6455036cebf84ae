/** Task and message records of the A2A protocol: the status and role
    enumerations, a message list that only grows at the end, and the
    conversion of both records to and from JSON objects.

    Timestamps are opaque strings. Whenever the source reads the wall clock,
    the model uses the operation's `now` argument instead. */
module Tasks {
  import opened Wrappers
  import opened JsonValue

  // ------------------------------------------------------------ task status

  datatype TaskStatus = Pending | InProgress | Completed | Failed | Cancelled

  /** The wire string of a status (`TaskStatus.value`). */
  function StatusValue(s: TaskStatus): string {
    match s
    case Pending => "pending"
    case InProgress => "in_progress"
    case Completed => "completed"
    case Failed => "failed"
    case Cancelled => "cancelled"
  }

  /** The enumeration has exactly these five members, with five distinct values. */
  function AllStatuses(): (all: seq<TaskStatus>)
    ensures |all| == 5
    ensures forall i, j :: 0 <= i < j < |all| ==> StatusValue(all[i]) != StatusValue(all[j])
  {
    [Pending, InProgress, Completed, Failed, Cancelled]
  }

  /** Every status is listed. */
  lemma {:induction false} AllStatusesComplete(s: TaskStatus)
    ensures s in AllStatuses()
  {
    var all := AllStatuses();
    match s
    case Pending => assert all[0] == s;
    case InProgress => assert all[1] == s;
    case Completed => assert all[2] == s;
    case Failed => assert all[3] == s;
    case Cancelled => assert all[4] == s;
  }

  /** The text of the `ValueError` an enumeration raises for a value it does not have. */
  function NotAMember(j: Json, enumName: string): string {
    PyRepr(j) + " is not a valid " + enumName
  }

  /** `TaskStatus(v)`: accepts exactly the five status strings. */
  function ParseStatus(j: Json): (r: Result<TaskStatus, string>)
    ensures r.Success? <==> exists s: TaskStatus :: j == JStr(StatusValue(s))
    ensures r.Success? ==> j == JStr(StatusValue(r.value))
    ensures r.Failure? ==> r.error == NotAMember(j, "TaskStatus")
  {
    if j == JStr(StatusValue(Pending)) then Success(Pending)
    else if j == JStr(StatusValue(InProgress)) then Success(InProgress)
    else if j == JStr(StatusValue(Completed)) then Success(Completed)
    else if j == JStr(StatusValue(Failed)) then Success(Failed)
    else if j == JStr(StatusValue(Cancelled)) then Success(Cancelled)
    else
      assert forall s: TaskStatus :: s.Pending? || s.InProgress? || s.Completed? || s.Failed? || s.Cancelled?;
      Failure(NotAMember(j, "TaskStatus"))
  }

  /** Parsing the wire string of a status gives the status back. */
  lemma ParseStatusValue(s: TaskStatus)
    ensures ParseStatus(JStr(StatusValue(s))) == Success(s)
  {
    match s
    case Pending =>
    case InProgress =>
    case Completed =>
    case Failed =>
    case Cancelled =>
  }

  // ------------------------------------------------------------ message role

  datatype MessageRole = UserRole | AgentRole | SystemRole

  function RoleValue(r: MessageRole): string {
    match r
    case UserRole => "user"
    case AgentRole => "agent"
    case SystemRole => "system"
  }

  /** The enumeration has exactly these three members, with three distinct values. */
  function AllRoles(): (all: seq<MessageRole>)
    ensures |all| == 3
    ensures forall i, j :: 0 <= i < j < |all| ==> RoleValue(all[i]) != RoleValue(all[j])
  {
    [UserRole, AgentRole, SystemRole]
  }

  /** Every role is listed. */
  lemma {:induction false} AllRolesComplete(r: MessageRole)
    ensures r in AllRoles()
  {
    var all := AllRoles();
    match r
    case UserRole => assert all[0] == r;
    case AgentRole => assert all[1] == r;
    case SystemRole => assert all[2] == r;
  }

  /** `MessageRole(v)`: accepts exactly "user", "agent" and "system". */
  function ParseRole(j: Json): (r: Result<MessageRole, string>)
    ensures r.Success? <==> exists m: MessageRole :: j == JStr(RoleValue(m))
    ensures r.Success? ==> j == JStr(RoleValue(r.value))
    ensures r.Failure? ==> r.error == NotAMember(j, "MessageRole")
  {
    if j == JStr(RoleValue(UserRole)) then Success(UserRole)
    else if j == JStr(RoleValue(AgentRole)) then Success(AgentRole)
    else if j == JStr(RoleValue(SystemRole)) then Success(SystemRole)
    else
      assert forall m: MessageRole :: m.UserRole? || m.AgentRole? || m.SystemRole?;
      Failure(NotAMember(j, "MessageRole"))
  }

  /** Parsing the wire string of a role gives the role back. */
  lemma ParseRoleValue(m: MessageRole)
    ensures ParseRole(JStr(RoleValue(m))) == Success(m)
  {
    match m
    case UserRole =>
    case AgentRole =>
    case SystemRole =>
  }

  // ---------------------------------------------------------------- records

  type Metadata = Object

  datatype TaskMessage = TaskMessage(role: MessageRole, content: string, timestamp: string, metadata: Option<Metadata>)

  /** `TaskMessage(role, content, timestamp, metadata)`: the timestamp is taken
      from the clock only when none is given. */
  function NewMessage(role: MessageRole, content: string, timestamp: Option<string>, metadata: Option<Metadata>, now: string): (m: TaskMessage)
    ensures m.role == role && m.content == content && m.metadata == metadata
    ensures timestamp.Some? ==> m.timestamp == timestamp.value
    ensures timestamp.None? ==> m.timestamp == now
  {
    TaskMessage(role, content, timestamp.GetOr(now), metadata)
  }

  datatype Task = Task(
    taskId: string,
    status: TaskStatus,
    messages: seq<TaskMessage>,
    metadata: Option<Metadata>,
    createdAt: string,
    updatedAt: string)

  /** `Task(...)`: each of the two timestamps is taken from the clock only when it is not given. */
  function NewTask(taskId: string, status: TaskStatus, messages: seq<TaskMessage>, metadata: Option<Metadata>,
                   createdAt: Option<string>, updatedAt: Option<string>, now: string): (t: Task)
    ensures t.taskId == taskId && t.status == status && t.messages == messages && t.metadata == metadata
    ensures createdAt.Some? ==> t.createdAt == createdAt.value
    ensures createdAt.None? ==> t.createdAt == now
    ensures updatedAt.Some? ==> t.updatedAt == updatedAt.value
    ensures updatedAt.None? ==> t.updatedAt == now
  {
    Task(taskId, status, messages, metadata, createdAt.GetOr(now), updatedAt.GetOr(now))
  }

  /** `Task.add_message`: the message goes at the end, earlier messages stay
      as they were, and the only other change is a fresh `updated_at`. */
  function AddMessage(t: Task, m: TaskMessage, now: string): (r: Task)
    ensures |r.messages| == |t.messages| + 1
    ensures r.messages[..|t.messages|] == t.messages && r.messages[|t.messages|] == m
    ensures r.updatedAt == now
    ensures r.taskId == t.taskId && r.status == t.status && r.metadata == t.metadata && r.createdAt == t.createdAt
  {
    t.(messages := t.messages + [m], updatedAt := now)
  }

  /** Adding messages one after the other is the same as adding their concatenation:
      the history is append-only. */
  lemma AddMessagesInOrder(t: Task, m1: TaskMessage, m2: TaskMessage, now1: string, now2: string)
    ensures AddMessage(AddMessage(t, m1, now1), m2, now2).messages == t.messages + [m1, m2]
  {
  }

  /** The content of the most recent `agent` message, scanning from the end. */
  function LastAgentContent(ms: seq<TaskMessage>): (r: Option<string>)
    ensures r.None? <==> forall i :: 0 <= i < |ms| ==> ms[i].role != AgentRole
    ensures r.Some? ==> exists i :: (0 <= i < |ms| && ms[i].role == AgentRole && ms[i].content == r.value &&
                                     forall j :: i < j < |ms| ==> ms[j].role != AgentRole)
  {
    if |ms| == 0 then None
    else if ms[|ms| - 1].role == AgentRole then Some(ms[|ms| - 1].content)
    else LastAgentContent(ms[..|ms| - 1])
  }

  // ---------------------------------------------------------------- encoding

  /** `TaskMessage.to_dict`: role as its string value, `None` metadata as `{}`. */
  function EncodeMessage(m: TaskMessage): (o: Object)
    ensures o.Keys == {"role", "content", "timestamp", "metadata"}
    ensures o["role"] == JStr(RoleValue(m.role)) && o["content"] == JStr(m.content)
    ensures o["timestamp"] == JStr(m.timestamp)
    ensures o["metadata"] == JObj(ObjectOrEmpty(m.metadata))
  {
    map["role" := JStr(RoleValue(m.role)), "content" := JStr(m.content),
        "timestamp" := JStr(m.timestamp), "metadata" := JObj(ObjectOrEmpty(m.metadata))]
  }

  /** `TaskMessage.from_dict`: `role` and `content` are required, the timestamp
      defaults to the clock and the metadata to `None`. */
  function DecodeMessage(data: Json, now: string): (r: Result<TaskMessage, string>)
    ensures data.JObj? && ("role" !in data.fields || "content" !in data.fields) ==> r.Failure?
    ensures r.Success? ==> data.JObj? && "role" in data.fields && "content" in data.fields
    ensures r.Success? ==> data.fields["role"] == JStr(RoleValue(r.value.role))
    ensures r.Success? ==> data.fields["content"] == JStr(r.value.content)
    ensures r.Success? ==> ("timestamp" !in data.fields ==> r.value.timestamp == now)
    ensures r.Success? ==> ("metadata" !in data.fields ==> r.value.metadata.None?)
  {
    match data
    case JObj(obj) =>
      var roleField :- Field(obj, "role");
      var role :- ParseRole(roleField);
      var contentField :- Field(obj, "content");
      var content :- AsString(contentField, "content");
      var timestamp :- AsOptString(Lookup(obj, "timestamp", JNull), "timestamp");
      var metadata :- AsOptObject(Lookup(obj, "metadata", JNull), "metadata");
      Success(NewMessage(role, content, timestamp, metadata, now))
    case _ => Subscript(data, "role").PropagateFailure()
  }

  /** `[m.to_dict() for m in messages]`, in order. */
  function EncodeMessages(ms: seq<TaskMessage>): (js: seq<Json>)
    ensures |js| == |ms|
    ensures forall i :: 0 <= i < |ms| ==> js[i] == JObj(EncodeMessage(ms[i]))
  {
    seq(|ms|, i requires 0 <= i < |ms| => JObj(EncodeMessage(ms[i])))
  }

  /** `[TaskMessage.from_dict(m) for m in items]`. */
  function DecodeMessages(items: seq<Json>, now: string): (r: Result<seq<TaskMessage>, string>)
    ensures r.Success? <==> forall i :: 0 <= i < |items| ==> DecodeMessage(items[i], now).Success?
    ensures r.Success? ==> |r.value| == |items|
    ensures r.Success? ==> forall i :: 0 <= i < |items| ==> DecodeMessage(items[i], now) == Success(r.value[i])
  {
    DecodeEach(items, j => DecodeMessage(j, now))
  }

  /** `Task.to_dict`: status as its string value, messages in order, `None` metadata as `{}`. */
  function EncodeTask(t: Task): (o: Object)
    ensures o.Keys == {"task_id", "status", "messages", "metadata", "created_at", "updated_at"}
    ensures o["task_id"] == JStr(t.taskId) && o["status"] == JStr(StatusValue(t.status))
    ensures o["messages"] == JArr(EncodeMessages(t.messages))
    ensures o["metadata"] == JObj(ObjectOrEmpty(t.metadata))
    ensures o["created_at"] == JStr(t.createdAt) && o["updated_at"] == JStr(t.updatedAt)
  {
    map["task_id" := JStr(t.taskId), "status" := JStr(StatusValue(t.status)),
        "messages" := JArr(EncodeMessages(t.messages)), "metadata" := JObj(ObjectOrEmpty(t.metadata)),
        "created_at" := JStr(t.createdAt), "updated_at" := JStr(t.updatedAt)]
  }

  /** `Task.from_dict`: `task_id` and `status` are required; `messages` defaults
      to the empty list, the timestamps to the clock and the metadata to `None`. */
  function DecodeTask(data: Json, now: string): (r: Result<Task, string>)
    ensures data.JObj? && ("task_id" !in data.fields || "status" !in data.fields) ==> r.Failure?
    ensures r.Success? ==> data.JObj? && "task_id" in data.fields && "status" in data.fields
    ensures r.Success? ==> data.fields["task_id"] == JStr(r.value.taskId)
    ensures r.Success? ==> data.fields["status"] == JStr(StatusValue(r.value.status))
    ensures r.Success? ==> ("messages" !in data.fields ==> r.value.messages == [])
    ensures r.Success? ==> ("created_at" !in data.fields ==> r.value.createdAt == now)
    ensures r.Success? ==> ("updated_at" !in data.fields ==> r.value.updatedAt == now)
    ensures r.Success? ==> ("metadata" !in data.fields ==> r.value.metadata.None?)
  {
    match data
    case JObj(obj) =>
      var items :- AsList(Lookup(obj, "messages", JArr([])), "messages");
      var messages :- DecodeMessages(items, now);
      var idField :- Field(obj, "task_id");
      var taskId :- AsString(idField, "task_id");
      var statusField :- Field(obj, "status");
      var status :- ParseStatus(statusField);
      var metadata :- AsOptObject(Lookup(obj, "metadata", JNull), "metadata");
      var createdAt :- AsOptString(Lookup(obj, "created_at", JNull), "created_at");
      var updatedAt :- AsOptString(Lookup(obj, "updated_at", JNull), "updated_at");
      Success(NewTask(taskId, status, messages, metadata, createdAt, updatedAt, now))
    case _ => GetOr(data, "messages", JArr([])).PropagateFailure()
  }

  // -------------------------------------------------------------- round trip

  /** What survives encoding: `None` metadata comes back as `{}`. */
  function NormalizeMessage(m: TaskMessage): TaskMessage {
    m.(metadata := Some(ObjectOrEmpty(m.metadata)))
  }

  function NormalizeMessages(ms: seq<TaskMessage>): (r: seq<TaskMessage>)
    ensures |r| == |ms|
    ensures forall i :: 0 <= i < |ms| ==> r[i] == NormalizeMessage(ms[i])
  {
    seq(|ms|, i requires 0 <= i < |ms| => NormalizeMessage(ms[i]))
  }

  function NormalizeTask(t: Task): Task {
    t.(messages := NormalizeMessages(t.messages), metadata := Some(ObjectOrEmpty(t.metadata)))
  }

  lemma MessageRoundTrip(m: TaskMessage, now: string)
    ensures DecodeMessage(JObj(EncodeMessage(m)), now) == Success(NormalizeMessage(m))
  {
  }

  lemma MessagesRoundTrip(ms: seq<TaskMessage>, now: string)
    ensures DecodeMessages(EncodeMessages(ms), now) == Success(NormalizeMessages(ms))
  {
    var js := EncodeMessages(ms);
    forall i | 0 <= i < |ms|
      ensures DecodeMessage(js[i], now) == Success(NormalizeMessage(ms[i]))
    {
      MessageRoundTrip(ms[i], now);
    }
    var r := DecodeMessages(js, now);
    assert r.Success?;
    assert r.value == NormalizeMessages(ms);
  }

  /** `Task.from_dict(t.to_dict())` is `t`, up to `None` metadata becoming `{}`;
      the clock is not consulted because every timestamp is present. */
  lemma TaskRoundTrip(t: Task, now: string)
    ensures DecodeTask(JObj(EncodeTask(t)), now) == Success(NormalizeTask(t))
  {
    var o := EncodeTask(t);
    MessagesRoundTrip(t.messages, now);
    ParseStatusValue(t.status);
    DecodeTaskPresent(o, now, EncodeMessages(t.messages), NormalizeMessages(t.messages), t.taskId, t.status,
                      ObjectOrEmpty(t.metadata), t.createdAt, t.updatedAt);
  }

  /** A task dict whose every field is present and well typed decodes to exactly
      those fields; the clock is not consulted. */
  lemma DecodeTaskPresent(o: Object, now: string, items: seq<Json>, messages: seq<TaskMessage>, taskId: string,
                          status: TaskStatus, metadata: Object, createdAt: string, updatedAt: string)
    requires Lookup(o, "messages", JArr([])) == JArr(items) && DecodeMessages(items, now) == Success(messages)
    requires "task_id" in o && o["task_id"] == JStr(taskId)
    requires "status" in o && ParseStatus(o["status"]) == Success(status)
    requires Lookup(o, "metadata", JNull) == JObj(metadata)
    requires Lookup(o, "created_at", JNull) == JStr(createdAt)
    requires Lookup(o, "updated_at", JNull) == JStr(updatedAt)
    ensures DecodeTask(JObj(o), now) == Success(Task(taskId, status, messages, Some(metadata), createdAt, updatedAt))
  {
  }

  /** Normalising does not change the encoding, so encoding after a round trip
      reproduces the original encoding exactly. */
  lemma EncodeNormalizedTask(t: Task)
    ensures EncodeTask(NormalizeTask(t)) == EncodeTask(t)
  {
    assert EncodeMessages(NormalizeMessages(t.messages)) == EncodeMessages(t.messages);
  }
}
