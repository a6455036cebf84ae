# a2a-demo, modelled in Dafny

a2a-demo is a small agent-to-agent (A2A) system. Agents are HTTP servers that
speak JSON-RPC 2.0. Each agent publishes an *agent card* (its name, URL,
skills and interaction modes) and keeps a store of *tasks*. A task is a
conversation that goes from pending to in progress, and then to completed or
failed. The standard methods are `getAgentCard`, `createTask`,
`sendTaskMessage`, `getTask` and `listTasks`.

The *translator* agent answers `translate <text> to <language>` from a fixed
eight-phrase table. The *orchestrator* agent registers other agents by
fetching their cards. It then routes a request by keywords to the calculator
and translator agents and relays their answers. The *client* wraps the
JSON-RPC calls, numbers them, and offers a one-call `chat`.

The model keeps the system's structure:

| module | file | what it holds |
|---|---|---|
| `Wrappers` | wrappers.dfy | `Option` and `Result`, with `:-` propagation |
| `OrderedMaps` | ordered_map.dfy | a dictionary that remembers insertion order, as Python's `dict` does |
| `JsonValue` | json_value.dfy | JSON values on the wire, Python truthiness, `dict[...]` and `dict.get`, typed field readers |
| `Strings` | strings.dfy | `strip`, `lower`, `in`, `split`, `replace`, `join`, `rstrip`, integer printing |
| `JsonRpc` | jsonrpc.dfy | requests, errors, responses, the standard error codes, `to_dict` and `from_dict` |
| `Tasks` | task.dfy | task status, message role, messages, tasks, and their wire form |
| `AgentCards` | agent_card.dfy | interaction modes, skills, agent cards, and their wire form |
| `Transport` | transport.dfy | an HTTP reply or a failure to connect, and `raise_for_status` |
| `Runtime` | base_agent.dfy | the base agent: method table, task store, the five handlers, the dispatcher, the HTTP routes |
| `Translator` | translator.dfy | the translator's table, request parsing and lookup |
| `Orchestrator` | orchestrator.dfy | agent registry, agent listing, delegation, keyword routing |
| `Client` | client.dfy | the client: request numbering, calls, chat, health check |

State is a value: every operation takes the agent, the registry or the client,
and returns the next one. Effects the code reaches for become parameters:

- the clock is a `now` string, one instant per operation;
- `uuid.uuid4()` is `Env.freshId`;
- a subclass's `handle_task` is `Env.handleTask`;
- the network is a function `Post` from URL and JSON body to an `Outcome`, or a
  `Get` from URL to an `Outcome`.

Operations that talk to the network return the list of requests they sent, so
contracts can say where each request went and what it carried.

## Model

| member | source | states |
|---|---|---|
| JsonRpc.StandardCodes | src/a2a_demo/models/jsonrpc.py:99-104 | the five standard error codes are pairwise distinct and lie in the range JSON-RPC 2.0 reserves (-32768 to -32000) |
| JsonRpc.DecodeId | src/a2a_demo/models/jsonrpc.py:13 | an id decodes exactly when it is null, a string or an integer, and re-encodes to the same JSON |
| JsonRpc.IdRoundTrip | src/a2a_demo/models/jsonrpc.py:13 | every id survives encoding and decoding |
| JsonRpc.MakeRequest | src/a2a_demo/models/jsonrpc.py:7-14 | a request built from method, params and id carries the protocol version "2.0" |
| JsonRpc.EncodeRequest | src/a2a_demo/models/jsonrpc.py:16-25 | `jsonrpc`, `method` and `id` are always present; `params` is present exactly when there are params; no other key appears |
| JsonRpc.DecodeRequest | src/a2a_demo/models/jsonrpc.py:27-35 | a missing `method` is the KeyError `'method'`; a missing version defaults to "2.0", missing params to none, a missing id to null |
| JsonRpc.RequestRoundTrip | src/a2a_demo/models/jsonrpc.py:16-35 | `from_dict` inverts `to_dict` for every request |
| JsonRpc.EncodeError | src/a2a_demo/models/jsonrpc.py:46-54 | `code` and `message` are always present; `data` is present exactly when it is not null |
| JsonRpc.DecodeError | src/a2a_demo/models/jsonrpc.py:84-89 | an error object without `code` or `message` is rejected; a missing `data` reads as null |
| JsonRpc.ErrorRoundTrip | src/a2a_demo/models/jsonrpc.py:46-89 | every error object survives encoding and decoding |
| JsonRpc.ResultResponse | src/a2a_demo/models/jsonrpc.py:57-64 | a success response carries the request id, the result and no error |
| JsonRpc.ErrorResponse | src/a2a_demo/models/jsonrpc.py:57-64 | an error response carries the id, the code and message, no data and a null result |
| JsonRpc.EncodeResponse | src/a2a_demo/models/jsonrpc.py:66-78 | exactly one of `error` and `result` appears, and `error` appears exactly when there is an error |
| JsonRpc.DecodeResponse | src/a2a_demo/models/jsonrpc.py:80-96 | the decoded response has an error exactly when the object has an `error` key; a missing result reads as null and a missing version as "2.0"; a body that is not an object fails with Python's own text: not iterable for null, bool and int, the subscript error for a list or string holding "error", otherwise no attribute `get` |
| JsonValue.PyContains | src/a2a_demo/models/jsonrpc.py:84 | `"error" in data` tests a dict's keys, a list's items and a string's substrings, and raises "argument of type ... is not iterable" for every other value |
| JsonRpc.ResponseRoundTrip | src/a2a_demo/models/jsonrpc.py:66-96 | a response whose result is null when it has an error survives encoding and decoding |
| JsonRpc.ResponseRoundTripDropsResult | src/a2a_demo/models/jsonrpc.py:73-76 | an error response loses its result on the wire: it decodes with a null result |
| JsonValue.Subscript | src/a2a_demo/models/task.py:54-55 | `x[key]` yields the dict's entry exactly when `x` is a dict holding the key; a missing key raises KeyError `'key'`; a list or string raises its own TypeError text |
| JsonValue.GetOr | src/a2a_demo/models/task.py:56-57 | `x.get(key, default)` yields the entry or the default exactly when `x` is a dict; anything else raises "'T' object has no attribute 'get'" |
| JsonValue.DecodeEach | src/a2a_demo/models/task.py:99 | a list comprehension of decoders succeeds exactly when every item decodes, gives those values in order, and otherwise raises the first item's failure |
| Strings.Repr | src/a2a_demo/models/task.py:54 | `repr` of a string, as it appears in an enumeration's ValueError: it starts and ends with the chosen quote, which is `"` exactly when the string holds `'` and no `"` |
| Strings.ReprRoundTrip | src/a2a_demo/models/task.py:54 | the literal `repr` writes reads back as the string, so the named value is recoverable from the error text |
| Strings.ReprPlain | src/a2a_demo/models/task.py:54 | a string with no single quote and nothing to escape appears between single quotes unchanged |
| Strings.ReprDoubleQuoted | src/a2a_demo/models/task.py:54 | a string holding `'` but no `"`, and nothing else to escape, appears between double quotes unchanged, as `repr("it's")` is `"it's"` |
| Strings.ReprBothQuotes | src/a2a_demo/models/task.py:54 | with both quotes present, single quotes are used and the inner one is escaped |
| Strings.ReprNewline | src/a2a_demo/models/task.py:54 | a newline is written as `\n` |
| Strings.Strip | src/a2a_demo/agents/translator_agent.py:69 | the stripped text neither starts nor ends with whitespace |
| Strings.StripUnique | src/a2a_demo/agents/translator_agent.py:69 | `strip` keeps exactly the slice between a whitespace prefix and a whitespace suffix |
| Strings.RStripChar | src/a2a_demo/client/a2a_client.py:23 | `rstrip(c)` keeps a prefix, drops only `c` characters, and leaves no `c` at the end |
| Strings.SplitSingle | src/a2a_demo/agents/translator_agent.py:74 | `split(sep)` gives one piece exactly when `sep` does not occur |
| Strings.JoinSplit | src/a2a_demo/agents/translator_agent.py:74 | joining the pieces of `split(sep)` with `sep` gives the string back |
| Strings.ReplaceIsSplitJoin | src/a2a_demo/agents/translator_agent.py:76 | `replace(pat, rep)` agrees with the reference definition `rep.join(s.split(pat))` |
| JsonValue.ObjectOrEmpty | src/a2a_demo/models/task.py:47 | `metadata or {}`: the metadata when present, otherwise the empty object |
| Tasks.AllStatuses | src/a2a_demo/models/task.py:9-16 | the five statuses have pairwise distinct wire values |
| Tasks.AllStatusesComplete | src/a2a_demo/models/task.py:9-16 | the list of statuses holds every status |
| Tasks.ParseStatus | src/a2a_demo/models/task.py:9-16 | `TaskStatus(v)` succeeds exactly for the wire value of some status, which it returns; any other value gives the "is not a valid TaskStatus" error |
| Tasks.ParseStatusValue | src/a2a_demo/models/task.py:9-16 | each status's wire value parses back to that status |
| Tasks.AllRoles | src/a2a_demo/models/task.py:19-24 | the three roles have pairwise distinct wire values |
| Tasks.AllRolesComplete | src/a2a_demo/models/task.py:19-24 | the list of roles holds every role |
| Tasks.ParseRole | src/a2a_demo/models/task.py:19-24 | `MessageRole(v)` succeeds exactly for the wire value of some role, which it returns |
| Tasks.ParseRoleValue | src/a2a_demo/models/task.py:19-24 | each role's wire value parses back to that role |
| Tasks.NewMessage | src/a2a_demo/models/task.py:36-39 | a message without a timestamp is stamped with the current time; a given timestamp is kept |
| Tasks.NewTask | src/a2a_demo/models/task.py:72-78 | missing creation and update times are both set to the current time; given ones are kept |
| Tasks.AddMessage | src/a2a_demo/models/task.py:80-83 | the message is appended after the existing ones; only the update time changes besides the messages |
| Tasks.AddMessagesInOrder | src/a2a_demo/models/task.py:80-83 | two appends leave both messages at the end, in call order |
| Tasks.LastAgentContent | src/a2a_demo/client/a2a_client.py:172-177 | there is no answer exactly when no message has the agent role; otherwise the answer is the content of the last agent message |
| Tasks.EncodeMessage | src/a2a_demo/models/task.py:41-48 | the message object has exactly the keys role, content, timestamp and metadata, with missing metadata sent as `{}` |
| Tasks.DecodeMessage | src/a2a_demo/models/task.py:50-58 | a message without role or content is rejected; a missing timestamp becomes the current time and missing metadata none |
| Tasks.EncodeMessages | src/a2a_demo/models/task.py:90 | each message is encoded in place, in order |
| Tasks.DecodeMessages | src/a2a_demo/models/task.py:99 | the list decodes exactly when every item decodes, position by position |
| Tasks.MessageRoundTrip | src/a2a_demo/models/task.py:41-58 | decoding an encoded message gives it back, with missing metadata turned into `{}` |
| Tasks.MessagesRoundTrip | src/a2a_demo/models/task.py:90-99 | the same holds for a whole message list |
| Tasks.EncodeTask | src/a2a_demo/models/task.py:85-94 | the task object has exactly the six documented keys, with the status as its wire value |
| Tasks.DecodeTask | src/a2a_demo/models/task.py:96-108 | a task without id or status is rejected; missing messages read as none, missing times as the current time |
| Tasks.TaskRoundTrip | src/a2a_demo/models/task.py:85-108 | decoding an encoded task gives it back, up to `metadata or {}` |
| Tasks.DecodeTaskPresent | src/a2a_demo/models/task.py:96-108 | a task object whose fields are all present and well typed decodes to exactly those fields, without consulting the clock |
| Tasks.EncodeNormalizedTask | src/a2a_demo/models/task.py:85-94 | the only information the round trip loses is one `to_dict` never showed: absent and empty metadata encode alike |
| AgentCards.AllModes | src/a2a_demo/models/agent_card.py:8-15 | the five interaction modes have pairwise distinct wire values |
| AgentCards.AllModesComplete | src/a2a_demo/models/agent_card.py:8-15 | the list of modes holds every mode |
| AgentCards.ParseMode | src/a2a_demo/models/agent_card.py:8-15 | `InteractionMode(v)` succeeds exactly for a mode's wire value; otherwise the error names the value |
| AgentCards.ParseModeValue | src/a2a_demo/models/agent_card.py:8-15 | each mode's wire value parses back to that mode |
| AgentCards.EncodeModes | src/a2a_demo/models/agent_card.py:33 | each mode becomes its wire value, in order |
| AgentCards.DecodeModes | src/a2a_demo/models/agent_card.py:71 | a mode list decodes exactly when every item is a mode's wire value |
| AgentCards.ModesRoundTrip | src/a2a_demo/models/agent_card.py:33-71 | every mode list survives encoding and decoding |
| AgentCards.NewSkill | src/a2a_demo/models/agent_card.py:18-25 | parameters default to `{}` and interaction modes to `[text]` |
| AgentCards.EncodeSkill | src/a2a_demo/models/agent_card.py:27-34 | a skill object has exactly name, description, parameters and interaction_modes |
| AgentCards.DecodeSkill | src/a2a_demo/models/agent_card.py:66-72 | a skill without name or description is rejected; missing parameters read as `{}`, missing modes as `[text]` |
| AgentCards.SkillRoundTrip | src/a2a_demo/models/agent_card.py:27-72 | every skill survives encoding and decoding |
| AgentCards.EncodeSkills | src/a2a_demo/models/agent_card.py:58 | each skill is encoded in place, in order |
| AgentCards.DecodeSkills | src/a2a_demo/models/agent_card.py:66-74 | a skill list decodes exactly when every item decodes |
| AgentCards.SkillsRoundTrip | src/a2a_demo/models/agent_card.py:58-74 | every skill list survives encoding and decoding |
| AgentCards.NewCard | src/a2a_demo/models/agent_card.py:37-49 | the version defaults to "1.0" and the supported modes to `[text]` |
| AgentCards.EncodeCard | src/a2a_demo/models/agent_card.py:51-61 | a card object has exactly the seven documented keys, with missing metadata sent as `{}` |
| AgentCards.DecodeCard | src/a2a_demo/models/agent_card.py:63-86 | a card without name, description or url is rejected; every documented default applies to a missing key |
| AgentCards.UnknownModeRejected | src/a2a_demo/models/agent_card.py:82-84 | one unknown supported mode makes the whole card fail to decode |
| AgentCards.CardRoundTrip | src/a2a_demo/models/agent_card.py:51-86 | decoding an encoded card gives it back, up to `metadata or {}` |
| AgentCards.DecodeCardFields | src/a2a_demo/models/agent_card.py:63-86 | a card object whose fields all read as given decodes to the card made of exactly those fields |
| AgentCards.MinimalCardDefaults | src/a2a_demo/models/agent_card.py:76-86 | a card with only name, description and url decodes with no skills, version "1.0", modes `[text]` and no metadata |
| Transport.StatusError | src/a2a_demo/client/a2a_client.py:62 | `raise_for_status` raises exactly for a 4xx or 5xx status, and the message starts with the status code |
| Runtime.RegisterMethod | src/a2a_demo/agents/base_agent.py:69-76 | the name is bound to the new handler, every other binding is kept, and a new name is added after the existing ones |
| Runtime.RegisterLastWriteWins | src/a2a_demo/agents/base_agent.py:69-76 | registering twice under one name equals registering the second handler only |
| Runtime.StandardMethods | src/a2a_demo/agents/base_agent.py:61-67 | the standard table binds the five method names, in registration order, each to its own handler |
| Runtime.StandardMethodCount | src/a2a_demo/agents/base_agent.py:61-67 | a fresh agent answers exactly five method names |
| Runtime.NewAgent | src/a2a_demo/agents/base_agent.py:27-37 | a new agent has the standard methods and an empty task store |
| Runtime.FindTask | src/a2a_demo/agents/base_agent.py:225-227 | a task id is accepted exactly when it is a non-empty string naming a stored task; a missing id gives "Task 'None' not found" |
| Runtime.HandleCreateTask | src/a2a_demo/agents/base_agent.py:149-168 | creation succeeds exactly for a string-or-absent id and an object-or-null-or-absent metadata; the new task is pending, empty and stamped now, it replaces any task with that id, and only that entry changes; its metadata is `{}` when absent, the given object when present, and `None` for an explicit null |
| Runtime.Process | src/a2a_demo/agents/base_agent.py:191-212 | the inbound message and one reply are appended; the task completes with an agent reply or fails with a system message "Error processing task: ..." |
| Runtime.InboundMessage | src/a2a_demo/agents/base_agent.py:186-190 | the role defaults to user and is checked before `content`, which is required |
| Runtime.Deliver | src/a2a_demo/agents/base_agent.py:179-214 | only the addressed task changes and it keeps its place; it gains exactly two messages and is completed exactly when `handle_task` returns |
| Runtime.HandleSendTaskMessage | src/a2a_demo/agents/base_agent.py:170-214 | a message is accepted exactly when the task exists and the message is well-formed; otherwise the store is untouched |
| Runtime.HandleGetTask | src/a2a_demo/agents/base_agent.py:216-229 | fetching succeeds exactly when the id is found, returns that task and changes nothing |
| Runtime.EncodeTasks | src/a2a_demo/agents/base_agent.py:241 | each task is encoded in place, in order |
| Runtime.HandleListTasks | src/a2a_demo/agents/base_agent.py:231-242 | every stored task is listed exactly once, in the order its id was first stored, under its own id |
| Runtime.HandleGetAgentCard | src/a2a_demo/agents/base_agent.py:138-147 | the returned object decodes to the agent's own card |
| Runtime.Invoke | src/a2a_demo/agents/base_agent.py:128-131 | no handler changes the agent's name, card or method table, and all keep the agent well-formed |
| Runtime.Dispatch | src/a2a_demo/agents/base_agent.py:111-136 | an unknown method gives METHOD_NOT_FOUND and a failing handler INTERNAL_ERROR with the exception text, both leaving the agent unchanged; the response always echoes the request id |
| Runtime.DispatchResponseShape | src/a2a_demo/agents/base_agent.py:111-136 | the wire response has exactly one of result and error, and the only error codes are METHOD_NOT_FOUND and INTERNAL_ERROR |
| Runtime.HandleBody | src/a2a_demo/agents/base_agent.py:81-104 | status 200 exactly for a truthy body that decodes as a request; a falsy body gives 400 "Invalid JSON"; anything else gives 500; error statuses leave the agent unchanged and carry a null id |
| Runtime.ServeRequest | src/a2a_demo/agents/base_agent.py:84-96 | any well-formed request posted to the route is dispatched and answered with 200 |
| Runtime.Health | src/a2a_demo/agents/base_agent.py:106-109 | the health answer reports "healthy" and the agent's name, and nothing else |
| Runtime.CreateThenGet | src/a2a_demo/agents/base_agent.py:149-229 | a task created under a non-empty id can be fetched back; one created under the empty id is stored but can never be fetched |
| Runtime.CreateStores | src/a2a_demo/agents/base_agent.py:149-168 | creating a task under a given id always succeeds, stores the task under that id and answers its encoding |
| Runtime.GetStored | src/a2a_demo/agents/base_agent.py:216-229 | a stored task is fetched with its encoding, except under the empty id, which gives "Task '' not found" |
| Runtime.FinishedTaskAcceptsMessages | src/a2a_demo/agents/base_agent.py:179-192 | a completed or failed task still accepts a message and is processed again |
| Runtime.DispatchAllPreservesValid | src/a2a_demo/agents/base_agent.py:111-136 | any sequence of requests, each served with its own clock reading and fresh id, keeps the agent well-formed, with its name, card and method table |
| Translator.PhrasesDistinct | src/a2a_demo/agents/translator_agent.py:11-20 | no phrase occurs twice, so the table is a dictionary |
| Translator.PhraseIsKey | src/a2a_demo/agents/translator_agent.py:97-98 | each phrase is already lower-case and trimmed, so it can be looked up as given |
| Translator.PhrasePlain | src/a2a_demo/agents/translator_agent.py:11-20 | every phrase of the table is trimmed and made only of lower-case letters and spaces |
| Translator.FindRow | src/a2a_demo/agents/translator_agent.py:98 | a key is found exactly when some phrase equals it, and the row found has that phrase |
| Translator.FirstContained | src/a2a_demo/agents/translator_agent.py:102-106 | the partial match is the first phrase, in table order, that occurs in the text; there is none exactly when no phrase occurs |
| Translator.Translate | src/a2a_demo/agents/translator_agent.py:83-108 | an unsupported language, an exact phrase, a partial match and no match each give their own reply |
| Translator.TableHit | src/a2a_demo/agents/translator_agent.py:97-100 | every phrase in the table translates to its own entry for every supported language |
| Translator.Parse | src/a2a_demo/agents/translator_agent.py:69-77 | a request parses exactly when it contains "translate" and " to " and splits on " to " into two parts; the text loses the keyword and both parts are trimmed |
| Translator.HandleTask | src/a2a_demo/agents/translator_agent.py:59-81 | a request that does not parse gets the format hint; one that parses is translated |
| Translator.RequestIsNormal | src/a2a_demo/agents/translator_agent.py:69 | a request built from lower-case, trimmed parts is unchanged by lower-casing and trimming |
| Translator.RequestSplits | src/a2a_demo/agents/translator_agent.py:73-75 | such a request splits on " to " into the head and the language |
| Translator.RemoveKeyword | src/a2a_demo/agents/translator_agent.py:76 | removing "translate" from the head leaves the text behind one space |
| Translator.RequestMentionsKeyword | src/a2a_demo/agents/translator_agent.py:73 | a built request contains "translate" |
| Translator.ParseOf | src/a2a_demo/agents/translator_agent.py:69-79 | a normalised request whose pieces come out as given parses into those pieces |
| Translator.RequestParses | src/a2a_demo/agents/translator_agent.py:72-79 | "translate T to L" parses back into T and L whenever T and L do not themselves contain the separators |
| Translator.RequestRoundTrip | src/a2a_demo/agents/translator_agent.py:59-81 | under the same conditions, handling "translate T to L" is translating T into L |
| Orchestrator.CardRequestBody | src/a2a_demo/agents/orchestrator_agent.py:62-67 | registration posts a `getAgentCard` request with id 1 and no params |
| Orchestrator.CardOf | src/a2a_demo/agents/orchestrator_agent.py:69-75 | a card is obtained exactly from a 200 reply whose JSON object has a decodable `result` |
| Orchestrator.RegisterAgent | src/a2a_demo/agents/orchestrator_agent.py:51-80 | registration succeeds exactly when a card is obtained; the card is then filed under its own name, and on failure the registry is unchanged |
| Orchestrator.RegisterLastWriteWins | src/a2a_demo/agents/orchestrator_agent.py:73 | two agents announcing the same name leave only the later card registered |
| Orchestrator.RegisterLiveAgent | src/a2a_demo/agents/orchestrator_agent.py:60-75 | an agent whose runtime answers with its card is registered with that card |
| Orchestrator.AgentBlock | src/a2a_demo/agents/orchestrator_agent.py:113-118 | each agent's block opens with its bold name |
| Orchestrator.BlocksMentionEach | src/a2a_demo/agents/orchestrator_agent.py:112-118 | the concatenated blocks mention every listed agent's heading |
| Orchestrator.ListAgents | src/a2a_demo/agents/orchestrator_agent.py:101-120 | an empty registry gives the "No agents" text; otherwise the listing opens with the agent count |
| Orchestrator.ListingMentionsEveryAgent | src/a2a_demo/agents/orchestrator_agent.py:101-120 | every registered agent appears in the listing under its name |
| Orchestrator.CreatedTaskId | src/a2a_demo/agents/orchestrator_agent.py:175-176 | the task id is found exactly when the reply object has a `result` object with a `task_id` |
| Orchestrator.ScanBack | src/a2a_demo/agents/orchestrator_agent.py:202-206 | the answer is the content of the last message whose role is `agent`; there is none only when every message has another role |
| Orchestrator.LastAgentMessage | src/a2a_demo/agents/orchestrator_agent.py:199-206 | a list is scanned; an empty dict or string yields no answer; a non-empty one or any other value fails |
| Orchestrator.ReplyContent | src/a2a_demo/agents/orchestrator_agent.py:198-206 | an unreadable body fails, and a content is only found in a reply object with a `result` |
| Orchestrator.ContentText | src/a2a_demo/agents/orchestrator_agent.py:197-209 | a failure becomes the delegation error, no agent message the "No response" text, and a content its string form |
| Orchestrator.Delegate | src/a2a_demo/agents/orchestrator_agent.py:153-209 | one or two requests are sent, all to the agent's URL; the second is sent exactly when task creation answered 200 with a task id; each failure gives its own text |
| Orchestrator.SendToCreated | src/a2a_demo/agents/orchestrator_agent.py:178-206 | after a created task, exactly the creation request and the message request are sent, and each outcome of the second gives its own text |
| Orchestrator.DelegateRelays | src/a2a_demo/agents/orchestrator_agent.py:163-206 | when creation answers 200 with a task id and the message answers 200, the answer is the relayed content after exactly those two requests |
| Orchestrator.ScanEncodedMessages | src/a2a_demo/agents/orchestrator_agent.py:199-206 | scanning the wire form of a task's messages finds the same answer the client's typed scan finds |
| Orchestrator.DelegateToLiveAgent | src/a2a_demo/agents/orchestrator_agent.py:163-206 | an agent that creates a task and answers with the processed task gets both requests, and its last agent message is relayed |
| Orchestrator.CreatedTaskOf | src/a2a_demo/agents/orchestrator_agent.py:175-176 | the task id read from the runtime's answer to `createTask` is the created task's id |
| Orchestrator.RelayedContentOf | src/a2a_demo/agents/orchestrator_agent.py:197-206 | the content read from the runtime's answer to `sendTaskMessage` is the task's last agent message, or none |
| Orchestrator.Consult | src/a2a_demo/agents/orchestrator_agent.py:134-146 | an agent is consulted exactly when a keyword occurs and the agent is registered |
| Orchestrator.ConsultSendsTo | src/a2a_demo/agents/orchestrator_agent.py:134-146 | a consultation sends requests only to the URL of the agent registered under that name |
| Orchestrator.Orchestrate | src/a2a_demo/agents/orchestrator_agent.py:122-151 | the calculator's answer comes first and the translator's second, each prefixed and separated by a blank line; with neither, the reply lists the registered names and nothing is sent |
| Orchestrator.Combine | src/a2a_demo/agents/orchestrator_agent.py:148-151 | the answers are joined by a blank line, calculator first, and the requests are kept in that order; with no answer the reply lists the agent names |
| Orchestrator.OrchestrateSent | src/a2a_demo/agents/orchestrator_agent.py:132-146 | the router sends the calculator's requests first, then the translator's, and nothing else |
| Orchestrator.NotSureIffNothingSent | src/a2a_demo/agents/orchestrator_agent.py:148-151 | the reply opens with "I'm not sure" exactly when no request was sent |
| Orchestrator.SentOnlyToRegistered | src/a2a_demo/agents/orchestrator_agent.py:134-146 | every request the router sends goes to the URL of a registered agent |
| Orchestrator.HandleTask | src/a2a_demo/agents/orchestrator_agent.py:82-99 | a discovery phrase in the normalised content gives the listing without any request; anything else is routed |
| Orchestrator.HandleTaskSends | src/a2a_demo/agents/orchestrator_agent.py:82-99 | for any content, requests go only to registered agents; a discovery phrase sends none; otherwise the not-sure reply comes exactly when nothing was sent |
| Client.NewClient | src/a2a_demo/client/a2a_client.py:16-25 | the base URL is the given one minus its trailing slashes, and no request has been numbered yet |
| Client.ErrorKindsDistinct | src/a2a_demo/client/a2a_client.py:66-74 | a transport failure and an RPC error can never produce the same exception text |
| Client.RequestBody | src/a2a_demo/client/a2a_client.py:49-53 | the body the client sends decodes as the request with that method, params and id |
| Client.ReplyResult | src/a2a_demo/client/a2a_client.py:55-74 | a transport failure, an error status or an unreadable body is "Request failed"; an error response is "RPC Error code: message"; otherwise the result |
| Client.CallMethod | src/a2a_demo/client/a2a_client.py:36-74 | each call sends exactly one request, to the base URL, numbered one past the last id |
| Client.CallAnswered | src/a2a_demo/client/a2a_client.py:55-71 | a 200 reply carrying a served response yields that response's result or error |
| Client.ReadResponse | src/a2a_demo/client/a2a_client.py:62-71 | reading a served response from a 200 reply returns its result, or its error as an RPC failure |
| Client.CallAgainstRuntime | src/a2a_demo/client/a2a_client.py:36-74 | against an agent runtime, a call returns exactly the runtime's result, or the runtime's error code and message |
| Client.GetAgentCard | src/a2a_demo/client/a2a_client.py:76-83 | one numbered `getAgentCard` request; the result is the decoded card or the call's failure |
| Client.CreateParams | src/a2a_demo/client/a2a_client.py:95-99 | `task_id` is sent exactly when a non-empty id is given, and `metadata` exactly when non-empty metadata is given |
| Client.CreateTask | src/a2a_demo/client/a2a_client.py:85-102 | one numbered `createTask` request with those parameters; the result is the decoded task or the call's failure |
| Client.MessageParams | src/a2a_demo/client/a2a_client.py:122-128 | task id, content and role are always sent, and metadata only when non-empty |
| Client.MessageParamsRead | src/a2a_demo/client/a2a_client.py:122-128 | the agent runtime reads these parameters back as a message with the same role, content and metadata |
| Client.SendMessage | src/a2a_demo/client/a2a_client.py:104-131 | one numbered `sendTaskMessage` request; the result is the decoded task or the call's failure |
| Client.GetTask | src/a2a_demo/client/a2a_client.py:133-143 | one numbered `getTask` request naming the task |
| Client.DecodeTaskList | src/a2a_demo/client/a2a_client.py:152 | a list decodes item by item; an empty dict or string gives no tasks; anything else fails |
| Client.ListTasks | src/a2a_demo/client/a2a_client.py:145-152 | one numbered `listTasks` request; a result without `tasks` fails |
| Client.ChatReply | src/a2a_demo/client/a2a_client.py:172-177 | the answer is the last agent message, or "No response from agent" |
| Client.Chat | src/a2a_demo/client/a2a_client.py:154-177 | a task is created first exactly when no id or an empty id is given; the message is sent as the user to that task; a failed creation sends nothing more |
| Client.AfterCreate | src/a2a_demo/client/a2a_client.py:165-177 | after a creation request, a failure ends the chat and a created task is sent the message as the user, with consecutive numbering |
| Client.CountedThen | src/a2a_demo/client/a2a_client.py:27-34 | two calls in a row number their requests consecutively from the first call's starting id |
| Client.HealthCheck | src/a2a_demo/client/a2a_client.py:179-193 | the agent's answer is returned, and every failure becomes an "unhealthy" report with its text |
| Client.Unhealthy | src/a2a_demo/client/a2a_client.py:192-193 | the report has exactly `status` "unhealthy" and the error text |
| Client.HealthOfRuntime | src/a2a_demo/client/a2a_client.py:179-191 | checking a live agent runtime reports "healthy" and that agent's name |

## Left out

- Typed decoding: the model's decoders reject a wire value whose JSON type differs from the field's declared type. For example a numeric `method`, a non-string `content` or a non-object `params` is rejected. Python's dataclasses do not check types, so they carry such a value on until it is used. Values of the declared types behave as in the source.
- Floating-point JSON numbers are not modelled: `Json` has integers only.
- Exception texts: texts the code composes with f-strings are exact. The `KeyError` text `'key'` is exact. The texts of `TypeError`, `AttributeError` and `ValueError` raised inside Python itself follow CPython 3.11's wording for the value's type. `str()` and `repr()` of a non-empty container are abbreviated by `PyStr` and `PyRepr`.
- `str.lower` is modelled on ASCII letters only. `str.strip` removes the characters Python's `str.isspace` accepts.
- The clock: `datetime.utcnow()` is one `now` string per operation. Two readings within one call, such as the two `add_message` calls of `_send_task_message`, give the same instant.
- `uuid.uuid4()` is the parameter `Env.freshId`. Uniqueness of generated ids is not modelled.
- HTTP: headers, timeouts and the Flask and `requests` machinery are left out. The network is a pure function from request to outcome, so a retry or a changing server is not modelled.
- A JSON body that `requests` cannot parse raises a `RequestException` subclass, which the client reports as "Request failed". A reply that parses but is not a response object propagates its error unchanged, as `Malformed`.
- Handlers registered with `register_method` beyond the five standard ones are `Extension` tags. Their results come from the parameter `Env.extension`, and they never change the agent's state.
- Task ids are strings. A non-string `task_id` passed to `_create_task` is rejected, where Python would store it.
- Each concrete agent's `get_agent_card` (the translator's, the orchestrator's) is not modelled. The agent's card is a field of the agent.
- `BaseAgent.run`, logging by `print`, the calculator agent, the Gradio UI, the configuration module and the example script are not part of this model.
- Concurrency: Flask may serve requests in parallel. The model serves them one at a time (`DispatchAll`).
- `repr` of a string escapes the Latin-1 characters Python does not print (controls, the no-break space, the soft hyphen) as `\xhh`. Non-printable characters above U+00FF, such as format characters, private-use and unassigned code points, are written as they are instead of as `\uhhhh`.
