# unity-tools promises, dispatchers and request bodies in Dafny

This project models the threading and HTTP-body core of the unity-tools
library (C#):

- **UnityTask** is a single-assignment promise. It has a finished/succeeded
  flag, a result or an exception, and four ordered callback lists (success,
  failure, progress, end). Its operations are `Resolve`, `Reject`, `Then`,
  `Notify` and the `Result` getter. A task with a dispatcher queues each
  callback call on it instead of making it inline.
- **`All` and `AllSequential`** combine tasks. Their closures share a counter,
  a results array, a fail-fast flag and a combined task.
- **The dispatchers** are queues that move actions onto the engine's main
  thread. `UnityDispatcher` is the newer component. `ActionDispatcher` is the
  older static class. Both provide `Dispatch`, `DispatchWait`, a pump that
  snapshots and clears the queue and then runs it, and `Awake`.
- **The request builder** `UnityAgentRequest` holds an optional body
  (`Send` ×3, `ContentType`), query variables (`Query` ×2) and headers
  (`Set` ×2).
- **The form body** `UnityAgentFormDataType` accumulates text and serves it
  as a UTF-8 memory stream.

Layout, one Dafny module per file:

| file | module | what |
|---|---|---|
| common.dfy | Common | Option, Result, the exceptions the library raises |
| task_model.dfy | TaskModel | the task as a pure state machine, and lemmas over any sequence of operations |
| unity_task.dfy | UnityTasks | class `UnityTask`, proved to follow TaskModel |
| action_queue.dfy | ActionQueue | wait handles, and what one pump does as a trace of effects |
| unity_dispatcher.dfy | UnityDispatcherModel | class `UnityDispatcher` |
| action_dispatcher.dfy | ActionDispatcherModel | class `ActionDispatcher` |
| join_model.dfy | JoinModel | `All` / `AllSequential` as state machines over handler calls, and lemmas over whole runs |
| joins.dfy | Joins | classes `JoinAll` / `JoinSequential`, whose handler methods are proved to follow JoinModel |
| utf8.dfy | Utf8 | UTF-8 encoder and decoder (RFC 3629, section 3) |
| form_data.dfy | FormData | `MemoryStream` and class `UnityAgentFormDataType` |
| agent_request.dfy | AgentRequest | class `UnityAgentRequest` and a pure model of its body |

Modelling choices:

- A callback is a number. Calling it is an `Invocation` of that number with
  a payload.
- Calls made inline are appended to the task's `fired` log. With a
  dispatcher, each call becomes one queued action, in the same order.
- The current thread id is a parameter.
- Whether an action throws is a parameter `throws`. A pump's observable
  behaviour is a trace of `Ran`, `LoggedException` and `Released` effects.
- The static fields of the dispatchers are the fields of one object.
- An input task settling and calling a handler of `All`/`AllSequential` is
  a `JoinEvent`. Each input settles at most once, so each index reports at
  most once.

Behaviour of the code that the model keeps as it is:

- `Notify` calls the progress callbacks after settlement too: it does not
  check `_finished` (UnityTask.cs:141-154).
- `All` of no tasks never settles: the counter starts at zero and no
  handler ever runs. `AllSequential` of no factories throws
  `ArgumentOutOfRange` at `sequentialActions[0]`.
- On a failure, `All` rejects at once and the results of the other tasks
  are discarded (the doc comments at UnityTask.cs:118-119 and 284-285). A
  second input failure calls `Reject` on the finished combined task, which
  throws `InvalidOperationException`. `JoinModel.AllAfterFailure` counts
  these faults.
- The doc comment of `Send(string)` says the parts are separated by an
  ampersand. `AppendData` adds nothing between them
  (`AgentRequest.TextSendsAccumulate`, `FormData.JoinedEncoding`).

## Model

| member | source | states |
|---|---|---|
| TaskModel.Resolve | UnityTools/Threading/UnityTask.cs:194-220 | On a finished task: throws InvalidOperation, changes nothing and calls nothing. Otherwise: settles to Fulfilled(v), calls every success callback with exactly v in order, then every end callback, and never passes a failure payload. |
| TaskModel.Reject | UnityTools/Threading/UnityTask.cs:160-188 | On a finished task: throws, changes nothing, calls nothing. Otherwise: settles to Rejected(e) with the result reset to null, calls every failure callback with e in order, then every end callback, and never passes a success payload. |
| TaskModel.Then | UnityTools/Threading/UnityTask.cs:230-281 | Never throws and never changes the settlement. A success/failure callback for an outcome that has already happened is called now with the stored value/exception. Otherwise it is stored. Progress and end callbacks are always stored, so an end callback attached after `Resolve`/`Reject` has returned never runs. |
| TaskModel.Notify | UnityTools/Threading/UnityTask.cs:141-154 | Calls every progress callback with p, in order, whether or not the task has settled. The state is unchanged. |
| TaskModel.SettledTaskIsFinal | UnityTools/Threading/UnityTask.cs:160-220 | After any operations on a settled task, the settlement is unchanged. Exactly the Resolve/Reject calls throw. Every payload delivered is progress or the stored outcome. |
| TaskModel.FirstSettlementWins | UnityTools/Threading/UnityTask.cs:160-220 | From a pending task, the final settlement is the first Resolve/Reject of the sequence. Every success/failure payload ever delivered is that settlement's. |
| TaskModel.AttachThenResolve | UnityTools/Threading/UnityTask.cs:194-281 | A success callback attached while the task is pending and then resolved with v runs once with v. It runs after the earlier success callbacks and before every end callback. |
| TaskModel.ResolveThenAttach | UnityTools/Threading/UnityTask.cs:194-281 | A success callback attached right after Resolve(v) runs once with v, at once. It runs after every end callback. |
| TaskModel.AttachThenReject | UnityTools/Threading/UnityTask.cs:160-281 | A failure callback attached while the task is pending and then rejected with e runs once with e. It runs after the earlier failure callbacks and before every end callback. |
| TaskModel.RejectThenAttach | UnityTools/Threading/UnityTask.cs:160-281 | A failure callback attached right after Reject(e) runs once with e, at once. It runs after every end callback. |
| TaskModel.AttachBeforeOrAfterResolve | UnityTools/Threading/UnityTask.cs:194-281 | A success callback attached before or after Resolve(v) gives the same settlement and the same calls up to order. The callback is called with v exactly once. |
| TaskModel.AttachBeforeOrAfterReject | UnityTools/Threading/UnityTask.cs:160-281 | A failure callback attached before or after Reject(e) gives the same settlement and the same calls up to order. The callback is called with e exactly once. |
| UnityTasks.UnityTask.constructor | UnityTools/Threading/UnityTask.cs:38-42 | A pending task with the given dispatcher, no callbacks and no calls made. |
| UnityTasks.UnityTask.Deliver | UnityTools/Threading/UnityTask.cs:206-217 | Calls each callback with the payload, in order. Without a dispatcher the calls run inline. With one, each is queued on it, nothing else of the dispatcher changes, and nothing runs inline. |
| UnityTasks.UnityTask.FireEndCallbacks | UnityTools/Threading/UnityTask.cs:380-394 | Makes exactly the end-callback calls, in order, inline or queued. |
| UnityTasks.UnityTask.Result | UnityTools/Threading/UnityTask.cs:85-103 | On a finished task: the stored value if it succeeded, else the stored exception to rethrow. |
| UnityTasks.UnityTask.Resolve | UnityTools/Threading/UnityTask.cs:194-220 | Leaves the state, outcome and calls that TaskModel.Resolve gives. Result becomes the value. A second settle throws and Result is unchanged. |
| UnityTasks.UnityTask.Reject | UnityTools/Threading/UnityTask.cs:160-188 | Leaves the state, outcome and calls that TaskModel.Reject gives. Result becomes the error. A second settle throws and Result is unchanged. |
| UnityTasks.UnityTask.AttachSuccess | UnityTools/Threading/UnityTask.cs:232-249 | A success callback is called now with the stored result if the task succeeded, otherwise appended. |
| UnityTasks.UnityTask.AttachFailure | UnityTools/Threading/UnityTask.cs:251-268 | A failure callback is called now with the stored exception if the task failed, otherwise appended. |
| UnityTasks.UnityTask.Then | UnityTools/Threading/UnityTask.cs:230-281 | Returns the task itself and leaves the state and calls that TaskModel.Then gives. |
| UnityTasks.UnityTask.Notify | UnityTools/Threading/UnityTask.cs:141-154 | The state is unchanged. It makes the calls of TaskModel.Notify, inline or queued. |
| JoinModel.AllOnFulfilled | UnityTools/Threading/UnityTask.cs:301-314 | A success handler keeps the combined task consistent and the results array the same size. |
| JoinModel.AllOnFailure | UnityTools/Threading/UnityTask.cs:315-319 | A failure handler keeps the combined task consistent and the results unchanged. |
| JoinModel.AllWhileSucceeding | UnityTools/Threading/UnityTask.cs:288-324 | While no input has failed: slot i holds input i's value whatever the completion order, unreported slots are null, and the count of pending inputs is exact. The combined task is resolved with the array exactly when all n > 0 inputs have reported, so with no input it never settles. No handler throws. |
| JoinModel.AllAfterFailure | UnityTools/Threading/UnityTask.cs:288-324 | After the first failure, the combined task is rejected with that failure's error and later successes are ignored. Each later failure throws, since it rejects a finished task. |
| JoinModel.AllIndependentOfOrder | UnityTools/Threading/UnityTask.cs:301-314 | The same successful reports in any order give the same results array and the same combined settlement. |
| JoinModel.SeqStart | UnityTools/Threading/UnityTask.cs:332-374 | With no factory it throws ArgumentOutOfRange. Otherwise factory 0 is started and the combined task is pending. |
| JoinModel.SeqOnFulfilled | UnityTools/Threading/UnityTask.cs:349-362 | A success handler keeps the combined task consistent and the results array the same size. |
| JoinModel.SeqOnFailure | UnityTools/Threading/UnityTask.cs:363-366 | A failure handler keeps the combined task consistent and the results unchanged. |
| JoinModel.SequentialRun | UnityTools/Threading/UnityTask.cs:332-374 | In any run that can happen, the k-th report comes from input k, and factory k+1 starts only after input k succeeded. A failure stops all further starts and rejects with its error. The last success resolves with the results in input order. No handler throws. |
| Joins.JoinAll.All | UnityTools/Threading/UnityTask.cs:288-296 | A new combined task without a dispatcher, n pending inputs, null results, succeeding. |
| Joins.JoinAll.OnFulfilled | UnityTools/Threading/UnityTask.cs:301-314 | Updates the shared state and the combined task as JoinModel.AllOnFulfilled does, and makes its calls inline. |
| Joins.JoinAll.OnFailure | UnityTools/Threading/UnityTask.cs:315-319 | Updates the shared state and the combined task as JoinModel.AllOnFailure does, and makes its calls inline. |
| Joins.JoinSequential.AllSequential | UnityTools/Threading/UnityTask.cs:332-374 | Throws ArgumentOutOfRange with no factory. Otherwise returns a new combiner in the state JoinModel.SeqStart gives. |
| Joins.JoinSequential.Start | UnityTools/Threading/UnityTask.cs:344-368 | Records that factory i has been called. |
| Joins.JoinSequential.OnFulfilled | UnityTools/Threading/UnityTask.cs:349-362 | Updates the shared state and the combined task as JoinModel.SeqOnFulfilled does. |
| Joins.JoinSequential.OnFailure | UnityTools/Threading/UnityTask.cs:363-366 | Rejects the combined task as JoinModel.SeqOnFailure does. |
| ActionQueue.RunEffects | UnityProject/Assets/UnityTools/Threading/UnityDispatcher.cs:110-116 | Running a batch releases no handle. |
| ActionQueue.RunEffectsRunsEverything | UnityProject/Assets/UnityTools/Threading/UnityDispatcher.cs:110-116 | Every action of the batch runs, in enqueue order. Exactly the throwing ones have their exception logged, in order, and none stops the rest. |
| ActionQueue.ReleasedAfterEveryAction | UnityProject/Assets/UnityTools/Threading/UnityDispatcher.cs:110-124 | Every handle of the batch is released, and none before the last action has run. |
| UnityDispatcherModel.UnityDispatcher.constructor | UnityProject/Assets/UnityTools/Threading/UnityDispatcher.cs:22-28 | Empty queue, no handles, no instance. |
| UnityDispatcherModel.UnityDispatcher.Instance | UnityProject/Assets/UnityTools/Threading/UnityDispatcher.cs:37-47 | Throws InvalidOperation exactly when no instance has been recorded, else returns it. |
| UnityDispatcherModel.UnityDispatcher.Dispatch | UnityProject/Assets/UnityTools/Threading/UnityDispatcher.cs:58-63 | Appends the action. Nothing else changes. |
| UnityDispatcherModel.UnityDispatcher.DispatchWait | UnityProject/Assets/UnityTools/Threading/UnityDispatcher.cs:71-88 | On the main thread: runs the action at once and leaves the queue and handles unchanged. Elsewhere: appends the action and one new unset handle and blocks on it. |
| UnityDispatcherModel.UnityDispatcher.PumpActionQueue | UnityProject/Assets/UnityTools/Threading/UnityDispatcher.cs:99-125 | Leaves both lists empty and appends ActionQueue.PumpEffects of the snapshot to the trace. Every snapshot handle ends up set. |
| UnityDispatcherModel.UnityDispatcher.Awake | UnityProject/Assets/UnityTools/Threading/UnityDispatcher.cs:136-143 | Records the current thread as the main thread and keeps the first instance. |
| ActionDispatcherModel.ActionDispatcher.constructor | UnityTools/Threading/UnityDispatcher.cs:112-116 | Empty queue, no handles, no instance. |
| ActionDispatcherModel.ActionDispatcher.Dispatch | UnityTools/Threading/UnityDispatcher.cs:18-23 | Appends the action. Nothing else changes. |
| ActionDispatcherModel.ActionDispatcher.DispatchWait | UnityTools/Threading/UnityDispatcher.cs:29-46 | Runs inline on the main thread. Otherwise appends the action plus one new unset handle. |
| ActionDispatcherModel.ActionDispatcher.Update | UnityTools/Threading/UnityDispatcher.cs:67-93 | Snapshots and clears both lists, runs the snapshot as ActionQueue.PumpEffects says, and sets every snapshot handle. |
| ActionDispatcherModel.ActionDispatcher.Instantiate | UnityTools/Threading/UnityDispatcher.cs:48-53 | Creates a component only when there is no instance. The component's Awake records the thread, and the new component becomes the instance. |
| ActionDispatcherModel.ActionDispatcher.Awake | UnityTools/Threading/UnityDispatcher.cs:58-65 | Records the current thread and keeps the first instance. |
| Utf8.EncodeChar | UnityTools/IO/UnityAgentFormDataType.cs:46 | One to four bytes. One byte exactly for ASCII. Every byte after the first is a continuation byte. |
| Utf8.Encode | UnityTools/IO/UnityAgentFormDataType.cs:46 | Between one and four bytes per character. |
| Utf8.DecodeEncodeChar | UnityTools/IO/UnityAgentFormDataType.cs:46 | Decoding reads back exactly the character and its bytes, whatever follows. |
| Utf8.EncodeConcat | UnityTools/IO/UnityAgentFormDataType.cs:46 | The encoding of a concatenation is the concatenation of the encodings. |
| Utf8.DecodeEncode | UnityTools/IO/UnityAgentFormDataType.cs:43-50 | Decoding the encoded body gives back the text, so the encoding is injective. |
| FormData.MemoryStream.constructor | UnityTools/IO/UnityAgentFormDataType.cs:45 | An empty stream at position 0. |
| FormData.MemoryStream.Write | UnityTools/IO/UnityAgentFormDataType.cs:47 | Overwrites from the position on, growing the stream, and moves the position past the data. |
| FormData.MemoryStream.Rewind | UnityTools/IO/UnityAgentFormDataType.cs:48 | The position becomes 0. |
| FormData.MemoryStream.Dispose | UnityTools/IO/UnityAgentFormDataType.cs:37 | Marks the stream disposed. |
| FormData.UnityAgentFormDataType.constructor | UnityTools/IO/UnityAgentFormDataType.cs:18-22 | The content type is application/x-www-form-urlencoded, the text is empty and there is no stream. |
| FormData.UnityAgentFormDataType.AppendData | UnityTools/IO/UnityAgentFormDataType.cs:28-31 | Appends the data with no separator. After Dispose it throws NullReference. |
| FormData.UnityAgentFormDataType.GetDataStream | UnityTools/IO/UnityAgentFormDataType.cs:43-50 | A fresh stream holding exactly the UTF-8 bytes of the text, at position 0, that decode back to the text. The text is not consumed. After Dispose it stores an empty stream and throws NullReference. |
| FormData.UnityAgentFormDataType.Dispose | UnityTools/IO/UnityAgentFormDataType.cs:33-41 | A no-op with no stream. Otherwise it disposes the stream and drops both the stream and the text. |
| FormData.JoinedEncoding | UnityTools/IO/UnityAgentFormDataType.cs:28-50 | The body bytes of appended parts are the parts' encodings end to end, with no separator. |
| AgentRequest.SendStep | UnityProject/Assets/UnityTools/IO/UnityAgentRequest.cs:131-193 | A Send that throws leaves the body unchanged. On a set body, only a text Send to a form body succeeds. |
| AgentRequest.TextSendsAccumulate | UnityProject/Assets/UnityTools/IO/UnityAgentRequest.cs:131-151 | Text Sends on a request without a body all succeed. The form body holds the texts run together, without separators. |
| AgentRequest.BodyIsSetOnce | UnityProject/Assets/UnityTools/IO/UnityAgentRequest.cs:131-193 | Once a body is set it keeps its kind. Every JSON or data Send throws. A JSON or custom body never changes. |
| AgentRequest.UnityAgentRequest.constructor | UnityProject/Assets/UnityTools/IO/UnityAgentRequest.cs:29-38 | No body and no query dictionary. The headers are exactly Content-Type application/x-www-form-urlencoded and User-Agent "UnityAgent HTTP client", which setting `ContentType` and `UserAgent` stores in `Headers`. |
| AgentRequest.Body.ContentType | UnityTools/IO/UnityAgentDataType.cs:25-31 | A form body's content type is application/x-www-form-urlencoded, a JSON body's is application/json, and a custom body's is the one it was made with. |
| AgentRequest.UnityAgentRequest.ContentType | UnityProject/Assets/UnityTools/IO/UnityAgentRequest.cs:56-70 | The default application/x-www-form-urlencoded with no body or a form body. application/json for a JSON body. The body's own type for a custom body. |
| AgentRequest.UnityAgentRequest.SendText | UnityProject/Assets/UnityTools/IO/UnityAgentRequest.cs:131-151 | Follows SendStep. With no body: a new form body holding exactly the text. With a form body: appends to the same form and leaves its stream as it was, or throws NullReference once it is disposed. Any other body: throws and leaves it unchanged. Returns the request. |
| AgentRequest.UnityAgentRequest.SendJson | UnityProject/Assets/UnityTools/IO/UnityAgentRequest.cs:161-174 | Follows SendStep. Sets a JSON body only when no body is set, whatever kind an existing one is; otherwise it throws and the body is unchanged. |
| AgentRequest.UnityAgentRequest.SendData | UnityProject/Assets/UnityTools/IO/UnityAgentRequest.cs:182-193 | Follows SendStep. Stores the given body, even null, only when none is set; otherwise it throws. |
| AgentRequest.UnityAgentRequest.QueryVar | UnityProject/Assets/UnityTools/IO/UnityAgentRequest.cs:105-109 | Overwrites one entry and keeps the others. Before a dictionary has been set it throws NullReference. |
| AgentRequest.UnityAgentRequest.QueryAll | UnityProject/Assets/UnityTools/IO/UnityAgentRequest.cs:117-121 | Replaces the whole query dictionary and returns the request. |
| AgentRequest.UnityAgentRequest.SetHeader | UnityProject/Assets/UnityTools/IO/UnityAgentRequest.cs:202-206 | Overwrites one header and keeps the others. |
| AgentRequest.UnityAgentRequest.SetHeaders | UnityProject/Assets/UnityTools/IO/UnityAgentRequest.cs:214-222 | Drops all previous headers, including the Content-Type and User-Agent the constructor set, then the headers equal the dictionary. With null it throws after dropping them. |

## Left out

- The thread-spawning `UnityTask` constructor (UnityTask.cs:51-68) is not modelled: it starts a thread. Its effect is an action that may end in `Reject`.
- Blocking waits are not modelled. `Result` is only read on a finished task, so its `WaitOne` and the task's own wait handle are left out. `DispatchWait` returns `Blocked(handle)` instead of waiting.
- Locks, `GetCurrentThreadId` and concurrency are not modelled. Each method is one atomic step and the thread id is a parameter.
- `Debug.LogException` appears only as a `LoggedException` trace entry. `EventWaitHandle.Set` failing is not modelled.
- UnityTasks.UnityTask.Resolve: a callback that throws when called inline is not modelled. In the code, its exception propagates out of `Resolve`/`Reject`/`Then`/`Notify` and stops the remaining callbacks. The same holds for `Reject`, `Then` and `Notify`.
- UnityTasks.UnityTask.Reject: `Reject(null)` is not modelled. An exception here is never null.
- UnityTasks.UnityTask.Notify: each queued progress call is taken to capture its own callback, as a `foreach` variable is captured under C# 5 and later. The code does not copy the loop variable as the other three callback loops do (UnityTask.cs:176, 208, 384), so under the older capture rules every queued call would run the last progress callback. The model does not capture that.
- Callbacks and dispatched actions are inert identifiers: they cannot call back into the task or the dispatcher. The code allows it:
  - a success callback run inline by `Resolve` may call `Then(onEnd: d)` on the same task, and `FireEndCallbacks` then runs `d`;
  - a callback that adds to the list being iterated makes the loop throw `InvalidOperationException`;
  - an action that calls `Dispatch` during a pump leaves the queue non-empty after `PumpActionQueue`/`Update`.
  The model does not capture any of these, and its claims about end callbacks and empty queues hold only without re-entrant calls.
- Progress is a `float` in the source and a `real` here. It is only passed along, never computed with.
- UnityTasks.UnityTask.Then: a dispatched callback is queued as the call with the stored result. The code reads `_result` when the action runs, but the field cannot change after settlement, so the two agree.
- Joins.JoinAll.All: the loop attaching the handlers to the input tasks is not modelled. An input task calling a handler is a `JoinEvent`, and the lemmas quantify over every sequence of such events. The `UnityTask<T>` generic wrappers are not modelled.
- Joins.JoinAll.OnFulfilled: the combined task is resolved with a copy of the results array, not the array itself. Nothing writes to the array after that point, so the aliasing is not observable.
- Joins.JoinSequential.OnFulfilled: calling factory i+1 and attaching to its task is recorded as `started`. The factory's own code is not modelled.
- AgentRequest.UnityAgentRequest.QueryAll: the dictionary is stored as a value. The code stores the caller's dictionary, so later changes the caller makes to it are not modelled.
- AgentRequest.UnityAgentRequest.SetHeader: header names are compared exactly. `WebHeaderCollection` is case-insensitive and rejects restricted headers and invalid characters, which is not modelled.
- AgentRequest.UnityAgentRequest.SendText: the three exceptions the `Send` overloads throw are plain `Exception`s in the code. They are told apart here by the message they carry.
- `Begin`, the rest of the web request setup in the constructor (method, redirects, buffering, decompression), `AllowAutoRedirect`, UnityAgent.cs, UnityAgentResponse.cs and the stream copy are not modelled: they are network I/O.
- The JSON body (UnityAgentJsonDataType.cs) appears only as its content type and an opaque payload: its serialisation is LitJson's.
- `UnityDispatcher.Initialise` and `UnityDispatcher.Update` are not modelled separately. They are scene glue: `Update` only calls `PumpActionQueue`.
- Utf8.Encode: a C# string is UTF-16 and may hold a lone surrogate, which `GetBytes` replaces with U+FFFD. A Dafny `char` is a Unicode scalar value, so the model has no such strings.
