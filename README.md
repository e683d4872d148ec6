# ssexi.js server core in Dafny

ssexi.js lets a server drive a web page over Server-Sent Events. The
server changes its state when a request comes in. It then streams
*update commands* to the page: replace an HTML fragment, set a script
variable, or run a script snippet. Each command is a single-key JSON
object: `{"html": {id: html}}`, `{"js": {name: value}}` or
`{"js": {"exec": code}}`. Each one travels as one event-stream record,
`data: <json>\n\n`.

This project models the server side of the repository's three demos.

- **Advanced demo** (`advanced_demo/`, and its byte-identical copy
  `advanced_demo_python/`):
  - the per-user `Homepage` session object: posts, a set-once session
    nonce, a UI flag, a fixed secret, and the update queue;
  - the registry of logged-in sessions;
  - the four request handlers that change a session and enqueue a fixed,
    ordered batch of commands;
  - the stream endpoint that drains a session's queue into frames.
- **Simple demos** (`simple_demo_python/demo.py` and `simple_demo_node/demo.js`):
  - the counter-driven tick schedule: three HTML frames every tick, a
    variable and a log every fifth tick, a recolouring every tenth;
  - the todo list, which only grows;
  - the Node server's initial `connected` record and its `/todo` validation.

Modules:
- `Json`: a JSON value datatype. An encoder (json.dumps or JSON.stringify)
  is a parameter `dumps: Json -> string`.
- `Commands`: the `Command` datatype and its encoding into the single-key
  shape, with a partial inverse `Decode`. The encoding is not injective:
  setting a variable named `exec` to a string encodes like an execution.
- `EventStream`: the record framing, and a reader of records of exactly
  the form `data: ` + a line-free payload + LF + LF, the only form the
  servers write. Comments, other fields, CR line ends and `data:` without
  the space are not read, although section 9.2 of the WHATWG HTML Living
  Standard ("Parsing an event stream") accepts them. Frames written for
  line-free payloads read back as exactly those payloads, in order.
- `Models`: the `Homepage` class. Its fields are updated in place, and its
  queue is `Option<seq<Json>>`, absent until installed.
- `Pages`: the page fragments and the command batches each handler
  enqueues.
- `Server`:
  - the `SessionRegistry` class, a `map<string, Homepage>`;
  - the handlers as methods that mutate a session and enqueue step by step;
  - the rendering loop of the post list;
  - the drain loop of the stream endpoint.
- `TickSchedule`, `PythonDemo`, `NodeDemo`: the simple demos. The
  Python generator's `while` loop with its counter becomes a method with a
  loop invariant. The Node connection becomes a class whose `count` and
  written frames change on each tick.

Who sends a request is abstracted to `Option<string>`: the user name taken
from the auth cookie, or `None` when there is no cookie or it does not
decode. Clock readings, random choices (post texts, colours) and uuid
nonces are parameters.

Two details of the code that the contracts follow:
- After a post is added, the form-reset script sits between the list
  update and the counter update (`advanced_demo/main.py:141-150`). The
  counter therefore does not directly follow the list.
- The two simple demos use different palettes. Python's ends in
  `lightyellow` (`simple_demo_python/demo.py:76`); Node's ends in `wheat`
  (`simple_demo_node/demo.js:89`).

## Model

| member | source | states |
|---|---|---|
| Commands.Encode | advanced_demo/models.py:67-77 | a replacement becomes `{"html": {id: html}}`, a variable `{"js": {name: value}}` and a script `{"js": {"exec": code}}` |
| Commands.EncodeShape | advanced_demo/models.py:67-77 | every command encodes to a single-key object whose one field is keyed `html` or `js`, with a single-key inner object holding (id, html), (name, value) or (`exec`, code) |
| Commands.Decode | advanced_demo_python/models.py:67-77 | partial inverse of the encoding: whatever it decodes re-encodes to the same object, and it never yields a variable named `exec` holding a string |
| Commands.Canonical | advanced_demo/models.py:71-77 | the command that decoding an encoded command gives back |
| Commands.EncodeEqualIff | advanced_demo_python/models.py:71-77 | two commands encode to the same object if and only if they have the same canonical form |
| Commands.ExecVariableCollides | advanced_demo/models.py:71-77 | `send_js_variable("exec", s)` and `send_js_execution(s)` are different calls that put the same object on the queue |
| Models.RemoveAt | advanced_demo_python/models.py:56 | popping index i keeps the elements before i, shifts the later ones down by one, and loses exactly the element at i (as a multiset) |
| Models.EnqueuedIsSinglePut | advanced_demo_python/models.py:62-65 | one put: the update lands at the tail of an existing queue with the rest unchanged; an absent queue stays absent |
| Models.Homepage.constructor | advanced_demo/models.py:5-11 | a new session has the given user name, no posts, no queue, the flag cleared, an empty nonce and the fixed secret message |
| Models.Homepage.SetBtnPressed | advanced_demo/models.py:25-27 | the flag takes the given value and nothing else changes |
| Models.Homepage.SetSessionId | advanced_demo/models.py:33-36 | the nonce is taken only while it is empty; a set nonce is kept |
| Models.Homepage.AddPost | advanced_demo/models.py:48-50 | the post is appended at the end, so `post_count` grows by one; only the post list changes |
| Models.Homepage.DeletePost | advanced_demo/models.py:52-60 | succeeds if and only if 0 <= index < post count and then removes exactly that post; otherwise the list is unchanged; only the post list can change |
| Models.Homepage.QueueUpdate | advanced_demo/models.py:62-65 | the queue becomes the one-put result; only the queue changes, and the posts are unchanged |
| Models.Homepage.SendHtmlUpdate | advanced_demo/models.py:67-69 | enqueues exactly one `{"html": {id: html}}` |
| Models.Homepage.SendJsVariable | advanced_demo/models.py:71-73 | enqueues exactly one `{"js": {name: value}}` |
| Models.Homepage.SendJsExecution | advanced_demo/models.py:75-77 | enqueues exactly one `{"js": {"exec": code}}` |
| Models.SessionIdSticks | advanced_demo_python/models.py:33-36 | once the nonce is nonempty, any number of later sets leaves it unchanged |
| Models.FirstNonceKept | advanced_demo/main.py:56 | over repeated home visits from a fresh session, the first nonempty nonce offered is the one that persists |
| Server.CreateHomepage | advanced_demo/main.py:30-35 | a fresh session for the user with an empty queue installed and otherwise initial state |
| Server.SessionRegistry.constructor | advanced_demo/main.py:28 | the registry starts empty |
| Server.SessionRegistry.VerifyCredentials | advanced_demo/main.py:37-43 | returns a session if and only if the user exists and the password matches; an existing session is returned as the same object with the map unchanged; otherwise exactly one fresh, initial session holding the fixed secret is added; failures change nothing; every registered session keeps its name, its queue and the fixed secret |
| Server.SessionRegistry.Logout | advanced_demo/main.py:86-95 | removes only the named entry, and removing an absent name changes nothing; the registry invariant is kept |
| Server.SessionRegistry.Shutdown | advanced_demo/main.py:354-357 | the registry becomes empty |
| Server.Home | advanced_demo/main.py:45-60 | shown if and only if the identity resolves to a session; then the nonce follows the set-once rule and posts and queue are untouched; the frame lets it write only the nonce |
| Server.BuildPostsHtml | advanced_demo/main.py:119-140 | the string-accumulating loop produces the opening tag, then one item per post (or the placeholder), then the closing tag |
| Server.AddPost | advanced_demo/main.py:101-156 | 401 for an unresolved identity; otherwise the post is appended and exactly list, reset, counter and chart are enqueued, in that order, each reflecting the list after the append; the frame lets it write only posts and queue, so the nonce and the flag stay |
| Server.SendAddPostUpdates | advanced_demo_python/main.py:118-154 | the queue grows by exactly the four add-post commands for the current list |
| Server.GetServerMessage | advanced_demo/main.py:242-260 | 401 for an unresolved identity; otherwise exactly one `alert` exec carrying the fixed secret `🎉 Secret message from the server!` is enqueued and posts are untouched; the frame lets it write only the queue |
| Server.DeletePost | advanced_demo/main.py:262-322 | 401 for an unresolved identity; otherwise `success` if and only if the index is in range; then the post is removed and list, counter, chart and success log are enqueued; on failure posts are unchanged and only the error log is enqueued; the frame lets it write only posts and queue, so the nonce and the flag stay |
| Server.SendDeletePostUpdates | advanced_demo_python/main.py:280-320 | the queue grows by exactly the success batch or the single failure log |
| Server.SendDeletedUpdates | advanced_demo_python/main.py:282-317 | the queue grows by exactly list, counter, chart and success log for the list after the removal |
| Server.GeneratePosts | advanced_demo/main.py:158-240 | 401 for an unresolved identity; otherwise the five posts are appended and exactly the disable command, five batches, the enable command and the log are enqueued; the frame lets it write only posts and queue, so the nonce and the flag stay |
| Server.GeneratePostsFor | advanced_demo_python/main.py:173-238 | the queue grows by the disable command, the batches, the enable command and the log, in that order |
| Server.GenerateSteps | advanced_demo/main.py:184-226 | the loop appends the five posts in order, and after each one enqueues that step's batch |
| Server.GenerateStep | advanced_demo/main.py:187-224 | one loop iteration: the post is appended and then exactly list, counter and chart for the list including it are enqueued |
| Server.SendGenerateClosing | advanced_demo/main.py:226-237 | the queue grows by exactly the re-enabled button and the success log, in that order |
| Server.SendPostsBatch | advanced_demo_python/main.py:190-224 | the queue grows by exactly list, counter and chart for the current list |
| Server.EventGenerator | advanced_demo/main.py:330-334 | the drain loop writes one frame per queued update, in FIFO order, and leaves the queue empty |
| Server.MessageStream | advanced_demo/main.py:324-328 | 404 exactly for a name with no session, and then nothing is drained; otherwise that session's queued updates come out as frames in order, and every other session's queue is unchanged; the frame lets it write only the queue |
| Pages.ItemHtml | advanced_demo/main.py:125-136 | item i shows the number i + 1 and the post, and its delete form carries hidden `post_index` i and button id `delete_btn_i` |
| Pages.PostsHtml | advanced_demo/main.py:119-140 | the `ol_<user>` list: opening tag, one item per post in order or the placeholder item for an empty list, closing tag |
| Pages.CounterHtml | advanced_demo/main.py:147-150 | the `post_title_length_<user>` heading showing the post count |
| Pages.ChartExec | advanced_demo/main.py:153-154 | the chart script setting the one data point to x = y = post count, in Python's `str(dict)` form |
| Pages.ButtonHtml | advanced_demo/main.py:173-182 | the `btn_<user>` generate button, disabled while posts are being generated and enabled again afterwards (lines 227-235) |
| Pages.AlertExec | advanced_demo/main.py:258 | the `alert("…")` script carrying the session's secret |
| Pages.AddPostCommands | advanced_demo/main.py:141-154 | list, form reset, counter and chart, for the list after the append, in that order |
| Pages.DeletePostCommands | advanced_demo/main.py:280-320 | on success list, counter, chart and the success log; on failure only the error log |
| Pages.GenerateBatch | advanced_demo/main.py:212-222 | one generation step: list, counter and chart for the current list |
| Pages.GeneratePostsCommands | advanced_demo/main.py:173-238 | disabled button, one batch per generated post, enabled button, success log |
| Pages.ItemsHtmlIsEachItem | advanced_demo/main.py:123-138 | the list fragment is item k for post k with index k, for every k, in order |
| Pages.ItemsHtmlAppend | advanced_demo_python/main.py:123-136 | a post appended to the list adds exactly one item, numbered after the others, and keeps the earlier items |
| Pages.HiddenIndexReadsBack | advanced_demo/main.py:129 | in item k's markup, the `post_index` field after the item's head holds a digit run closed by a quote that reads back as k, so that item's delete form names exactly post k |
| Pages.FirstPostScenario | advanced_demo/main.py:116-150 | adding `hello` to an empty list enqueues the list with that one item first, the form reset second and the counter showing 1 third |
| Pages.FailedDeleteSendsNoHtml | advanced_demo_python/main.py:318-320 | a failed delete enqueues one command and no HTML replacement |
| Pages.Snapshots | advanced_demo_python/main.py:184-186 | one list snapshot per generation step |
| Pages.SnapshotAt | advanced_demo/main.py:184-186 | after step k the list is the old list plus the first k + 1 generated posts |
| Pages.GenerateBatchAt | advanced_demo/main.py:184-224 | the batches take 3 commands per post, and batch k is list, counter and chart for the list after step k |
| Pages.GenerateBatchesStep | advanced_demo_python/main.py:184-224 | one more generation step appends exactly that step's batch |
| Pages.GeneratePostsShape | advanced_demo/main.py:173-238 | generating five posts enqueues 1 + 5 * 3 + 2 = 18 commands: the disabled button first, then the enabled button and the log last |
| Text.NatToString | advanced_demo/main.py:127-129 | the decimal rendering of a number is nonempty, all digits, and has no leading zero |
| Text.DigitsValueOfNatToString | advanced_demo_python/main.py:127-129 | the decimal rendering reads back as the same number |
| Text.NatToStringInjective | advanced_demo_python/main.py:129-130 | distinct numbers render differently, so item indices and button ids are distinct |
| EventStream.Frame | advanced_demo/main.py:334 | one record: `data: `, the payload, and the blank line that ends the event (also `simple_demo_node/demo.js:43`, `simple_demo_python/demo.py:39`) |
| EventStream.ParseFrameOfFrame | advanced_demo_python/main.py:334 | a reader splits one record `data: p` + blank line off the stream, returning p and the rest, for any line-free payload |
| EventStream.ParseStreamOfFrames | advanced_demo/main.py:334 | the frames written for line-free payloads read back as exactly those payloads, in order |
| EventStream.ParseStreamExact | advanced_demo_python/main.py:330-334 | any stream the reader accepts is exactly the frames of what it returns |
| EventStream.DeliveredInOrder | advanced_demo_python/main.py:330-334 | with a single-line encoder, a drained queue reads back on the client as its updates' payloads, in enqueue order |
| TickSchedule.TickCommands | simple_demo_python/demo.py:33-84 | one tick's updates: timestamp, counter, todo list; the `counterValue` variable and its log when the count is a multiple of 5; the recolouring when it is a multiple of 10 (the same schedule as `simple_demo_node/demo.js:46-97`) |
| TickSchedule.RunCommands | simple_demo_python/demo.py:28-30 | ticks 1, 2, … in order, the count raised before each tick |
| TickSchedule.TickShape | simple_demo_python/demo.py:33-84 | a tick with count c emits 3 + 2 [c % 5 == 0] + [c % 10 == 0] updates: timestamp, counter and todos first; the variable if and only if c % 5 == 0, and the counter log if and only if c % 5 == 0, as updates 4 and 5 in that order; the recolouring if and only if c % 10 == 0, as the last update |
| TickSchedule.TickCounts | simple_demo_node/demo.js:72-97 | one tick sets the variable once on multiples of 5, and runs one script per multiple of 5 and one per multiple of 10 |
| TickSchedule.RunCounts | simple_demo_python/demo.py:28-84 | over ticks 1..n the variable is set n / 5 times, and n / 5 + n / 10 scripts run |
| TickSchedule.ColorAndLogDiffer | simple_demo_node/demo.js:80-96 | the log script and the recolouring script are never the same text |
| TickSchedule.TodosHtmlAppend | simple_demo_python/demo.py:50-54 | appending a todo adds exactly its `<li>` item at the end of the list's items |
| TickSchedule.StreamOfParses | simple_demo_python/demo.py:39-84 | a client reads the yielded frames back as the updates' payloads, in order |
| TickSchedule.TodoList.constructor | simple_demo_python/demo.py:15 | the todo list starts empty |
| TickSchedule.TodoList.Append | simple_demo_node/demo.js:132 | the todo is appended at the end and nothing is removed |
| PythonDemo.YieldTick | simple_demo_python/demo.py:33-84 | the frames of one tick are those of the schedule, one per update, in order, with the colour from the Python palette |
| PythonDemo.EventGenerator | simple_demo_python/demo.py:26-86 | the counter starts at 0 and is raised at the top of each tick, so n ticks yield exactly the frames of ticks 1..n in order |
| PythonDemo.AddTodo | simple_demo_python/demo.py:101-110 | the text is appended at the end and the success reply names it |
| NodeDemo.Connection.constructor | simple_demo_node/demo.js:117 | a new connection has count 0, and the connected record is the first and only thing written |
| NodeDemo.Connection.SendEvent | simple_demo_node/demo.js:42-44 | writes exactly one record `data: ` + the encoded object + blank line |
| NodeDemo.Connection.Tick | simple_demo_node/demo.js:46-97 | count is raised first; then exactly that tick's schedule is written after what was there, with the colour from the Node palette; the connected record stays first |
| NodeDemo.WebsiteLogic | simple_demo_node/demo.js:39-117 | after n timer ticks the wire holds the connected record, then the frames of ticks 1..n in order, and count is n |
| NodeDemo.ConnectionParses | simple_demo_node/demo.js:117 | a client reads the connected payload first, then every update's payload, in order |
| NodeDemo.PostTodo | simple_demo_node/demo.js:121-139 | 400 if and only if `todo_text` is missing or empty, and then the list is unchanged; otherwise the text is appended and the success reply names it |

## Left out

- HTTP routing, redirects, response objects, Jinja templates, static files and `uvicorn`/`app.listen` are left out. An HTTP outcome is a small datatype (`Status`, `StreamReply`, `Reply`). The cookie and its base64 decoding become an `Option<string>` identity.
- The login page and `login` handler beyond `verify_credentials` are left out: setting the cookie is I/O.
- `secrets.compare_digest` is modelled as string equality. Its `TypeError` on non-ASCII strings is not modelled.
- The escaping done by `json.dumps` and `JSON.stringify` is not modelled: the encoder is a parameter. Frames read back only for an encoder whose output has no line break, which both real encoders guarantee.
- Inline styles and layout whitespace of the HTML literals are not modelled. The fragments keep ids, visible text, hidden fields and scripts. The chart script is modelled in Python's `str(dict)` form.
- `asyncio.Queue` blocking, `CancelledError`, `asyncio.sleep`, `setInterval` timing and the `close`/`aborted` handlers are left out. Several consumers of one queue are left out. The drain stops where `Queue.get` would block.
- Server.GeneratePosts: the `await asyncio.sleep(0.5)` between generation steps (`advanced_demo/main.py:225`) lets other requests for the same session run in between: `add_post`, `delete_post`, `logout`, or a second `generate_posts`. The model runs the handler as one atomic step. So Pages.GenerateBatchAt's "batch k shows the old list plus the first k + 1 posts" describes only a run without such interleaving.
- Server.EventGenerator: the unbounded `while True` becomes one drain of what is queued. Updates enqueued while a client is connected appear as a later drain.
- PythonDemo.EventGenerator: the `while True` generator becomes a run of a given number of ticks. The todo list may change between ticks; each tick's `TickInput` carries the list as it stood at that tick, instead of the model interleaving `/todo` with the stream.
- NodeDemo.WebsiteLogic: the timer callbacks become a loop over the ticks that fire.
- Random post texts, random colours, clock readings and uuid nonces are parameters.
- FastAPI's `Form(...)` validation is left out. The framework answers 422 when a required field is missing or empty, or when `post_index` is not an integer. PythonDemo.AddTodo and Models.Homepage.AddPost take the text as given, so they append `""` where the framework would add nothing.
- The `print` of each received todo (`simple_demo_python/demo.py:104`) and the `console.log` of it (`simple_demo_node/demo.js:131`) are console I/O and are left out.
- NodeDemo.PostTodo takes `todo_text` as an optional string. A body value that is not a string (allowed by Node's body parser) is not modelled.
- `post_count` is left as `|posts|`, not a separate member. The contracts state counts in those terms.
- The `startup` hook does nothing, so it is left out.
- The browser client `ssexi.js` (DOM, `eval`, EventSource, reconnects) is not part of this model.
- Post and todo texts go into the HTML without escaping. The model does the same and does not reason about markup injection.
