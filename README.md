# node-red-contrib-mysql-config, modelled in Dafny

The package adds two nodes to Node-RED. `MySQL-Server-Connector` is a configuration node. It owns a `mysql2` connection pool and a keepalive timer that probes the pool with `SELECT version();`. It broadcasts `state` events (`connecting`, `connected`, `error` with a message, and a bare event on close). `MySQL-Connector` is a query node. It checks each incoming message, runs `msg.topic` as SQL with `msg.payload` as named parameters, and shows the connector's state in its status badge.

This project models four things in `src/main.js`:

- `placeholders.dfy` (module `Placeholders`): the `queryFormat` hook. It rewrites `:name` placeholders in one greedy left-to-right pass (`Substitute`, `QueryFormat`). A reference view cuts the text into pieces (`Scan`) and renders each piece (`Render`). The lemmas prove three things. The greedy decomposition is the only well-formed one. It spells the text back. The rewriting is exactly its rendering, so inserted values are never rescanned.
- `connector.dfy` (module `Connector`): the configuration node as the class `ServerNode`. Its fields are `hasPool`, `pending` (the delay in ms of the one pending timeout), `ended` (calls to `pool.end()`), the log of emitted events and the log of statements handed to the pool. Ghost counters of pools created and of timeouts scheduled, cancelled and fired give the invariant `Valid()`: at most one pool, and at most one pending timeout.
- `relay.dfy` (module `Relay`): the query node. It holds the status mapping `SetState`, the message check `Validate`, and the class `QueryNode` with its `input`, `state` and `close` handlers.
- `values.dfy` and `wrappers.dfy`: JavaScript values and messages, plus `Option`/`Result`.

Host facilities become parameters or inputs:

- `pool.escape` is the connector's `escape` function.
- The outcome of each `pool.query` call (result rows or error text) is an argument of the method that makes the call.
- Timer expiry is the method `Fire`, which the host calls only while a timeout is pending.
- Delivery of a `state` event to a subscribed query node is the method `OnState`.

Where the prose description of the package and the code differ, the model follows the code:

- `connect` emits `connecting` on every call, even when the pool already exists (src/main.js:34-38). It is not free of side effects on a second call.
- The topic must be a non-empty string, not just a string (src/main.js:116).
- A query issued while no pool exists throws inside the promise executor. The promise rejects with that `TypeError`, and the keepalive is not re-armed (src/main.js:9-12).
- `close` ends the pool but does not forget it (src/main.js:73-75). A second close would call `pool.end()` again, so "the pool is ended exactly once" holds for the single close that Node-RED performs.

## Model

| member | source | states |
|---|---|---|
| Placeholders.WordRun | src/main.js:56 | `\w+` is greedy: the result is the length of the longest prefix of word characters `[A-Za-z0-9_]`. Every character before it is a word character, and the character at it (if any) is not. |
| Placeholders.Substitute | src/main.js:56-60 | The one greedy pass of `replace(/:(\w+)/g, …)`. Its own ensures: with no parameters the text comes back unchanged. Its full contract is given by `SubstituteSpec` and `SubstituteRendersScan`: each bound `:name` becomes `escape(values[name])`, everything else is copied. |
| Placeholders.QueryFormat | src/main.js:54-61 | Without values the query text comes back unchanged. With values it is the rendering of the greedy decomposition of the ORIGINAL text. |
| Placeholders.ScanSpellsText | src/main.js:56 | The pieces the regular expression cuts the text into spell the text back exactly: no character is lost or added. |
| Placeholders.ScanWellFormed | src/main.js:56 | Every placeholder name is a non-empty word run. No `:` and no placeholder is directly followed by a word character that a greedy match would have taken. |
| Placeholders.ScanUnique | src/main.js:56 | Any well-formed decomposition that spells the text is the greedy scan. So a name is always the whole word run after its colon, never a prefix of it. |
| Placeholders.SubstituteRendersScan | src/main.js:56-60 | The one-pass replacement equals the piece-by-piece rendering of the scan. |
| Placeholders.SubstituteSpec | src/main.js:56-60 | For any well-formed decomposition of the text, the result is its rendering: a bound `:name` becomes `escape(values[name])`, an unbound `:name` stays literally `:name`, and every other character is copied. |
| Placeholders.UnboundIsIdentity | src/main.js:56-60 | If no placeholder in the text names an own key of `values` (for example, empty values), the text comes back unchanged. |
| Placeholders.LiteralPrefix | src/main.js:56 | Text without a colon is copied verbatim ahead of the rewriting of whatever follows it. |
| Placeholders.PlaceholderStep | src/main.js:56-60 | `:name` followed by a non-word character or by the end of the text becomes `escape(values[name])` when `name` is a key and stays `:name` otherwise. Scanning resumes right after it. |
| Placeholders.LoneColon | src/main.js:56 | A `:` not followed by a word character is copied through. |
| Placeholders.TrailingPlaceholder | src/main.js:54-61 | A statement made of colon-free text followed by one bound `:name` formats to that text followed by `escape(values[name])`. |
| Placeholders.ExampleSelectById | src/main.js:54-61 | `SELECT * FROM t WHERE id = :id` with `{id: 5}` formats to `SELECT * FROM t WHERE id = 5` when the escape of 5 is `5`. |
| Placeholders.ExampleLongerNameKept | src/main.js:56-59 | With only `id` bound, `:idx` is left whole. |
| Placeholders.ExampleNoRescan | src/main.js:56-60 | If the escaped value of `a` is `:b` and `b` is also bound, the result is `:b`: inserted text is not substituted again. |
| Connector.ServerNode.constructor | src/main.js:6-7 | A new connector has no pool, no pending timeout, no events and no statements. |
| Connector.ServerNode.PingReset | src/main.js:14-19 | Any pending timeout is cancelled. Exactly one timeout is then pending, with delay `timeout * 1000` ms (default 30 s). The invariant "at most one pending timeout" is kept. |
| Connector.ServerNode.Query | src/main.js:9-12 | With a pool, the statement formatted by `queryFormat` goes to the pool, the keepalive is re-armed at 5 s and the driver's outcome is returned. Without a pool, the call rejects with the `TypeError` and nothing changes. |
| Connector.ServerNode.Ping | src/main.js:21-31 | A successful probe appends `connected` and leaves the keepalive armed at 30 s. A failed probe appends `error` with the message and leaves it armed at 5 s. The probe's own 5 s re-arm is counted as cancelled. |
| Connector.ServerNode.Fire | src/main.js:18 | A pending timeout fires once and runs the probe. Afterwards a timeout is pending again, at 30 s or 5 s by outcome. |
| Connector.ServerNode.Connect | src/main.js:33-66 | `connecting` is emitted on every call. An existing pool is never recreated (at most one pool exists). On the first call the pool is created and probed once. |
| Connector.ServerNode.Close | src/main.js:68-79 | The pending timeout is cleared and none remains. `pool.end()` is called only if a pool exists. The bare `state` event is emitted last. |
| Connector.CloseWithoutConnect | src/main.js:68-79 | Closing a connector that never connected ends no pool, leaves no timeout pending and emits only the bare `state` event. |
| Connector.ConnectTwiceThenClose | src/main.js:33-79 | Connecting twice creates one pool and probes once. Closing afterwards ends that pool exactly once and leaves no timeout pending. |
| Relay.SetState | src/main.js:95-111 | `connecting` shows a grey ring "connecting...", `connected` a green dot "connected", `error` a red ring carrying `info`, and `queryDone` a blue dot "query done". The badge is cleared exactly when the code is none of these four. |
| Relay.KnownCodesDistinguished | src/main.js:95-111 | Two different known codes show different badge colours. |
| Relay.EventStatus | src/main.js:95-113 | Each connector event maps to its badge: `connecting` is a grey ring, `connected` a green dot, `error` a red ring with the error text, and the bare close event clears the badge. |
| Relay.IsAnObject | src/main.js:121 | A value passes `isAnObject` exactly when it is a non-array object. |
| Relay.Validate | src/main.js:116-125 | A message is accepted iff the topic is a non-empty string and the payload is undefined or a non-array object. The topic is checked first, with its own error message. An accepted message yields the topic as SQL and the payload's keys as the values. |
| Relay.RejectsBadTopics | src/main.js:116-119 | A topic of `123` and a topic of `""` are both rejected with the topic error. |
| Relay.PayloadExamples | src/main.js:121-125 | A payload of `["a","b"]` is rejected with the payload error. `{"id": 5}` is accepted as the parameters. |
| Relay.QueryNode.constructor | src/main.js:86-149 | Without a connector, the node only reports the configuration error. With one, it subscribes and calls `connect`: `connecting` is emitted. If the pool is new, the probe statement is issued, its event is emitted and the keepalive is armed at 30 s or 5 s by outcome. Otherwise the connector's statements and timer are unchanged. |
| Relay.QueryNode.OnState | src/main.js:113 | While subscribed, each connector event replaces the badge with its `SetState` mapping. |
| Relay.QueryNode.HandleInput | src/main.js:115-141 | An invalid message is reported and leaves the connector untouched. A valid one is formatted and queried through the connector, which re-arms the keepalive at 5 s. On success the badge shows `query done` and the message is sent on with the result as payload. On failure the error is reported and shown in red. |
| Relay.QueryNode.Close | src/main.js:143-146 | The node stops listening and its badge is cleared. |

## Left out

- `mysql.createPool` and its configuration (host, port, credentials, TLS, `connectionLimit: 5`, `queueLimit: 0`, `connectTimeout: 1000`) are foreign library calls with constant configuration. The pool is a flag.
- `pool.query`, `pool.end` and `pool.escape` are foreign library calls over the network. Outcomes are inputs, `end` is a counter and `escape` is an arbitrary function.
- What the driver passes to `queryFormat` when `msg.payload` is undefined depends on the driver. The model passes "no values" (`None`).
- Real timing is left out. `setTimeout`/`clearTimeout` become the `pending` delay and the `Fire` method. The source clears a handle that may already have fired; the model treats that as a no-op.
- Promise interleavings are left out. Each call runs to completion before the next event, so the model does not capture a keepalive that fires while a slow query is still outstanding. It also does not capture a result that arrives after close.
- The relay's `connect()` is not awaited in the source. The model runs it to completion inside the constructor.
- Node-RED runtime plumbing is left out: `createNode`, `registerType`, `getNode`, `send`, `error` rendering and the `done` callback. Sent messages and reported errors are logs.
- Relay.QueryNode.Close: only this node's subscription ends. In the source, `removeAllListeners()` removes every `state` listener on the connector, including those of other query nodes that share it. The host's listener registry is not modelled.
- Relay.QueryNode.constructor: the events the first `connect` emits do not update this node's badge automatically. Delivery of events to listeners is the host's job and is modelled by `OnState`.
- JavaScript numbers are integers here. Floating point, functions, `Symbol` keys and inherited properties are not modelled. A payload's keys are its own keys, matching `hasOwnProperty`.
