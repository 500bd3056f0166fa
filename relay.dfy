/**
 * The `MySQL-Connector` query node: it checks each incoming message, passes the
 * SQL text and its named parameters to the connector's `query`, and shows the
 * connector's state (and its own query results) in its status badge.
 */
module Relay {
  import opened Wrappers
  import opened Values
  import opened Connector
  import Placeholders

  // ---------------------------------------------------------------------------
  // Status badge
  // ---------------------------------------------------------------------------

  /** A Node-RED node status: a coloured badge with a text, or the empty status `{}`. */
  datatype Status = Badge(fill: string, shape: string, text: Option<string>) | Blank

  /** The state codes the badge knows. */
  const KnownCodes: set<string> := {"connecting", "connected", "error", "queryDone"}

  /**
   * `setState(code, info)`: each known code has its own badge colour; an `error`
   * badge carries `info` as its text; every other code, and no code at all,
   * clears the badge.
   */
  function SetState(code: Option<string>, info: Option<string>): (s: Status)
    ensures s.Blank? <==> !(code.Some? && code.value in KnownCodes)
    ensures code == Some("connecting") ==> s == Badge("grey", "ring", Some("connecting..."))
    ensures code == Some("connected") ==> s == Badge("green", "dot", Some("connected"))
    ensures code == Some("error") ==> s == Badge("red", "ring", info)
    ensures code == Some("queryDone") ==> s == Badge("blue", "dot", Some("query done"))
    ensures code != Some("error") && s.Badge? ==> s.text.Some?
  {
    match code
    case Some("connecting") => Badge("grey", "ring", Some("connecting..."))
    case Some("connected") => Badge("green", "dot", Some("connected"))
    case Some("error") => Badge("red", "ring", info)
    case Some("queryDone") => Badge("blue", "dot", Some("query done"))
    case _ => Blank
  }

  /** Two different known codes never show the same badge colour. */
  lemma KnownCodesDistinguished(a: string, b: string, infoA: Option<string>, infoB: Option<string>)
    requires a in KnownCodes && b in KnownCodes && a != b
    ensures SetState(Some(a), infoA).fill != SetState(Some(b), infoB).fill
  {
  }

  /** The arguments `emit('state', …)` passes to the listener for each connector event. */
  function EventArgs(e: Event): (Option<string>, Option<string>) {
    match e
    case Connecting => (Some("connecting"), None)
    case Connected => (Some("connected"), None)
    case Error(info) => (Some("error"), Some(info))
    case Reset => (None, None)
  }

  /**
   * What the badge shows for each connector event: `connecting` a grey ring,
   * `connected` a green dot, `error` a red ring with the error text, and the bare
   * close event clears it.
   */
  lemma EventStatus(e: Event)
    ensures var s := SetState(EventArgs(e).0, EventArgs(e).1);
      match e
      case Connecting => s.Badge? && s.fill == "grey" && s.shape == "ring"
      case Connected => s.Badge? && s.fill == "green" && s.shape == "dot"
      case Error(info) => s == Badge("red", "ring", Some(info))
      case Reset => s == Blank
  {
  }

  // ---------------------------------------------------------------------------
  // Input validation
  // ---------------------------------------------------------------------------

  const TopicError := "msg.topic should be a string containing the SQL query."
  const PayloadError := "msg.payload should be an object containing the query arguments."
  const NotConfiguredError := "MySQL database not configured"

  /** A checked request: the SQL text and the named parameters, if any. */
  datatype Request = Request(sql: string, values: Option<map<string, JsValue>>)

  /** `value === Object(value)`: objects (arrays included) are their own object wrapper; primitives, `null` and `undefined` are not. */
  predicate IsObjectLike(v: JsValue) {
    v.Arr? || v.Obj?
  }

  /** `isAnObject`: an object that is not an array. */
  predicate IsAnObject(v: JsValue)
    ensures IsAnObject(v) <==> v.Obj?
  {
    IsObjectLike(v) && !v.Arr?
  }

  /**
   * The two checks at the top of the input handler, in order: the topic must be a
   * non-empty string, then the payload must be absent or a non-array object.
   */
  function Validate(msg: Message): (r: Result<Request, string>)
    ensures r.Ok? <==> msg.topic.Str? && msg.topic.s != "" && (msg.payload.Undefined? || msg.payload.Obj?)
    ensures !(msg.topic.Str? && msg.topic.s != "") ==> r == Err(TopicError)
    ensures msg.topic.Str? && msg.topic.s != "" && !(msg.payload.Undefined? || msg.payload.Obj?) ==> r == Err(PayloadError)
    ensures r.Ok? ==> r.value.sql == msg.topic.s
    ensures r.Ok? ==> r.value.values == (if msg.payload.Obj? then Some(msg.payload.fields) else None)
  {
    if !msg.topic.Str? || msg.topic.s == "" then Err(TopicError)
    else if !msg.payload.Undefined? && !IsAnObject(msg.payload) then Err(PayloadError)
    else Ok(Request(msg.topic.s, if msg.payload.Obj? then Some(msg.payload.fields) else None))
  }

  /** A non-string topic (`123`) and an empty topic are both rejected for the topic. */
  lemma RejectsBadTopics(payload: JsValue)
    ensures Validate(Message(Num(123), payload)) == Err(TopicError)
    ensures Validate(Message(Str(""), payload)) == Err(TopicError)
  {
  }

  /** An array payload is rejected; an object such as `{"id": 5}` is passed on as the parameters. */
  lemma PayloadExamples(sql: string)
    requires sql != ""
    ensures Validate(Message(Str(sql), Arr([Str("a"), Str("b")]))) == Err(PayloadError)
    ensures Validate(Message(Str(sql), Obj(map["id" := Num(5)]))) == Ok(Request(sql, Some(map["id" := Num(5)])))
  {
  }

  // ---------------------------------------------------------------------------
  // The node
  // ---------------------------------------------------------------------------

  class QueryNode {
    /** `this.serverConfig`: the connector, or `null` when none is configured. */
    const server: ServerNode?
    /** The status badge. */
    var status: Status
    /** Whether this node still listens to the connector's `state` events. */
    var subscribed: bool
    /** The messages passed to `this.error`, in order. */
    var errors: seq<string>
    /** The messages sent on the output, in order. */
    var sent: seq<Message>

    /**
     * Without a connector the node reports a configuration error and stays inert.
     * Otherwise it subscribes to the connector's events and calls its `connect`.
     */
    constructor (server: ServerNode?, probe: Outcome)
      requires server != null ==> server.Valid()
      modifies server
      ensures this.server == server && status == Blank && sent == []
      ensures server == null ==> !subscribed && errors == [NotConfiguredError]
      ensures server != null ==>
        && subscribed && errors == []
        && server.Valid() && server.hasPool && server.pools == 1 && server.ended == old(server.ended)
        && server.events == old(server.events) + [Connecting]
             + (if old(server.hasPool) then [] else [if probe.Done? then Connected else Error(probe.message)])
        && server.statements == old(server.statements) + (if old(server.hasPool) then [] else [ProbeStatement])
        && (old(server.hasPool) ==> server.pending == old(server.pending))
        && (!old(server.hasPool) ==>
              server.pending == Some(if probe.Done? then NormalDelaySeconds * 1000 else RetryDelaySeconds * 1000))
    {
      this.server := server;
      status := Blank;
      sent := [];
      subscribed := server != null;
      errors := if server == null then [NotConfiguredError] else [];
      new;
      if server != null {
        server.Connect(probe);
      }
    }

    /** The `state` listener: reflect a connector event in the badge while subscribed. */
    method OnState(e: Event)
      modifies this`status
      ensures status == if subscribed then SetState(EventArgs(e).0, EventArgs(e).1) else old(status)
    {
      if subscribed {
        status := SetState(EventArgs(e).0, EventArgs(e).1);
      }
    }

    /**
     * The `input` handler. An invalid message is reported and issues no query. A
     * valid one is queried through the connector; on success the badge shows
     * `query done` and the message is sent on with the first result set as its
     * payload, on failure the error is reported and shown on the badge.
     */
    method HandleInput(msg: Message, driver: Outcome)
      requires server != null ==> server.Valid()
      modifies this`status, this`errors, this`sent, server
      ensures server == null ==> unchanged(this)
      ensures server != null ==> server.Valid()
      ensures server != null && Validate(msg).Err? ==>
        && errors == old(errors) + [Validate(msg).error]
        && status == old(status) && sent == old(sent)
        && unchanged(server)
      ensures server != null && Validate(msg).Ok? ==>
        var request := Validate(msg).value;
        var outcome := if server.hasPool then driver else Failed(NoPoolError);
        && server.hasPool == old(server.hasPool) && server.events == old(server.events)
        && server.ended == old(server.ended)
        && server.statements == old(server.statements)
             + (if server.hasPool then [Placeholders.QueryFormat(request.sql, request.values, server.escape)] else [])
        && (server.hasPool ==> server.pending == Some(RetryDelaySeconds * 1000))
        && (!server.hasPool ==> server.pending == old(server.pending))
        && (outcome.Done? ==>
              && status == SetState(Some("queryDone"), None)
              && sent == old(sent) + [msg.(payload := outcome.result)]
              && errors == old(errors))
        && (outcome.Failed? ==>
              && status == SetState(Some("error"), Some(outcome.message))
              && errors == old(errors) + [outcome.message]
              && sent == old(sent))
    {
      if server == null {
        return;
      }
      match Validate(msg)
      case Err(e) =>
        errors := errors + [e];
      case Ok(request) =>
        var r := server.Query(request.sql, request.values, driver);
        match r
        case Done(result) =>
          status := SetState(Some("queryDone"), None);
          sent := sent + [msg.(payload := result)];
        case Failed(message) =>
          errors := errors + [message];
          status := SetState(Some("error"), Some(message));
    }

    /** The `close` handler: stop listening to the connector and clear the badge. */
    method Close()
      modifies this`subscribed, this`status
      ensures !subscribed && status == Blank
    {
      subscribed := false;
      status := SetState(None, None);
    }
  }
}
