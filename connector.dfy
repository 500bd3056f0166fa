/**
 * The `MySQL-Server-Connector` configuration node: it owns one connection pool
 * and one keepalive timer. A probe query (`ping`) runs when the timer fires; it
 * re-arms the timer at 30 s after a success and at 5 s after a failure, and every
 * query re-arms it at 5 s. State changes are broadcast as `state` events.
 *
 * The pool, the timer and the event emitter are host facilities: the pool is a
 * flag plus a log of the statements handed to it (after placeholder
 * substitution), the timer is the delay of the one pending timeout, and the
 * events are a log. The outcome of each driver call is an input.
 */
module Connector {
  import opened Wrappers
  import opened Values
  import Placeholders

  /** A `state` event: `emit('state', code, info)`; `Reset` is the bare `emit('state')` sent on close. */
  datatype Event = Connecting | Connected | Error(info: string) | Reset

  /** What a driver call reports: its first result set, or the text of its error (`error.toString()`). */
  datatype Outcome = Done(result: JsValue) | Failed(message: string)

  /** The keepalive interval after a successful probe (the default argument of `pingReset`). */
  const NormalDelaySeconds: nat := 30
  /** The keepalive interval after a query or a failed probe. */
  const RetryDelaySeconds: nat := 5
  /** The probe statement. */
  const ProbeStatement := "SELECT version();"
  /** The rejection of a query issued before any pool exists: `this.pool` is `undefined`. */
  const NoPoolError := "TypeError: Cannot read properties of undefined (reading 'query')"

  class ServerNode {
    /** `pool.escape`: how the driver renders a parameter as an SQL literal. */
    const escape: JsValue -> string
    /** Whether `this.pool` is set; it is never unset. */
    var hasPool: bool
    /** The delay in milliseconds of the pending keepalive timeout, if one is pending. */
    var pending: Option<nat>
    /** How many times `pool.end()` was called. */
    var ended: nat
    /** The `state` events emitted so far, in order. */
    var events: seq<Event>
    /** The statements handed to `pool.query`, after placeholder substitution. */
    var statements: seq<string>

    /** How many pools were created, timeouts scheduled, cleared while pending, and fired. */
    ghost var pools: nat
    ghost var armed: nat
    ghost var cancelled: nat
    ghost var fired: nat

    /**
     * At most one pool ever exists, and at most one timeout is pending: every
     * timeout ever scheduled has been cancelled, has fired, or is the pending one.
     */
    ghost predicate Valid()
      reads this
    {
      pools == (if hasPool then 1 else 0) &&
      armed == cancelled + fired + (if pending.Some? then 1 else 0)
    }

    constructor (escape: JsValue -> string)
      ensures Valid()
      ensures this.escape == escape
      ensures !hasPool && pending == None && ended == 0 && events == [] && statements == []
      ensures armed == 0
    {
      this.escape := escape;
      hasPool, pending, ended, events, statements := false, None, 0, [], [];
      pools, armed, cancelled, fired := 0, 0, 0, 0;
    }

    /** `pingReset(timeout = 30)`: cancel the pending timeout, if any, and schedule a new one. */
    method PingReset(timeout: nat := NormalDelaySeconds)
      requires Valid()
      modifies this`pending, this`armed, this`cancelled
      ensures Valid()
      ensures pending == Some(timeout * 1000)
      ensures armed == old(armed) + 1
      ensures cancelled == old(cancelled) + (if old(pending).Some? then 1 else 0)
    {
      if pending.Some? {
        cancelled := cancelled + 1;
      }
      pending := Some(timeout * 1000);
      armed := armed + 1;
    }

    /**
     * `query(sql, values)`: hand the formatted statement to the pool and re-arm the
     * keepalive at 5 s. Without a pool the call throws before re-arming, and the
     * returned promise rejects.
     */
    method Query(sql: string, values: Option<map<string, JsValue>>, driver: Outcome) returns (r: Outcome)
      requires Valid()
      modifies this`statements, this`pending, this`armed, this`cancelled
      ensures Valid()
      ensures !hasPool ==> r == Failed(NoPoolError) && unchanged(this)
      ensures hasPool ==> r == driver
      ensures hasPool ==> statements == old(statements) + [Placeholders.QueryFormat(sql, values, escape)]
      ensures hasPool ==> pending == Some(RetryDelaySeconds * 1000)
      ensures hasPool ==> armed == old(armed) + 1
      ensures hasPool ==> cancelled == old(cancelled) + (if old(pending).Some? then 1 else 0)
    {
      if !hasPool {
        return Failed(NoPoolError);
      }
      statements := statements + [Placeholders.QueryFormat(sql, values, escape)];
      PingReset(RetryDelaySeconds);
      r := driver;
    }

    /**
     * `ping()`: run the probe statement; on success emit `connected` and re-arm at
     * 30 s, on failure emit `error` with the message and re-arm at 5 s. The probe is
     * itself a query, so it first re-arms at 5 s; that timeout is then replaced.
     */
    method Ping(probe: Outcome)
      requires Valid()
      modifies this`statements, this`pending, this`armed, this`cancelled, this`events
      ensures Valid()
      ensures var outcome := if hasPool then probe else Failed(NoPoolError);
        && events == old(events) + [if outcome.Done? then Connected else Error(outcome.message)]
        && pending == Some(if outcome.Done? then NormalDelaySeconds * 1000 else RetryDelaySeconds * 1000)
      ensures statements == old(statements) + (if hasPool then [ProbeStatement] else [])
      ensures armed == old(armed) + (if hasPool then 2 else 1)
      ensures cancelled == old(cancelled) + (if old(pending).Some? then 1 else 0) + (if hasPool then 1 else 0)
    {
      var r := Query(ProbeStatement, None, probe);
      match r
      case Done(_) =>
        events := events + [Connected];
        PingReset();
      case Failed(message) =>
        events := events + [Error(message)];
        PingReset(RetryDelaySeconds);
    }

    /** The pending timeout fires and runs `ping`. */
    method Fire(probe: Outcome)
      requires Valid() && pending.Some?
      modifies this`statements, this`pending, this`armed, this`cancelled, this`events, this`fired
      ensures Valid()
      ensures fired == old(fired) + 1
      ensures var outcome := if hasPool then probe else Failed(NoPoolError);
        && events == old(events) + [if outcome.Done? then Connected else Error(outcome.message)]
        && pending == Some(if outcome.Done? then NormalDelaySeconds * 1000 else RetryDelaySeconds * 1000)
      ensures statements == old(statements) + (if hasPool then [ProbeStatement] else [])
    {
      pending := None;
      fired := fired + 1;
      Ping(probe);
    }

    /**
     * `connect()`: always emit `connecting`; if the pool exists, stop there.
     * Otherwise create the pool and probe it once.
     */
    method Connect(probe: Outcome)
      requires Valid()
      modifies this`hasPool, this`pools, this`statements, this`pending, this`armed, this`cancelled, this`events
      ensures Valid()
      ensures hasPool && pools == 1
      ensures old(hasPool) ==> events == old(events) + [Connecting]
      ensures old(hasPool) ==> statements == old(statements) && pending == old(pending) && armed == old(armed)
      ensures !old(hasPool) ==>
        && events == old(events) + [Connecting, if probe.Done? then Connected else Error(probe.message)]
        && statements == old(statements) + [ProbeStatement]
        && pending == Some(if probe.Done? then NormalDelaySeconds * 1000 else RetryDelaySeconds * 1000)
    {
      events := events + [Connecting];
      if hasPool {
        return;
      }
      hasPool := true;
      pools := pools + 1;
      Ping(probe);
    }

    /**
     * The `close` handler: clear the pending timeout, end the pool if one was
     * created, then emit the bare `state` event.
     */
    method Close()
      requires Valid()
      modifies this`pending, this`cancelled, this`ended, this`events
      ensures Valid()
      ensures pending == None
      ensures cancelled == old(cancelled) + (if old(pending).Some? then 1 else 0)
      ensures ended == old(ended) + (if hasPool then 1 else 0)
      ensures events == old(events) + [Reset]
    {
      if pending.Some? {
        cancelled := cancelled + 1;
        pending := None;
      }
      if hasPool {
        ended := ended + 1;
      }
      events := events + [Reset];
    }
  }

  /** Closing a connector that was never connected ends nothing and only emits the bare `state` event. */
  method CloseWithoutConnect(escape: JsValue -> string) returns (node: ServerNode)
    ensures node.Valid() && !node.hasPool
    ensures node.ended == 0 && node.pending == None && node.events == [Reset]
  {
    node := new ServerNode(escape);
    node.Close();
  }

  /** Two `connect` calls create one pool; closing afterwards ends it exactly once and leaves no timeout pending. */
  method ConnectTwiceThenClose(escape: JsValue -> string, first: Outcome, second: Outcome) returns (node: ServerNode)
    ensures node.Valid() && node.pools == 1
    ensures node.ended == 1 && node.pending == None
    ensures node.statements == [ProbeStatement]
    ensures node.events == [Connecting, if first.Done? then Connected else Error(first.message), Connecting, Reset]
  {
    node := new ServerNode(escape);
    node.Connect(first);
    node.Connect(second);
    node.Close();
  }
}
