/**
 * The relay of log records from client sessions to the log sink:
 * `getIPCmsg`, `on_receive_cmd`, and `on_connect_cmd` with the table of
 * sessions the event loop keeps.
 *
 * The IPC transport is opaque: the results of `is_message_pending`,
 * `waitin` and `recv` are inputs, and the records handed to
 * `cl_direct_log` are outputs.
 */
module Relay {
  import opened Wrappers
  import opened CStrings

  /** The return codes of the IPC transport. `IpcOther` is any code the
      switch in `getIPCmsg` does not name. */
  datatype IpcRc = IpcOk | IpcFail | IpcBroken | IpcIntr | IpcOther

  /** The body a client sends: `LogDaemonMsg`. Its message is read as a C
      string, up to its first NUL. */
  datatype LogDaemonMsg = LogDaemonMsg(priority: int, message: CString, usePriStr: bool)

  /** A received IPC message: its body (NULL or not), its length, and whether
      it carries a `msg_done` completion callback. */
  datatype IpcMessage = IpcMessage(body: Option<LogDaemonMsg>, len: nat, hasDone: bool)

  /** What `recv` returns: its code and the message pointer it filled in. */
  datatype RecvReply = RecvReply(rc: IpcRc, msg: Option<IpcMessage>)

  /** The arguments of one `cl_direct_log` call. */
  datatype LogRecord = LogRecord(priority: int, text: CString, usePriStr: bool)

  /** Transport calls, pauses and diagnostic lines, in order. */
  datatype Event =
    | CallWaitin
    | CallRecv
    | Sleep(seconds: nat)
    | LogWaitinFailure
    | LogEcho(text: string)
    | LogInvalidMsg
    | LogNullChannel

  /** The outcome of `getIPCmsg`: the message obtained, if any. */
  datatype Fetch = Fetch(msg: Option<IpcMessage>, trace: seq<Event>)

  /** `getIPCmsg`, given the codes `waitin` and `recv` would return. */
  function GetIpcMsg(waitin: IpcRc, recv: RecvReply): (r: Fetch)
    ensures r.msg.Some? <==> waitin == IpcOk && recv.rc == IpcOk && recv.msg.Some?
    ensures r.msg.Some? ==> r.msg == recv.msg
    ensures |r.trace| > 0 && r.trace[0] == CallWaitin
    ensures CallRecv in r.trace <==> waitin == IpcOk
    ensures Sleep(1) in r.trace <==> waitin == IpcBroken
    ensures LogWaitinFailure in r.trace <==> waitin == IpcFail || waitin == IpcOther
  {
    match waitin
    case IpcOk =>
      if recv.rc != IpcOk then Fetch(None, [CallWaitin, CallRecv])
      else Fetch(recv.msg, [CallWaitin, CallRecv])
    case IpcBroken => Fetch(None, [CallWaitin, Sleep(1)])
    case IpcIntr => Fetch(None, [CallWaitin])
    case _ => Fetch(None, [CallWaitin, LogWaitinFailure])
  }

  /** A message whose body may be relayed: a non-NULL body and a positive
      length. */
  predicate HasPayload(m: IpcMessage) {
    m.body.Some? && m.len > 0
  }

  /** The record a payload is relayed as: its three fields, unchanged. */
  function RecordOf(m: IpcMessage): LogRecord
    requires m.body.Some?
  {
    LogRecord(m.body.value.priority, m.body.value.message, m.body.value.usePriStr)
  }

  /** One readiness notification of a session: the answer of
      `is_message_pending` and the codes of `waitin` and `recv` the handler
      sees, and whether the channel reports itself disconnected once the
      handler has returned. */
  datatype Readiness = Readiness(pending: bool, waitin: IpcRc, recv: RecvReply, closed: bool)

  /** Whether a readiness notification yields a message. */
  predicate Obtains(e: Readiness) {
    e.pending && e.waitin == IpcOk && e.recv.rc == IpcOk && e.recv.msg.Some?
  }

  /** The outcome of `on_receive_cmd`: its return value (FALSE makes the event
      loop drop the session), the records handed to the sink, whether
      `msg_done` was called, and the rest of what it did. */
  datatype Received = Received(keep: bool, forwarded: seq<LogRecord>, msgDone: bool, trace: seq<Event>)

  /** `on_receive_cmd`. */
  function OnReceive(e: Readiness): (r: Received)
    // nothing pending: succeed without touching the transport
    ensures !e.pending ==> r == Received(true, [], false, [])
    // FALSE exactly when a pending message could not be obtained
    ensures r.keep <==> !e.pending || Obtains(e)
    // at most one record, and it is the payload's fields, unchanged
    ensures |r.forwarded| <= 1
    ensures |r.forwarded| == 1 <==> Obtains(e) && HasPayload(e.recv.msg.value)
    ensures |r.forwarded| == 1 ==> r.forwarded[0] == RecordOf(e.recv.msg.value)
    // the completion callback runs only after a relayed payload
    ensures r.msgDone <==> |r.forwarded| == 1 && e.recv.msg.value.hasDone
    // a message without payload is reported, not relayed
    ensures LogInvalidMsg in r.trace <==> Obtains(e) && !HasPayload(e.recv.msg.value)
  {
    if !e.pending then Received(true, [], false, [])
    else
      var fetch := GetIpcMsg(e.waitin, e.recv);
      match fetch.msg
      case None => Received(false, [], false, fetch.trace)
      case Some(m) =>
        if HasPayload(m) then
          var rec := RecordOf(m);
          Received(true, [rec], m.hasDone, fetch.trace + [LogEcho(rec.text)])
        else
          Received(true, [], false, fetch.trace + [LogInvalidMsg])
  }

  /* ------------------------------------------------------- sessions */

  /** The event loop's handle on a session. */
  type SourceId = nat

  /** A transport channel. */
  type ChannelId = nat

  /** `ha_logd_client_t`: the peer's application name (not yet known when the
      session is created) and the session's channel. */
  datatype Client = Client(appName: Option<string>, chan: ChannelId)

  /** The sessions the event loop dispatches to, the next free handle, and
      every record handed to the sink so far. */
  datatype Daemon = Daemon(clients: map<SourceId, Client>, nextSource: SourceId, sink: seq<LogRecord>)

  /** Handles are never reused: every session's handle is below the next
      free one. */
  ghost predicate Valid(d: Daemon) {
    forall id :: id in d.clients ==> id < d.nextSource
  }

  /** The daemon before any client connects. */
  function Idle(): (d: Daemon)
    ensures Valid(d) && d.clients == map[] && d.sink == []
  {
    Daemon(map[], 0, [])
  }

  /** The outcome of `on_connect_cmd`. */
  datatype Connected = Connected(daemon: Daemon, keep: bool, trace: seq<Event>)

  /** `on_connect_cmd`: a NULL channel is reported and ignored; any other
      channel gets one new session, under a fresh handle. The listener is
      always kept. */
  function OnConnect(d: Daemon, ch: Option<ChannelId>): (r: Connected)
    requires Valid(d)
    ensures r.keep && Valid(r.daemon) && r.daemon.sink == d.sink
    ensures ch.None? ==> r.daemon == d && r.trace == [LogNullChannel]
    ensures ch.Some? ==>
              && d.nextSource !in d.clients
              && r.daemon.clients.Keys == d.clients.Keys + {d.nextSource}
              && r.daemon.clients[d.nextSource] == Client(None, ch.value)
              && (forall id :: id in d.clients ==> r.daemon.clients[id] == d.clients[id])
              && r.trace == []
  {
    match ch
    case None => Connected(d, true, [LogNullChannel])
    case Some(c) =>
      var clients := d.clients[d.nextSource := Client(None, c)];
      Connected(Daemon(clients, d.nextSource + 1, d.sink), true, [])
  }

  /** The event loop dispatching one readiness notification to session `id`:
      the handler runs and its records go to the sink; a FALSE return, or a
      channel that reports itself disconnected afterwards, removes the
      session. */
  function Dispatch(d: Daemon, id: SourceId, e: Readiness): (r: Daemon)
    requires id in d.clients
    ensures r.nextSource == d.nextSource
    ensures r.sink == d.sink + OnReceive(e).forwarded
    ensures id in r.clients <==> OnReceive(e).keep && !e.closed
    ensures id in r.clients ==> r.clients[id] == d.clients[id]
    ensures forall o :: o != id ==> (o in r.clients <==> o in d.clients)
    ensures forall o :: o != id && o in d.clients ==> r.clients[o] == d.clients[o]
    ensures Valid(d) ==> Valid(r)
  {
    var out := OnReceive(e);
    var clients := if out.keep && !e.closed then d.clients else d.clients - {id};
    Daemon(clients, d.nextSource, d.sink + out.forwarded)
  }

  /** Sessions are independent: serving two different sessions in either
      order leaves the same sessions and hands the sink the same records,
      possibly in a different order. */
  lemma DispatchCommutes(d: Daemon, a: SourceId, b: SourceId, ea: Readiness, eb: Readiness)
    requires a in d.clients && b in d.clients && a != b
    ensures b in Dispatch(d, a, ea).clients && a in Dispatch(d, b, eb).clients
    ensures Dispatch(Dispatch(d, a, ea), b, eb).clients == Dispatch(Dispatch(d, b, eb), a, ea).clients
    ensures multiset(Dispatch(Dispatch(d, a, ea), b, eb).sink) == multiset(Dispatch(Dispatch(d, b, eb), a, ea).sink)
  {
    var da, db := Dispatch(d, a, ea), Dispatch(d, b, eb);
    var ab, ba := Dispatch(da, b, eb), Dispatch(db, a, ea);
    assert ab.clients == ba.clients by {
      assert ab.clients.Keys == ba.clients.Keys;
    }
    var fa, fb := OnReceive(ea).forwarded, OnReceive(eb).forwarded;
    assert multiset(ab.sink) == multiset(d.sink) + multiset(fa) + multiset(fb) by {
      assert ab.sink == d.sink + fa + fb;
    }
    assert multiset(ba.sink) == multiset(d.sink) + multiset(fb) + multiset(fa) by {
      assert ba.sink == d.sink + fb + fa;
    }
  }

  /** The records a session relays for a series of readiness notifications,
      stated from the notifications alone: each obtained message with a
      payload contributes its record, in order, and the series ends at the
      first pending message that could not be obtained, or just after the
      first notification whose channel reports itself disconnected. */
  ghost function Expected(es: seq<Readiness>): seq<LogRecord>
    decreases |es|
  {
    if |es| == 0 then []
    else
      var e := es[0];
      var later := if e.closed then [] else Expected(es[1..]);
      if !e.pending then later
      else if !Obtains(e) then []
      else if HasPayload(e.recv.msg.value) then [RecordOf(e.recv.msg.value)] + later
      else later
  }

  /** The event loop serving session `id` with a series of notifications;
      once the session is gone nothing more is dispatched to it. */
  function Serve(d: Daemon, id: SourceId, es: seq<Readiness>): (r: Daemon)
    ensures r.nextSource == d.nextSource
    decreases |es|
  {
    if |es| == 0 || id !in d.clients then d
    else Serve(Dispatch(d, id, es[0]), id, es[1..])
  }

  /** One notification's share of `Expected`: what `OnReceive` forwards for
      it, followed by the rest when the session survives it. */
  lemma ExpectedStep(es: seq<Readiness>)
    requires |es| > 0
    ensures OnReceive(es[0]).keep && !es[0].closed ==>
              Expected(es) == OnReceive(es[0]).forwarded + Expected(es[1..])
    ensures OnReceive(es[0]).keep && es[0].closed ==> Expected(es) == OnReceive(es[0]).forwarded
    ensures !OnReceive(es[0]).keep ==> Expected(es) == [] && OnReceive(es[0]).forwarded == []
  {
  }

  /** Within one session, records reach the sink exactly once each and in
      the order they were received, and no other session is touched. */
  lemma ServeRelaysInOrder(d: Daemon, id: SourceId, es: seq<Readiness>)
    requires id in d.clients
    ensures Serve(d, id, es).sink == d.sink + Expected(es)
    ensures forall o :: o != id ==> (o in Serve(d, id, es).clients <==> o in d.clients)
    ensures forall o :: o != id && o in d.clients ==> Serve(d, id, es).clients[o] == d.clients[o]
  {
    ServeSink(d, id, es);
    ServeKeepsOthers(d, id, es);
  }

  /** The sink half of `ServeRelaysInOrder`. */
  lemma {:induction false} ServeSink(d: Daemon, id: SourceId, es: seq<Readiness>)
    requires id in d.clients
    ensures Serve(d, id, es).sink == d.sink + Expected(es)
    decreases |es|
  {
    if |es| > 0 {
      ServeStep(d, id, es);
      var next := Dispatch(d, id, es[0]);
      if id in next.clients {
        ServeSink(next, id, es[1..]);
      }
    }
  }

  /** One step of `Serve`, in terms of `Expected`: the records the first
      notification contributes are those `Expected` puts first. */
  lemma ServeStep(d: Daemon, id: SourceId, es: seq<Readiness>)
    requires id in d.clients && |es| > 0
    ensures var next := Dispatch(d, id, es[0]);
            && (id in next.clients ==>
                  Serve(d, id, es) == Serve(next, id, es[1..])
                  && d.sink + Expected(es) == next.sink + Expected(es[1..]))
            && (id !in next.clients ==> Serve(d, id, es).sink == d.sink + Expected(es))
  {
    var out := OnReceive(es[0]);
    ExpectedStep(es);
    if out.keep && !es[0].closed {
      assert d.sink + out.forwarded + Expected(es[1..]) == d.sink + (out.forwarded + Expected(es[1..]));
    }
  }

  /** The other-sessions half of `ServeRelaysInOrder`. */
  lemma {:induction false} ServeKeepsOthers(d: Daemon, id: SourceId, es: seq<Readiness>)
    requires id in d.clients
    ensures forall o :: o != id ==> (o in Serve(d, id, es).clients <==> o in d.clients)
    ensures forall o :: o != id && o in d.clients ==> Serve(d, id, es).clients[o] == d.clients[o]
    decreases |es|
  {
    if |es| > 0 {
      var next := Dispatch(d, id, es[0]);
      if id in next.clients {
        ServeKeepsOthers(next, id, es[1..]);
      }
    }
  }
}
