/**
 * The WebSocket endpoint `/ws/{client_id}` (backend/main.py, websocket_endpoint): what it
 * does with each message a client sends and what happens when the client's socket closes.
 * The receive loop itself is driven by the transport; each step is modelled on its own.
 */
module Endpoint {
  import opened Wrappers
  import opened Messages
  import opened Fanout
  import opened Registry
  import opened Hub

  /**
   * One turn of the receive loop: stamp the message with the connection's own id, its
   * colour (grey when it has none) and the time, then `broadcast` it with the connection as
   * sender. `stamped` is the message after stamping, `msg` the one handed on.
   */
  method HandleMessage(m: ConnectionManager, clientId: string, data: Payload, timestamp: string, dead: set<Conn>)
    returns (stamped: Payload, msg: Payload, ghost sends: seq<Delivery>)
    requires m.Valid()
    modifies m`order, m`activeConnections, m`clientColors, m`channel
    ensures m.Valid()
    ensures stamped == StampInbound(data, clientId, old(m.clientColors), timestamp)
    ensures msg == WithSender(stamped, Some(clientId))
    ensures m.Snapshot() == AfterBroadcast(m.redisConnected, old(m.Snapshot()), Some(clientId), dead)
    ensures m.channel == Published(m.redisConnected, old(m.channel), msg)
    ensures sends == BroadcastLog(m.redisConnected, old(m.Snapshot()), Some(clientId), dead, msg)
  {
    stamped := StampInbound(data, clientId, m.clientColors, timestamp);
    msg, sends := m.Broadcast(stamped, Some(clientId), dead);
  }

  /**
   * The socket `ws` of `clientId` has closed: unless the client has meanwhile reconnected
   * on another socket, `disconnect` it (nothing to remove when a failed fan-out already
   * evicted it) and announce `client_left`, with the number of connections that remain,
   * through `broadcast`. A superseded socket's close changes nothing (see Registry.Release
   * for how this differs from the source).
   */
  method CloseSession(m: ConnectionManager, clientId: string, ws: Conn, timestamp: string, dead: set<Conn>)
    returns (left: Option<Payload>, ghost released: Registry, ghost sends: seq<Delivery>)
    requires m.Valid()
    modifies m`order, m`activeConnections, m`clientColors, m`channel
    ensures m.Valid()
    ensures released == Release(old(m.Snapshot()), clientId, ws) && Inv(released)
    ensures Superseded(old(m.Snapshot()), clientId, ws) ==>
              left == None && m.Snapshot() == old(m.Snapshot()) && m.channel == old(m.channel) && sends == []
    ensures !Superseded(old(m.Snapshot()), clientId, ws) ==>
              && clientId !in released.active
              && left == Some(WithSender(LeftPayload(clientId, |released.active|, timestamp), Some(clientId)))
              && m.Snapshot() == AfterBroadcast(m.redisConnected, released, Some(clientId), dead)
              && m.channel == Published(m.redisConnected, old(m.channel), left.value)
              && sends == BroadcastLog(m.redisConnected, released, Some(clientId), dead, left.value)
  {
    ReleaseEffect(m.Snapshot(), clientId, ws);
    released := Release(m.Snapshot(), clientId, ws);
    if clientId in m.activeConnections && m.activeConnections[clientId] != ws {
      left, sends := None, [];
    } else {
      m.Disconnect(clientId);
      var msg;
      msg, sends := m.Broadcast(LeftPayload(clientId, |m.activeConnections|, timestamp), Some(clientId), dead);
      left := Some(msg);
    }
  }

  /**
   * The close handler as the source writes it: `disconnect(client_id)` whatever socket
   * closed, then announce `client_left` through `broadcast`. When `clientId` has meanwhile
   * reconnected on another socket, this drops the live session (see
   * Registry.StaleCloseDropsLiveSession); CloseSession is the corrected handler.
   */
  method CloseSessionAsWritten(m: ConnectionManager, clientId: string, timestamp: string, dead: set<Conn>)
    returns (left: Payload, ghost dropped: Registry, ghost sends: seq<Delivery>)
    requires m.Valid()
    modifies m`order, m`activeConnections, m`clientColors, m`channel
    ensures m.Valid()
    ensures dropped == Unregister(old(m.Snapshot()), clientId) && Inv(dropped) && clientId !in dropped.active
    ensures left == WithSender(LeftPayload(clientId, |dropped.active|, timestamp), Some(clientId))
    ensures m.Snapshot() == AfterBroadcast(m.redisConnected, dropped, Some(clientId), dead)
    ensures m.channel == Published(m.redisConnected, old(m.channel), left)
    ensures sends == BroadcastLog(m.redisConnected, dropped, Some(clientId), dead, left)
  {
    UnregisterEffect(m.Snapshot(), clientId);
    dropped := Unregister(m.Snapshot(), clientId);
    m.Disconnect(clientId);
    left, sends := m.Broadcast(LeftPayload(clientId, |m.activeConnections|, timestamp), Some(clientId), dead);
  }

  /**
   * Once its live socket has closed, a client is gone from the registry whatever the
   * announcement's fan-out does, and the announcement is never sent to it.
   */
  lemma CloseRemovesClient(redis: bool, r: Registry, id: string, ws: Conn, dead: set<Conn>, msg: Payload)
    requires Inv(r)
    requires id in r.active && r.active[id] == ws
    ensures var released := Release(r, id, ws);
      && Inv(released)
      && id !in AfterBroadcast(redis, released, Some(id), dead).active
      && forall d :: d in BroadcastLog(redis, released, Some(id), dead, msg) ==> d.to != id
  {
    var released := Release(r, id, ws);
    ReleaseEffect(r, id, ws);
    BroadcastSparesSender(redis, released, id, dead, msg);
    if !redis {
      AfterFanoutEffect(released, Some(id), dead);
    }
  }

  /**
   * A client whose socket failed during another client's fan-out is evicted without an
   * announcement; when its own handler then sees the close, the id is gone, the close is
   * not a superseded one, so CloseSession still announces `client_left`, and the release
   * leaves the registry as it is.
   */
  lemma EvictedCloseAnnounces(r: Registry, id: string, ws: Conn, sender: string, dead: set<Conn>)
    requires Inv(r)
    requires id in r.active && r.active[id] == ws && ws in dead && sender != id
    ensures var evicted := AfterFanout(r, Some(sender), dead);
      && id !in evicted.active
      && !Superseded(evicted, id, ws)
      && Release(evicted, id, ws) == evicted
  {
    AfterFanoutEffect(r, Some(sender), dead);
    ReleaseEffect(AfterFanout(r, Some(sender), dead), id, ws);
  }

  /** A broadcast inbound message carries the connection's own id as both `client_id` and `sender_id`. */
  lemma InboundAttributedToConnection(data: Payload, clientId: string, colors: map<string, string>, timestamp: string)
    ensures var msg := WithSender(StampInbound(data, clientId, colors, timestamp), Some(clientId));
      && msg["client_id"] == Str(clientId)
      && SenderOf(msg) == Some(clientId)
      && msg["color"] == Str(ColorFor(clientId, colors))
  {
  }
}
