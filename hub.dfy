/**
 * `ConnectionManager` (backend/main.py): the in-memory session registry of one server
 * instance, its round-robin colour assignment, local fan-out and the pub/sub hand-off.
 * Each method runs atomically; sockets are opaque handles and whether a send succeeds is
 * decided by the caller-supplied set `dead` of sockets whose `send_json` raises.
 */
module Hub {
  import opened Wrappers
  import opened Messages
  import opened Fanout
  import opened Registry
  import Palette

  /**
   * The sending loop of `_local_broadcast`: visit `ids` in order, skip `exclude`, try
   * `send_json` on each other client's socket and collect the ids whose send raised.
   * `attempts` records the sends tried.
   */
  method SendEach(ids: seq<string>, conns: map<string, Conn>, exclude: Option<string>, dead: set<Conn>, data: Payload)
    returns (failed: seq<string>, ghost attempts: seq<Delivery>)
    requires forall x :: x in ids ==> x in conns
    ensures attempts == Deliveries(Recipients(ids, exclude), conns, dead, data)
    ensures failed == Failing(ids, conns, exclude, dead)
  {
    failed, attempts := [], [];
    ghost var rs: seq<string> := [];
    var i := 0;
    assert ids[..0] == [];
    while i < |ids|
      invariant i <= |ids|
      invariant rs == Recipients(ids[..i], exclude)
      invariant attempts == Deliveries(rs, conns, dead, data)
      invariant failed == Failing(ids[..i], conns, exclude, dead)
    {
      var id := ids[i];
      RecipientsPrefixStep(ids, i, exclude);
      FailStep(ids, i, conns, exclude, dead);
      if exclude != Some(id) {
        var ws := conns[id];
        DeliveriesStep(rs, id, conns, dead, data);
        attempts := attempts + [Delivery(id, ws, data, ws !in dead)];
        rs := rs + [id];
        if ws in dead {
          failed := failed + [id];
        }
      }
      i := i + 1;
    }
    assert ids[..|ids|] == ids;
  }

  /** The registry after a local fan-out: every recipient whose send failed is disconnected. */
  function AfterFanout(r: Registry, exclude: Option<string>, dead: set<Conn>): (r': Registry)
  {
    Evict(r, FailedSet(r.order, r.active, exclude, dead))
  }

  /** The sends a local fan-out tries: one to each recipient, in registry order. */
  ghost function FanoutLog(r: Registry, exclude: Option<string>, dead: set<Conn>, msg: Payload): (log: seq<Delivery>)
    requires Inv(r)
  {
    Deliveries(Recipients(r.order, exclude), r.active, dead, msg)
  }

  /** The registry after `broadcast`: unchanged when the message is published, else a local fan-out. */
  function AfterBroadcast(redis: bool, r: Registry, sender: Option<string>, dead: set<Conn>): (r': Registry)
  {
    if redis then r else AfterFanout(r, sender, dead)
  }

  /** The sends `broadcast` makes itself: none when it publishes, else the local fan-out's. */
  ghost function BroadcastLog(redis: bool, r: Registry, sender: Option<string>, dead: set<Conn>, msg: Payload): (log: seq<Delivery>)
    requires Inv(r)
  {
    if redis then [] else FanoutLog(r, sender, dead, msg)
  }

  /** The subscription after `broadcast`: the message is appended when it is published. */
  function Published(redis: bool, channel: seq<Payload>, msg: Payload): (channel': seq<Payload>)
  {
    if redis then channel + [msg] else channel
  }

  /**
   * A local fan-out keeps the registry well formed; a client stays registered exactly when
   * it was registered and either was the excluded one or its socket took the send; the
   * clients that stay keep their socket and colour.
   */
  lemma AfterFanoutEffect(r: Registry, exclude: Option<string>, dead: set<Conn>)
    requires Inv(r)
    ensures var r' := AfterFanout(r, exclude, dead);
      && Inv(r')
      && (forall x :: x in r'.active <==> x in r.active && (exclude == Some(x) || r.active[x] !in dead))
      && (forall x :: x in r'.active ==> r'.active[x] == r.active[x] && r'.colors[x] == r.colors[x])
  {
    EvictEffect(r, FailedSet(r.order, r.active, exclude, dead));
  }

  /** The sender of a broadcast is never sent its own message, and it stays registered with its socket and colour. */
  lemma BroadcastSparesSender(redis: bool, r: Registry, sender: string, dead: set<Conn>, msg: Payload)
    requires Inv(r)
    ensures forall d :: d in BroadcastLog(redis, r, Some(sender), dead, msg) ==> d.to != sender
    ensures var r' := AfterBroadcast(redis, r, Some(sender), dead);
      sender in r.active ==> sender in r'.active && r'.active[sender] == r.active[sender] && r'.colors[sender] == r.colors[sender]
  {
    if !redis {
      FanoutSendsToRecipients(r.order, r.active, Some(sender), dead, msg);
      AfterFanoutEffect(r, Some(sender), dead);
    }
  }

  /** A message taken off the channel is never delivered back to the client its `sender_id` names. */
  lemma ListenerSparesSender(r: Registry, msg: Payload, dead: set<Conn>)
    requires Inv(r)
    ensures forall d :: d in FanoutLog(r, SenderOf(msg), dead, msg) ==> Some(d.to) != SenderOf(msg)
  {
    FanoutSendsToRecipients(r.order, r.active, SenderOf(msg), dead, msg);
  }

  /**
   * After `connect` the new client is registered with its socket and colour, is listed in
   * the key order the welcome message carries, and the registry is well formed; a new id
   * adds one connection and a known id none.
   */
  lemma ConnectRegisters(redis: bool, r: Registry, id: string, ws: Conn, color: Palette.Color, dead: set<Conn>)
    requires Inv(r)
    ensures var reg := Register(r, id, ws, color);
      && |reg.active| == |r.active| + (if id in r.active then 0 else 1)
      && var r' := AfterBroadcast(redis, reg, Some(id), dead);
      && Inv(r')
      && id in r'.order && id in r'.active && r'.active[id] == ws && r'.colors[id] == color
  {
    var reg := Register(r, id, ws, color);
    RegisterEffect(r, id, ws, color);
    BroadcastSparesSender(redis, reg, id, dead, map[]);
    if !redis {
      AfterFanoutEffect(reg, Some(id), dead);
    }
  }

  class ConnectionManager {
    /** Key order of `active_connections` (insertion order, as Python dicts iterate). */
    var order: seq<string>
    /** `active_connections`: client id to socket. */
    var activeConnections: map<string, Conn>
    /** `client_colors`: client id to cursor colour. */
    var clientColors: map<string, Palette.Color>
    /** `_color_index`: how many colours have been handed out. */
    var colorIndex: nat
    /** Whether `redis_client` was set up at start-up; fixed for the manager's life. */
    const redisConnected: bool
    /** This instance's subscription to the broadcast channel: messages published and not yet taken by the listener. */
    var channel: seq<Payload>

    /** The registry held in the three dictionary fields. */
    function Snapshot(): (r: Registry)
      reads this`order, this`activeConnections, this`clientColors
    {
      Registry(order, activeConnections, clientColors)
    }

    ghost predicate Valid()
      reads this`order, this`activeConnections, this`clientColors
    {
      Inv(Snapshot())
    }

    /** `__init__`: empty dictionaries and colour index 0; `redis` says whether `connect_redis` set up the client. */
    constructor (redis: bool)
      ensures Valid()
      ensures Snapshot() == Empty && colorIndex == 0 && redisConnected == redis && channel == []
    {
      order, activeConnections, clientColors := [], map[], map[];
      colorIndex := 0;
      redisConnected := redis;
      channel := [];
    }

    /** `_get_next_color`: the palette colour at the current index, which then advances by one. */
    method NextColor() returns (color: Palette.Color)
      modifies this`colorIndex
      ensures color == Palette.ColorAt(old(colorIndex))
      ensures colorIndex == old(colorIndex) + 1
    {
      color := Palette.ColorAt(colorIndex);
      colorIndex := colorIndex + 1;
    }

    /** `disconnect`: remove `id` from both dictionaries if present; nothing else changes. */
    method Disconnect(id: string)
      requires Valid()
      modifies this`order, this`activeConnections, this`clientColors
      ensures Valid()
      ensures Snapshot() == Unregister(old(Snapshot()), id)
      ensures id !in activeConnections && id !in clientColors
      ensures forall x :: x != id && x in old(activeConnections) ==>
                x in activeConnections && activeConnections[x] == old(activeConnections)[x]
                && clientColors[x] == old(clientColors)[x]
      ensures channel == old(channel)
    {
      ghost var before := Snapshot();
      UnregisterEffect(before, id);
      if id in activeConnections {
        activeConnections := activeConnections - {id};
        order := Keep(order, {id});
      }
      if id in clientColors {
        clientColors := clientColors - {id};
      }
      if id !in before.active {
        UnregisterAbsent(before, id);
      }
    }

    /**
     * `_local_broadcast`: try to send `data` to every registered client other than
     * `exclude`, in registry order, then disconnect exactly those whose send failed.
     * `sends` lists the `send_json` attempts made.
     */
    method LocalBroadcast(data: Payload, exclude: Option<string>, dead: set<Conn>) returns (ghost sends: seq<Delivery>)
      requires Valid()
      modifies this`order, this`activeConnections, this`clientColors
      ensures Valid()
      ensures Snapshot() == AfterFanout(old(Snapshot()), exclude, dead)
      ensures sends == FanoutLog(old(Snapshot()), exclude, dead, data)
    {
      ghost var before := Snapshot();
      var failed;
      failed, sends := SendEach(order, activeConnections, exclude, dead, data);
      FailingIsFailedSet(before.order, before.active, exclude, dead);
      DisconnectAll(failed);
      EvictEffect(before, FailedSet(before.order, before.active, exclude, dead));
    }

    /** The clean-up loop of `_local_broadcast`: `disconnect` each id in turn. */
    method DisconnectAll(ids: seq<string>)
      requires Valid()
      modifies this`order, this`activeConnections, this`clientColors
      ensures Valid()
      ensures Snapshot() == Evict(old(Snapshot()), Elements(ids))
    {
      ghost var before := Snapshot();
      var j := 0;
      while j < |ids|
        invariant j <= |ids|
        invariant Valid()
        invariant Snapshot() == EvictAll(before, ids[..j])
      {
        EvictAllStep(before, ids, j);
        Disconnect(ids[j]);
        j := j + 1;
      }
      assert ids[..|ids|] == ids;
      EvictAllIsEvict(before, ids);
    }

    /**
     * `broadcast`: stamp `sender_id`, then publish to the channel when Redis is set up,
     * or else fan out locally, excluding the sender.
     */
    method Broadcast(data: Payload, sender: Option<string>, dead: set<Conn>) returns (msg: Payload, ghost sends: seq<Delivery>)
      requires Valid()
      modifies this`order, this`activeConnections, this`clientColors, this`channel
      ensures Valid()
      ensures msg == WithSender(data, sender)
      ensures Snapshot() == AfterBroadcast(redisConnected, old(Snapshot()), sender, dead)
      ensures channel == Published(redisConnected, old(channel), msg)
      ensures sends == BroadcastLog(redisConnected, old(Snapshot()), sender, dead, msg)
      ensures colorIndex == old(colorIndex)
    {
      msg := WithSender(data, sender);
      if redisConnected {
        channel := channel + [msg];
        sends := [];
      } else {
        sends := LocalBroadcast(msg, sender, dead);
      }
    }

    /**
     * One turn of `_redis_listener`: take the oldest message off the channel and fan it
     * out locally, excluding the client its `sender_id` names. With no message waiting
     * nothing happens.
     */
    method ListenerStep(dead: set<Conn>) returns (msg: Option<Payload>, ghost sends: seq<Delivery>)
      requires Valid()
      modifies this`order, this`activeConnections, this`clientColors, this`channel
      ensures Valid()
      ensures old(channel) == [] ==>
                msg == None && Snapshot() == old(Snapshot()) && channel == [] && sends == []
      ensures old(channel) != [] ==>
                && msg == Some(old(channel)[0])
                && channel == old(channel)[1..]
                && Snapshot() == AfterFanout(old(Snapshot()), SenderOf(msg.value), dead)
                && sends == FanoutLog(old(Snapshot()), SenderOf(msg.value), dead, msg.value)
    {
      if channel == [] {
        msg, sends := None, [];
      } else {
        var data := channel[0];
        channel := channel[1..];
        msg := Some(data);
        sends := LocalBroadcast(data, SenderOf(data), dead);
      }
    }

    /** The two dictionary writes of `connect`: `id` now maps to `ws` and to `color`. */
    method Store(id: string, ws: Conn, color: Palette.Color)
      requires Valid()
      modifies this`order, this`activeConnections, this`clientColors
      ensures Valid()
      ensures Snapshot() == Register(old(Snapshot()), id, ws, color)
    {
      ghost var before := Snapshot();
      RegisterKeepsInv(before, id, ws, color);
      var known := id in activeConnections;
      activeConnections, clientColors := activeConnections[id := ws], clientColors[id := color];
      if !known {
        order := order + [id];
      }
    }

    /** The two dictionary writes of `connect`: `id` gets `ws` and then the next palette colour. */
    method Admit(id: string, ws: Conn) returns (color: Palette.Color)
      requires Valid()
      modifies this`order, this`activeConnections, this`clientColors, this`colorIndex
      ensures Valid()
      ensures color == Palette.ColorAt(old(colorIndex)) && colorIndex == old(colorIndex) + 1
      ensures Snapshot() == Register(old(Snapshot()), id, ws, color)
      ensures channel == old(channel)
    {
      color := NextColor();
      Store(id, ws, color);
    }

    /**
     * `connect`: register `id` on socket `ws` with the next palette colour, announce
     * `client_joined` (with the number of connections after insertion) through `broadcast`,
     * then send the `welcome` message, listing the connected clients, to the new socket.
     */
    method Connect(id: string, ws: Conn, timestamp: string, dead: set<Conn>)
      returns (joined: Payload, welcome: Payload, ghost reg: Registry, ghost sends: seq<Delivery>)
      requires Valid()
      modifies this`order, this`activeConnections, this`clientColors, this`colorIndex, this`channel
      ensures Valid()
      ensures colorIndex == old(colorIndex) + 1
      ensures reg == Register(old(Snapshot()), id, ws, Palette.ColorAt(old(colorIndex))) && Inv(reg)
      ensures joined == WithSender(JoinedPayload(id, Palette.ColorAt(old(colorIndex)), |reg.active|, timestamp), Some(id))
      ensures Snapshot() == AfterBroadcast(redisConnected, reg, Some(id), dead)
      ensures channel == Published(redisConnected, old(channel), joined)
      ensures welcome == WelcomePayload(id, Palette.ColorAt(old(colorIndex)), order, clientColors)
      ensures sends == BroadcastLog(redisConnected, reg, Some(id), dead, joined) + [Delivery(id, ws, welcome, ws !in dead)]
    {
      // websocket.accept() belongs to the transport and is not modelled.
      var color := Admit(id, ws);
      reg := Snapshot();
      ghost var announced;
      joined, announced := Broadcast(JoinedPayload(id, color, |activeConnections|, timestamp), Some(id), dead);
      welcome := WelcomePayload(id, color, order, clientColors);
      sends := announced + [Delivery(id, ws, welcome, ws !in dead)];
    }
  }
}
