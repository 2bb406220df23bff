/**
 * The connection registry of `ConnectionManager` as a value: the insertion-ordered ids of
 * `active_connections`, the socket of each client and the colour of each client
 * (backend/main.py, ConnectionManager.connect / disconnect / _local_broadcast), with the
 * transitions those methods make and the invariant they keep.
 */
module Registry {
  import opened Fanout
  import Palette

  /**
   * `order` is the key order of the `active_connections` dict (Python dicts iterate in
   * insertion order, and re-assigning an existing key keeps its place); `active` maps each
   * id to its socket and `colors` each id to its cursor colour.
   */
  datatype Registry = Registry(order: seq<string>, active: map<string, Conn>, colors: map<string, Palette.Color>)

  /** Both dictionaries share one key set and each id is listed once (every colour is a palette colour by its type). */
  ghost predicate Inv(r: Registry)
  {
    && Distinct(r.order)
    && (forall id :: id in r.order <==> id in r.active)
    && r.colors.Keys == r.active.Keys
  }

  /** The registry of a freshly started manager. */
  const Empty: Registry := Registry([], map[], map[])

  /** `connect`: `active_connections[id] = ws` then `client_colors[id] = color`. */
  function Register(r: Registry, id: string, ws: Conn, color: Palette.Color): (r': Registry)
  {
    Registry(if id in r.active then r.order else r.order + [id], r.active[id := ws], r.colors[id := color])
  }

  /** `disconnect`: delete `id` from each dictionary that holds it. */
  function Unregister(r: Registry, id: string): (r': Registry)
  {
    Registry(Keep(r.order, {id}), r.active - {id}, r.colors - {id})
  }

  /** The clean-up loop of `_local_broadcast`: every id in `ids` disconnected. */
  function Evict(r: Registry, ids: set<string>): (r': Registry)
  {
    Registry(Keep(r.order, ids), r.active - ids, r.colors - ids)
  }

  /** A well-formed registry lists exactly as many ids as it has connections (`len(connected_clients) == total_clients`). */
  lemma ListedEqualsTotal(r: Registry)
    requires Inv(r)
    ensures |r.order| == |r.active| == |r.colors|
  {
    DistinctCardinality(r.order);
    assert Elements(r.order) == r.active.Keys;
    assert r.colors.Keys == r.active.Keys;
  }

  /** Registering keeps the invariant. */
  lemma RegisterKeepsInv(r: Registry, id: string, ws: Conn, color: Palette.Color)
    requires Inv(r)
    ensures Inv(Register(r, id, ws, color))
  {
    var r' := Register(r, id, ws, color);
    if id !in r.active {
      assert id !in r.order;
      AppendDistinct(r.order, id);
      assert r'.colors.Keys == r'.active.Keys;
    }
  }

  /**
   * A new id goes to the end of the order and adds one client; a known id is overwritten
   * in place and adds none.
   */
  lemma RegisterPlacement(r: Registry, id: string, ws: Conn, color: Palette.Color)
    requires Inv(r)
    ensures var r' := Register(r, id, ws, color);
      && (id in r.active ==> r'.order == r.order && r'.active.Keys == r.active.Keys)
      && (id !in r.active ==> r'.order == r.order + [id] && r'.active.Keys == r.active.Keys + {id})
      && |r'.active| == |r.active| + (if id in r.active then 0 else 1)
  {
    var r' := Register(r, id, ws, color);
    if id !in r.active {
      assert r'.active.Keys == r.active.Keys + {id};
    } else {
      assert r'.active.Keys == r.active.Keys;
    }
  }

  /**
   * Registering puts `id` in both dictionaries with the given socket and colour; a new id
   * goes to the end of the order and adds one client, a known id is overwritten in place
   * and adds none; every other entry is unchanged.
   */
  lemma RegisterEffect(r: Registry, id: string, ws: Conn, color: Palette.Color)
    requires Inv(r)
    ensures var r' := Register(r, id, ws, color);
      && Inv(r')
      && id in r'.order && r'.active[id] == ws && r'.colors[id] == color
      && (id in r.active ==> r'.order == r.order && r'.active.Keys == r.active.Keys)
      && (id !in r.active ==> r'.order == r.order + [id] && r'.active.Keys == r.active.Keys + {id})
      && |r'.active| == |r.active| + (if id in r.active then 0 else 1)
      && (forall x :: x != id ==> (x in r'.active <==> x in r.active))
      && (forall x :: x != id && x in r.active ==> r'.active[x] == r.active[x] && r'.colors[x] == r.colors[x])
  {
    RegisterKeepsInv(r, id, ws, color);
    RegisterPlacement(r, id, ws, color);
  }

  /** Unregistering removes `id` from both dictionaries and the order and leaves every other entry as it was. */
  lemma UnregisterEffect(r: Registry, id: string)
    requires Inv(r)
    ensures var r' := Unregister(r, id);
      && Inv(r')
      && id !in r'.order && id !in r'.active && id !in r'.colors
      && |r'.active| == |r.active| - (if id in r.active then 1 else 0)
      && (forall x :: x != id ==> (x in r'.active <==> x in r.active))
      && (forall x :: x != id && x in r.active ==> r'.active[x] == r.active[x] && r'.colors[x] == r.colors[x])
  {
    KeepDistinct(r.order, {id});
  }

  /** Unregistering an unknown id changes nothing. */
  lemma UnregisterAbsent(r: Registry, id: string)
    requires Inv(r)
    requires id !in r.active
    ensures Unregister(r, id) == r
  {
    assert id !in r.order;
    KeepMissing(r.order, id);
    SubtractAbsent(r.active, id);
    SubtractAbsent(r.colors, id);
  }

  /** Unregistering twice is unregistering once. */
  lemma UnregisterIdempotent(r: Registry, id: string)
    requires Inv(r)
    ensures Unregister(Unregister(r, id), id) == Unregister(r, id)
  {
    UnregisterEffect(r, id);
    UnregisterAbsent(Unregister(r, id), id);
  }

  /** Removing a key that is not there changes nothing. */
  lemma SubtractAbsent<V>(m: map<string, V>, id: string)
    requires id !in m
    ensures m - {id} == m
  {
  }

  /** Removing no keys changes nothing. */
  lemma SubtractNothing<V>(m: map<string, V>)
    ensures m - {} == m
  {
  }

  /** Removing two key sets one after the other removes their union. */
  lemma SubtractTwice<V>(m: map<string, V>, a: set<string>, b: set<string>)
    ensures (m - a) - b == m - (a + b)
  {
  }

  /** Disconnecting one more id after evicting a set is evicting the larger set. */
  lemma EvictStep(r: Registry, ids: set<string>, id: string)
    ensures Unregister(Evict(r, ids), id) == Evict(r, ids + {id})
  {
    KeepKeep(r.order, ids, {id});
    SubtractTwice(r.active, ids, {id});
    SubtractTwice(r.colors, ids, {id});
  }

  /** Evicting keeps the invariant, removes exactly `ids` and leaves every spared client's entries as they were. */
  lemma EvictEffect(r: Registry, ids: set<string>)
    requires Inv(r)
    ensures var r' := Evict(r, ids);
      && Inv(r')
      && (forall x :: x in r'.active <==> x in r.active && x !in ids)
      && (forall x :: x in r'.active ==> r'.active[x] == r.active[x] && r'.colors[x] == r.colors[x])
  {
    KeepDistinct(r.order, ids);
  }

  /** Evicting nothing changes nothing. */
  lemma EvictNothing(r: Registry)
    ensures Evict(r, {}) == r
  {
    KeepAbsent(r.order, {});
    SubtractNothing(r.active);
    SubtractNothing(r.colors);
  }

  /** Disconnecting the ids of `ids` one after the other, in that order. */
  function EvictAll(r: Registry, ids: seq<string>): (r': Registry)
  {
    if ids == [] then r else Unregister(EvictAll(r, ids[..|ids| - 1]), ids[|ids| - 1])
  }

  /** One more disconnect at position `j`. */
  lemma EvictAllStep(r: Registry, ids: seq<string>, j: nat)
    requires j < |ids|
    ensures EvictAll(r, ids[..j + 1]) == Unregister(EvictAll(r, ids[..j]), ids[j])
  {
    assert ids[..j + 1][..j] == ids[..j];
  }

  /** Disconnecting ids one by one, in any order and with repeats, evicts exactly the set of them. */
  lemma {:induction false} EvictAllIsEvict(r: Registry, ids: seq<string>)
    ensures EvictAll(r, ids) == Evict(r, Elements(ids))
  {
    if ids == [] {
      EvictNothing(r);
      assert Elements(ids) == {};
    } else {
      var init, last := ids[..|ids| - 1], ids[|ids| - 1];
      EvictAllIsEvict(r, init);
      EvictStep(r, Elements(init), last);
      assert Elements(ids) == Elements(init) + {last};
    }
  }

  /** `id` is registered on a socket other than `ws`: the client has reconnected since `ws` was opened. */
  predicate Superseded(r: Registry, id: string, ws: Conn)
  {
    id in r.active && r.active[id] != ws
  }

  /**
   * Disconnect on behalf of the socket `ws`: `id` is unregistered unless it is registered
   * on another socket. The endpoint uses this rule when a socket closes; the source
   * unregisters the id whatever socket closed (see StaleCloseDropsLiveSession).
   */
  function Release(r: Registry, id: string, ws: Conn): (r': Registry)
  {
    if Superseded(r, id, ws) then r else Unregister(r, id)
  }

  /**
   * As written, the close of a client's earlier socket unregisters its id outright: after
   * "a" reconnects on a second socket, the first socket's late close removes the live session.
   */
  lemma StaleCloseDropsLiveSession()
    ensures var reconnected := Register(Register(Empty, "a", Conn(1), Palette.Colors[0]), "a", Conn(2), Palette.Colors[1]);
      && reconnected.active["a"] == Conn(2)
      && "a" !in Unregister(reconnected, "a").active
  {
  }

  /**
   * Releasing a superseded socket changes nothing; otherwise the release is a disconnect,
   * which leaves `id` unregistered, and which changes nothing when `id` was already gone.
   */
  lemma ReleaseEffect(r: Registry, id: string, ws: Conn)
    requires Inv(r)
    ensures Inv(Release(r, id, ws))
    ensures Superseded(r, id, ws) ==> Release(r, id, ws) == r
    ensures !Superseded(r, id, ws) ==> Release(r, id, ws) == Unregister(r, id) && id !in Release(r, id, ws).active
    ensures id !in r.active ==> Release(r, id, ws) == r
  {
    UnregisterEffect(r, id);
    if id !in r.active {
      UnregisterAbsent(r, id);
    }
  }

  /** With the corrected rule a reconnected client survives the late close of its previous socket. */
  lemma ReconnectSurvivesStaleClose(r: Registry, id: string, stale: Conn, live: Conn, color: Palette.Color)
    requires Inv(r)
    requires stale != live
    ensures var r' := Release(Register(r, id, live, color), id, stale);
      Inv(r') && id in r'.active && r'.active[id] == live && r'.colors[id] == color
  {
    RegisterEffect(r, id, live, color);
  }
}
