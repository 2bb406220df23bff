/**
 * The JSON messages exchanged over the WebSocket and the pub/sub channel, the payloads
 * the connection manager builds, and the metadata it stamps on inbound messages
 * (backend/main.py, ConnectionManager.connect / broadcast and websocket_endpoint).
 */
module Messages {
  import opened Wrappers
  import Palette

  /** A JSON value. Floating-point numbers are not modelled. */
  datatype Value =
    | Null
    | Bool(b: bool)
    | Int(i: int)
    | Str(s: string)
    | Arr(items: seq<Value>)
    | Obj(fields: map<string, Value>)

  /** A message is a JSON object. */
  type Payload = map<string, Value>

  /** A list of strings as a JSON array. */
  function StrList(xs: seq<string>): (v: Value)
    ensures v.Arr? && |v.items| == |xs|
    ensures forall i :: 0 <= i < |xs| ==> v.items[i] == Str(xs[i])
  {
    Arr(seq(|xs|, i requires 0 <= i < |xs| => Str(xs[i])))
  }

  /** Reads a JSON array of strings back; `None` when the value is anything else. */
  function AsStrings(v: Value): (r: Option<seq<string>>)
    ensures r.Some? ==> v.Arr? && |r.value| == |v.items|
    ensures r.Some? ==> forall i :: 0 <= i < |v.items| ==> v.items[i] == Str(r.value[i])
  {
    if v.Arr? && forall i :: 0 <= i < |v.items| ==> v.items[i].Str? then
      Some(seq(|v.items|, i requires 0 <= i < |v.items| => v.items[i].s))
    else
      None
  }

  /** A string-to-string dictionary as a JSON object. */
  function StrMap(m: map<string, string>): (v: Value)
    ensures v.Obj? && v.fields.Keys == m.Keys
    ensures forall k :: k in m ==> v.fields[k] == Str(m[k])
  {
    Obj(map k | k in m :: Str(m[k]))
  }

  /** Decoding a list of ids undoes its encoding. */
  lemma StringsRoundTrip(xs: seq<string>)
    ensures AsStrings(StrList(xs)) == Some(xs)
  {
    var v := StrList(xs);
    assert forall i :: 0 <= i < |v.items| ==> v.items[i].Str?;
    assert AsStrings(v).value == xs;
  }

  /** `data.get("sender_id")` used as the id to exclude: only a JSON string names a client. */
  function SenderOf(data: Payload): (r: Option<string>)
    ensures r.Some? <==> "sender_id" in data && data["sender_id"].Str?
    ensures r.Some? ==> data["sender_id"] == Str(r.value)
  {
    if "sender_id" in data && data["sender_id"].Str? then Some(data["sender_id"].s) else None
  }

  /** `broadcast` sets `data["sender_id"]` to its sender (Python `None` when none is given). */
  function WithSender(data: Payload, sender: Option<string>): (r: Payload)
    ensures SenderOf(r) == sender
    ensures r.Keys == data.Keys + {"sender_id"}
    ensures forall k :: k in data && k != "sender_id" ==> r[k] == data[k]
  {
    data["sender_id" := if sender.Some? then Str(sender.value) else Null]
  }

  /** The colour stamped for `clientId`: its registered colour, else the fallback grey. */
  function ColorFor(clientId: string, colors: map<string, string>): (c: string)
    ensures clientId in colors ==> c == colors[clientId]
    ensures clientId !in colors ==> c == Palette.DefaultColor
  {
    if clientId in colors then colors[clientId] else Palette.DefaultColor
  }

  /**
   * The metadata the endpoint puts on every inbound message: the connection's own id
   * overwrites whatever `client_id` the client sent, then its colour and a timestamp.
   */
  function StampInbound(data: Payload, clientId: string, colors: map<string, string>, timestamp: string): (r: Payload)
    ensures r.Keys == data.Keys + {"client_id", "color", "timestamp"}
    ensures r["client_id"] == Str(clientId)
    ensures r["color"] == Str(ColorFor(clientId, colors))
    ensures r["timestamp"] == Str(timestamp)
    ensures forall k :: k in data && k !in {"client_id", "color", "timestamp"} ==> r[k] == data[k]
  {
    data["client_id" := Str(clientId)]["color" := Str(ColorFor(clientId, colors))]["timestamp" := Str(timestamp)]
  }

  /** A client cannot choose the id its message is attributed to. */
  lemma StampOverridesClaimedId(data: Payload, clientId: string, colors: map<string, string>, timestamp: string, claimed: string)
    ensures StampInbound(data["client_id" := Str(claimed)], clientId, colors, timestamp)
         == StampInbound(data, clientId, colors, timestamp)
  {
    var a := StampInbound(data["client_id" := Str(claimed)], clientId, colors, timestamp);
    var b := StampInbound(data, clientId, colors, timestamp);
    assert a.Keys == b.Keys;
    forall k | k in a.Keys
      ensures a[k] == b[k]
    {
    }
  }

  /** The `client_joined` announcement (before `broadcast` adds `sender_id`). */
  function JoinedPayload(clientId: string, color: string, total: nat, timestamp: string): (r: Payload)
    ensures r.Keys == {"type", "client_id", "color", "total_clients", "timestamp"}
    ensures r["type"] == Str("client_joined") && r["client_id"] == Str(clientId)
    ensures r["color"] == Str(color) && r["total_clients"] == Int(total)
  {
    map["type" := Str("client_joined"), "client_id" := Str(clientId), "color" := Str(color),
        "total_clients" := Int(total), "timestamp" := Str(timestamp)]
  }

  /** The `welcome` message sent to a newly connected client. */
  function WelcomePayload(clientId: string, color: string, connected: seq<string>, colors: map<string, string>): (r: Payload)
    ensures r.Keys == {"type", "client_id", "color", "connected_clients", "client_colors"}
    ensures r["type"] == Str("welcome") && r["client_id"] == Str(clientId) && r["color"] == Str(color)
    ensures AsStrings(r["connected_clients"]) == Some(connected)
    ensures r["client_colors"] == StrMap(colors)
  {
    StringsRoundTrip(connected);
    map["type" := Str("welcome"), "client_id" := Str(clientId), "color" := Str(color),
        "connected_clients" := StrList(connected), "client_colors" := StrMap(colors)]
  }

  /** The `client_left` announcement (before `broadcast` adds `sender_id`). */
  function LeftPayload(clientId: string, total: nat, timestamp: string): (r: Payload)
    ensures r.Keys == {"type", "client_id", "total_clients", "timestamp"}
    ensures r["type"] == Str("client_left") && r["client_id"] == Str(clientId)
    ensures r["total_clients"] == Int(total)
  {
    map["type" := Str("client_left"), "client_id" := Str(clientId),
        "total_clients" := Int(total), "timestamp" := Str(timestamp)]
  }
}
