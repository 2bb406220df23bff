# FlowSync backend core in Dafny

FlowSync is a collaborative architecture-diagram editor. Its backend (`backend/main.py`)
keeps one WebSocket session per client, gives each client a cursor colour, and relays every
edit and cursor message to the other clients. With Redis available the relay goes through a
pub/sub channel; without it the relay is a local fan-out. The backend also turns a submitted
diagram into a text description for an AI analyser, and builds a demo security report when
no analyser is configured.

This project models that core and proves properties of it:

- `wrappers.dfy` (`Wrappers`): `Option`, standing for Python's `None` and `dict.get(key, default)`.
- `palette.dfy` (`Palette`): the twelve cursor colours, the round-robin pick and the grey fallback.
- `messages.dfy` (`Messages`): JSON values and payloads, and the messages the manager builds.
  It also covers `sender_id` stamping and the metadata the endpoint stamps on inbound messages.
- `fanout.dfy` (`Fanout`): the local fan-out as functions over the insertion-ordered client ids.
  These say who is sent to, who is found dead, and the log of send attempts.
- `registry.dfy` (`Registry`): the `active_connections` / `client_colors` dictionaries as one value.
  It gives their key order, the register, unregister and evict transitions, and the invariant they keep.
- `hub.dfy` (`Hub`): the `ConnectionManager` class. Its fields are updated in place by
  `connect`, `disconnect`, `_get_next_color`, `_local_broadcast`, `broadcast` and one step of
  the Redis listener. Each method is proved against the registry functions.
- `endpoint.dfy` (`Endpoint`): one message turn and the close handling of `/ws/{client_id}`.
- `diagram.dfy`, `text.dfy`, `describe.dfy` (`Diagram`, `Text`, `Describe`): the submitted
  diagram, Python's `"\n".join` and `str.split("\n")`, and `format_diagram_for_analysis`.
- `analysis.dfy` (`MockAnalysis`): the type counts, warnings, risk rating and closing remark
  of `generate_mock_analysis`.

Modelling choices:
- A socket is an opaque `Conn` handle.
- Whether `send_json` raises is decided by a caller-supplied set `dead` of failing sockets.
- The sends a method attempts are returned as a ghost log of `Delivery` records.
- The Redis channel is a FIFO `channel` field: `broadcast` appends to it, and `ListenerStep`
  takes from it.
- Python dict order is kept explicitly as the `order` field. A re-assigned key keeps its place.

## Model

| member | source | states |
|---|---|---|
| Palette.ColorAt | backend/main.py:109-113 | the colour handed out at index `i` is palette entry `i mod 12` |
| Palette.PaletteDistinct | backend/main.py:52-56 | the palette has twelve pairwise different colours |
| Palette.ColorCycle | backend/main.py:109-113 | colours repeat with period twelve |
| Palette.ColorsDifferWithinRound | backend/main.py:109-113 | any twelve consecutive connections get twelve different colours |
| Palette.DefaultColorOutsidePalette | backend/main.py:251 | the grey fallback `#888888` is never a palette colour, so it cannot be mistaken for an assigned one |
| Messages.StringsRoundTrip | backend/main.py:135 | the `connected_clients` list decodes back to exactly the ids encoded |
| Messages.SenderOf | backend/main.py:87 | `data.get("sender_id")` names a client exactly when the field is a JSON string |
| Messages.WithSender | backend/main.py:151 | `broadcast` sets `sender_id` to its sender (null when none) and leaves every other field as it was |
| Messages.ColorFor | backend/main.py:251 | the stamped colour is the client's registered colour, else the grey fallback |
| Messages.StampInbound | backend/main.py:250-252 | an inbound message gets `client_id`, `color` and `timestamp` set, with every other field kept |
| Messages.StampOverridesClaimedId | backend/main.py:250 | the `client_id` a client claims has no effect on the stamped message |
| Messages.JoinedPayload | backend/main.py:122-128 | `client_joined` carries the id, its colour and the connection count |
| Messages.WelcomePayload | backend/main.py:131-137 | `welcome` carries the id, its colour, the list of connected ids and the colour map |
| Messages.LeftPayload | backend/main.py:263-268 | `client_left` carries the id and the remaining connection count |
| Fanout.FailedSet | backend/main.py:97-103 | a client is found dead exactly when it is registered, not excluded and its send raises |
| Fanout.Deliveries | backend/main.py:97-101 | one send attempt per recipient, in order, to its socket, succeeding exactly when the socket is live |
| Fanout.RecipientsExactlyOnce | backend/main.py:97-98 | each registered client except the excluded one is a recipient exactly once; no one else is |
| Fanout.FanoutSendsToRecipients | backend/main.py:97-103 | every attempted send goes to a registered, non-excluded client's socket with the message |
| Fanout.FanoutNoRepeat | backend/main.py:97-101 | no client is sent a fan-out twice |
| Fanout.FanoutCoversRecipients | backend/main.py:97-101 | every registered client other than the excluded one is tried |
| Fanout.FanoutReachesEachOnce | backend/main.py:95-103 | the fan-out tries each non-excluded registered client exactly once and no one else |
| Fanout.FailingIsFailedSet | backend/main.py:97-103 | the `disconnected` list collected in the loop holds exactly the dead recipients |
| Registry.ListedEqualsTotal | backend/main.py:125-135 | in a well-formed registry the listed ids, the sockets and the colours are equally many |
| Registry.RegisterKeepsInv | backend/main.py:118-119 | registering keeps the dictionaries in step and the id list duplicate-free |
| Registry.RegisterPlacement | backend/main.py:118-119 | a new id is appended to the key order and adds one client; a known id keeps its place and adds none |
| Registry.RegisterEffect | backend/main.py:118-119 | registering sets the id's socket and colour and leaves every other client as it was |
| Registry.UnregisterEffect | backend/main.py:141-146 | `disconnect` removes the id from both dictionaries and the order, leaving every other client as it was |
| Registry.UnregisterAbsent | backend/main.py:142-145 | disconnecting an unknown id changes nothing |
| Registry.UnregisterIdempotent | backend/main.py:141-146 | disconnecting twice is disconnecting once |
| Registry.EvictEffect | backend/main.py:105-107 | the clean-up removes exactly the given ids and keeps the invariant |
| Registry.EvictAllIsEvict | backend/main.py:105-107 | disconnecting ids one by one, in any order and with repeats, removes exactly their set |
| Registry.StaleCloseDropsLiveSession | backend/main.py:261 | as written, an earlier socket's close removes a client that has reconnected on a new socket |
| Registry.ReleaseEffect | backend/main.py:260-261 | the corrected close changes nothing when the id is registered on another socket; otherwise it is a disconnect, which leaves the id unregistered and changes nothing when the id was already gone |
| Registry.ReconnectSurvivesStaleClose | backend/main.py:260-261 | with the corrected close a reconnected client keeps its live socket and colour |
| Hub.SendEach | backend/main.py:97-103 | the sending loop tries exactly the recipients in order and collects exactly the failing ones |
| Hub.AfterFanoutEffect | backend/main.py:95-107 | after a local fan-out a client stays exactly when it was registered and was excluded or took the send; survivors keep socket and colour |
| Hub.BroadcastSparesSender | backend/main.py:149-156 | a broadcast is never sent to its sender, and the sender stays registered with its socket and colour |
| Hub.ListenerSparesSender | backend/main.py:81-89 | a message taken off the channel is never delivered to the client its `sender_id` names |
| Hub.ConnectRegisters | backend/main.py:115-137 | after `connect` the client is registered with its socket and colour and listed in the welcome order; the count grows by one only for a new id |
| Hub.ConnectionManager.constructor | backend/main.py:44-57 | a new manager has no clients, colour index 0 and an empty channel |
| Hub.ConnectionManager.NextColor | backend/main.py:109-113 | returns the palette colour at the index and advances the index by one |
| Hub.ConnectionManager.Disconnect | backend/main.py:141-146 | the registry becomes `Unregister` of the old one; every other client keeps its entries |
| Hub.ConnectionManager.LocalBroadcast | backend/main.py:95-107 | the registry becomes the old one minus the failed recipients; the attempted sends are exactly the fan-out log |
| Hub.ConnectionManager.DisconnectAll | backend/main.py:105-107 | the registry becomes the old one with exactly the listed ids evicted |
| Hub.ConnectionManager.Broadcast | backend/main.py:149-156 | stamps `sender_id`, then either appends the message to the channel with the registry unchanged, or fans it out locally excluding the sender |
| Hub.ConnectionManager.ListenerStep | backend/main.py:81-93 | takes the oldest channel message and fans it out excluding its `sender_id`; with nothing waiting nothing changes |
| Hub.ConnectionManager.Store | backend/main.py:118-119 | the registry becomes `Register` of the old one |
| Hub.ConnectionManager.Admit | backend/main.py:117-119 | the client gets the socket and the next palette colour, and the index advances |
| Hub.ConnectionManager.Connect | backend/main.py:115-139 | registers the client, announces `client_joined` with the count after insertion through `broadcast`, then sends `welcome` with the current order and colours to the new socket |
| Endpoint.HandleMessage | backend/main.py:246-258 | the message is stamped with the connection's id, colour and time, then broadcast with the connection as sender |
| Endpoint.CloseSessionAsWritten | backend/main.py:260-268 | as written, the close unregisters the id whatever socket closed, then announces `client_left` with the remaining count |
| Endpoint.CloseSession | backend/main.py:260-268 | corrected close: when the id is registered on another socket, nothing changes and nothing is announced; otherwise the id is disconnected and `client_left` is announced with the remaining count, also when a failed fan-out already evicted the id |
| Endpoint.EvictedCloseAnnounces | backend/main.py:95-107 | a client evicted by a failed send of another client's fan-out is unregistered and its later close is not a superseded one, so `client_left` is still announced |
| Endpoint.CloseRemovesClient | backend/main.py:260-268 | after its live socket closes the client is gone whatever the fan-out does, and the announcement never reaches it |
| Endpoint.InboundAttributedToConnection | backend/main.py:250-258 | a relayed message names the connection's own id as both `client_id` and `sender_id` |
| Text.JoinAppend | backend/main.py:385 | joining two non-empty line lists puts exactly one newline between their texts |
| Text.SplitJoin | backend/main.py:385 | splitting at newlines undoes the join when no line holds a newline |
| Text.LeadingNewline | backend/main.py:374 | a line that starts with a newline joins like a blank line followed by the rest of it |
| Describe.NodeLines | backend/main.py:368-372 | one line per node, in input order |
| Describe.EdgeLines | backend/main.py:376-380 | one line per edge, in input order |
| Describe.FormatDiagram | backend/main.py:364-385 | the text is the newline-join of the nodes header, node lines, edges header, edge lines and, with no edges, the placeholder |
| Describe.NodeLayout | backend/main.py:366-372 | the line list opens with the nodes header, followed by node `i`'s line at position `1 + i` |
| Describe.EdgeLayout | backend/main.py:374-383 | then the edges header, each edge's line in order, and the placeholder last when there are no edges |
| Describe.OnlyPlaceholderReadsAsPlaceholder | backend/main.py:366-383 | no header, node line or edge line reads as the placeholder |
| Describe.PlaceholderIffNoEdges | backend/main.py:382-383 | the "No connections defined" line is present exactly when the edge list is empty |
| Describe.DescriptionSplitsIntoLines | backend/main.py:364-385 | with newline-free fields, the text splits back into one line per header, node and edge, with a blank line before the edges header |
| MockAnalysis.FirstSeen | backend/main.py:394-397 | the keys of the counting dictionary are duplicate-free and are exactly the types that occur |
| MockAnalysis.KindsAt | backend/main.py:395-396 | the type read for node `i` is its `type`, or `"default"` when it has none |
| MockAnalysis.TallySum | backend/main.py:394-397 | the counts of the distinct types add up to the number of nodes |
| MockAnalysis.CountNodeTypes | backend/main.py:394-397 | the counting loop yields keys in first-occurrence order and the occurrence count of each type |
| MockAnalysis.FirstSeenOrder | backend/main.py:394-397 | the keys of the counting dictionary are listed in the order in which the types first occur: one key comes before another exactly when it occurs first |
| MockAnalysis.TypesInFirstOccurrenceOrder | backend/main.py:394-410 | the report lists the types in the order of their first occurrence among the nodes |
| MockAnalysis.TypeCountsSumToNodeCount | backend/main.py:394-410 | each type some node has is listed once, with the number of its nodes, and the counts add up to the node count |
| MockAnalysis.GenerateMockAnalysis | backend/main.py:388-463 | the report records the totals, the type counts, the assessment paragraphs, the rating and the remark |
| MockAnalysis.SectionsContent | backend/main.py:418-438 | which paragraphs appear, in terms of the totals and the detections |
| MockAnalysis.EmptyWarningIffNoNodes | backend/main.py:418-419 | "Empty Architecture" appears exactly when there are no nodes, and then alone |
| MockAnalysis.DetectionNotesIff | backend/main.py:400-431 | the database and API notes appear exactly when some node is detected as one |
| MockAnalysis.IsolatedWarningIff | backend/main.py:433-438 | "Isolated Components" appears exactly when there are no edges and more than one node |
| MockAnalysis.RiskRating | backend/main.py:455 | HIGH exactly for nodes without edges, LOW exactly for five or more nodes with edges, MEDIUM otherwise, including the empty diagram |
| MockAnalysis.ClosingAgreesWithRating | backend/main.py:455-457 | the "incomplete" remark comes exactly with the isolated warning and only under HIGH; the connectivity remark comes exactly when there are edges, never under HIGH |

## Left out

- Redis I/O is not modelled: `connect_redis`, `disconnect_redis`, `publish` and `pubsub.listen`. The channel is a FIFO field of one instance. Other instances, JSON encoding of published messages and the `"type" == "message"` filter are not modelled.
- Transport calls are not modelled: `websocket.accept`, `receive_json` and JSON decoding. A socket is an opaque handle. Whether a send raises is the caller-supplied `dead` set. The sends a method makes are reported as a ghost log, not performed.
- Hub.ConnectionManager.Connect: if the `welcome` send raises, the source lets the exception end the handler. The model only records that send as failed.
- Hub.ConnectionManager.Connect: the `welcome` and `client_joined` colours are read from the colour just assigned, not re-read from `client_colors`. Hub.ConnectRegisters proves the two are equal.
- Endpoint.HandleMessage: the `while True` receive loop is modelled one message at a time.
- Async interleaving is not modelled: each method runs atomically. This includes the registry changing while `_local_broadcast` awaits between sends.
- Exception kinds are not distinguished. A failing send is any exception; a closed socket is `WebSocketDisconnect`.
- Timestamps are caller-supplied strings; `datetime.utcnow()` is not modelled.
- Logging (`print`) and the `type`/`id` fields read only for logging are left out.
- The Gemini call in `analyze_diagram` is not modelled.
- The FastAPI application, CORS, lifespan and the `/` and `/health` endpoints are not modelled.
- Floating-point JSON numbers are not modelled.
- Diagram fields are modelled as absent or a string. A present non-string value, which Python would format with `str()`, is not modelled.
- A `data` field that is not a dictionary makes the source raise; this is not modelled.
- MockAnalysis.GenerateMockAnalysis: the database/API detections are given as per-node predicates. The source's substring tests on `str(node).lower()` depend on Python's dict printing and Unicode lower-casing, which are not modelled.
- MockAnalysis.GenerateMockAnalysis: the report's fixed Markdown and emoji prose is not modelled. The `Component Types` line is kept as the ordered keys and their counts, not as text.

## Findings

| source | as written | input that shows it | evidently intended | confidence | as-written member | corrected member |
|---|---|---|---|---|---|---|
| backend/main.py:260-268 | on `WebSocketDisconnect` the handler calls `disconnect(client_id)` and announces `client_left`, whichever socket closed | client "a" connects on socket 1, reconnects on socket 2 (which overwrites the entry), then socket 1's handler sees the close: "a" is removed although socket 2 is live | a close should unregister the id and announce the departure unless the id is registered on another socket; a client already evicted by a failed fan-out should still be announced | medium, not executed | Endpoint.CloseSessionAsWritten, Registry.StaleCloseDropsLiveSession | Endpoint.CloseSession, Registry.ReconnectSurvivesStaleClose |
