// The transport-switch state machine of js/gcSetupPanel.js, as functions from the
// panel's state before an operation or a vendor callback to its state after it.
// The WebSocket and the Paho MQTT client are abstract handles; the events the
// panel emits and the calls it makes on the vendor objects are logs in the state.
module PanelState {
  import opened Wrappers
  import opened JsValue
  import JsText

  /** `WebSocket.readyState`. A socket is `Closing` from the moment the server begins
      the closing handshake until its `close` event. */
  datatype ReadyState = Connecting | Open | Closing | Closed

  /** The `_ws` handle: which socket (numbered in creation order) and its state. */
  datatype Socket = Socket(id: nat, readyState: ReadyState)

  /** The `_mqtt` handle: which client (numbered in creation order) and `isConnected()`. */
  datatype Client = Client(id: nat, connected: bool)

  /** Events dispatched by the panel: `gc-status` with a text, `gc-message` with a payload. */
  datatype Emitted = Status(text: string) | Message(payload: Value)

  /** Calls the panel makes on the vendor objects. */
  datatype VendorCall =
    | NewSocket(id: nat, url: string)
    | CloseSocket(id: nat)
    | SocketSend(id: nat, data: string)
    | NewClient(id: nat, host: string, port: int)
    | Connect(id: nat)
    | Disconnect(id: nat)
    | Subscribe(id: nat, topic: string)
    | Publish(id: nat, topic: string, payload: string)

  /** What `JSON.parse` made of a text payload. */
  datatype JsonParse = Parsed(value: Value) | SyntaxError(message: string)

  /** An inbound payload: a string (parsed by `JSON.parse`) or any other value. */
  datatype Inbound = Text(parse: JsonParse) | NonText(value: Value)

  /** The values of the `mqtt-broker`, `mqtt-port` and `mqtt-topic` input fields. */
  datatype Inputs = Inputs(broker: string, port: string, topic: string)

  datatype State = State(
    ws: Option<Socket>,          // _ws
    mqtt: Option<Client>,        // _mqtt
    transport: string,           // _currentTransport
    indicator: string,           // text of the connection-status element
    configShown: bool,           // the MQTT settings are visible
    inputs: Inputs,
    pahoLoaded: bool,            // the global `Paho` is defined
    socketCount: nat,            // sockets created so far
    clientTopics: seq<string>,   // per client created: the topic its onSuccess subscribes to
    events: seq<Emitted>,
    calls: seq<VendorCall>)

  const WS_URL := "ws://localhost:8080"
  const DEFAULT_BROKER := "broker.hivemq.com"
  const DEFAULT_PORT := 8884
  const DEFAULT_TOPIC := "gc/data"

  /** The panel holds at most the newest socket and the newest client, never a socket
      it has called `close()` on and never a client it has called `disconnect()` on. */
  ghost predicate WellFormed(s: State) {
    && CallsNameCreated(s.calls, s.socketCount, |s.clientTopics|)
    && (s.ws.Some? ==> s.ws.value.id + 1 == s.socketCount && CloseSocket(s.ws.value.id) !in s.calls)
    && (s.mqtt.Some? ==> s.mqtt.value.id + 1 == |s.clientTopics| && Disconnect(s.mqtt.value.id) !in s.calls)
  }

  /** Every `close()` and every `disconnect()` in `calls` names a socket or a client
      among the first `sockets` or `clients` created. */
  ghost predicate CallsNameCreated(calls: seq<VendorCall>, sockets: nat, clients: nat) {
    forall k :: 0 <= k < |calls| ==>
      (calls[k].CloseSocket? ==> calls[k].id < sockets) && (calls[k].Disconnect? ==> calls[k].id < clients)
  }

  /* ---------------- helpers ---------------- */

  /** `value || fallback` for an input's string value. */
  function OrDefault(value: string, fallback: string): string {
    if value == "" then fallback else value
  }

  /** `parseInt(value) || 8884`: NaN and 0 fall back to the default port. */
  function PortOrDefault(value: string): int {
    match JsText.ParseInt(value)
    case None => DEFAULT_PORT
    case Some(p) => if p == 0 then DEFAULT_PORT else p
  }

  /** The connection-status text `_updateConnectionStatus(online, transport)` writes. */
  function StatusLine(online: bool, transport: string): string {
    (if online then "● Online" else "● Offline") + " (" + transport + ")"
  }

  /** `_emitMessage(text)`. */
  function EmitMessage(s: State, text: string): State {
    s.(events := s.events + [Status(text)])
  }

  /** `_updateConnectionStatus(online, transport)`. */
  function UpdateConnectionStatus(s: State, online: bool, transport: string): State {
    s.(indicator := StatusLine(online, transport))
  }

  /* ---------------- operations ---------------- */

  /** `_initWebSocket()`. */
  function InitWebSocket(s: State): State {
    if s.ws.Some? then EmitMessage(s, "WebSocket is already initialized.")
    else s.(ws := Some(Socket(s.socketCount, Connecting)),
            socketCount := s.socketCount + 1,
            calls := s.calls + [NewSocket(s.socketCount, WS_URL)])
  }

  /** `_initMQTT()`; the random client id is not modelled. */
  function InitMqtt(s: State): State {
    if s.mqtt.Some? then EmitMessage(s, "MQTT is already initialized.")
    else if !s.pahoLoaded then
      UpdateConnectionStatus(EmitMessage(s, "MQTT library (Paho) not loaded"), false, "MQTT")
    else
      var id := |s.clientTopics|;
      s.(mqtt := Some(Client(id, false)),
         clientTopics := s.clientTopics + [OrDefault(s.inputs.topic, DEFAULT_TOPIC)],
         calls := s.calls + [NewClient(id, OrDefault(s.inputs.broker, DEFAULT_BROKER), PortOrDefault(s.inputs.port)),
                             Connect(id)])
  }

  /** `onConnected()`, run by `connectedCallback` each time the element is inserted:
      the template is rebuilt (status, hidden settings, default field values), both
      handles are set to null without closing or disconnecting anything, WebSocket is
      selected, then `_initWebSocket()`. */
  function OnConnected(s: State): State {
    InitWebSocket(s.(ws := None, mqtt := None, transport := "websocket", indicator := "● Offline",
                     configShown := false, inputs := Inputs(DEFAULT_BROKER, "8884", DEFAULT_TOPIC)))
  }

  /** The panel as its first insertion leaves it. */
  function Start(pahoLoaded: bool): State {
    OnConnected(State(None, None, "", "", false, Inputs("", "", ""), pahoLoaded, 0, [], [], []))
  }

  /** Close and drop the socket handle, if there is one. */
  function DropSocket(s: State): State {
    if s.ws.Some? then s.(ws := None, calls := s.calls + [CloseSocket(s.ws.value.id)]) else s
  }

  /** Disconnect and drop the client handle, only if it is connected. */
  function DropConnectedClient(s: State): State {
    if s.mqtt.Some? && s.mqtt.value.connected
    then s.(mqtt := None, calls := s.calls + [Disconnect(s.mqtt.value.id)])
    else s
  }

  /** The `'websocket'` branch of `_switchTransport`. */
  function EnterWebsocket(s: State): State {
    var s2 := DropConnectedClient(s);
    var s3 := if s2.ws.None? || s2.ws.value.readyState != Open then InitWebSocket(s2) else s2;
    s3.(configShown := false)
  }

  /** The `'mqtt'` branch of `_switchTransport`. */
  function EnterMqtt(s: State): State {
    var s2 := DropSocket(s).(configShown := true);
    if s2.mqtt.None? || !s2.mqtt.value.connected then InitMqtt(s2) else s2
  }

  /** `_switchTransport(transport)`. */
  function SwitchTransport(s: State, transport: string): State {
    var s1 := s.(transport := transport);
    if transport == "websocket" then EnterWebsocket(s1)
    else if transport == "mqtt" then EnterMqtt(s1)
    else s1
  }

  /** `_applyMQTTConfig()`. */
  function ApplyMqttConfig(s: State): State {
    var s1 := if s.mqtt.Some? && s.mqtt.value.connected
              then s.(calls := s.calls + [Disconnect(s.mqtt.value.id)]) else s;
    var s2 := s1.(mqtt := None);
    if s2.transport == "mqtt" then InitMqtt(s2) else s2
  }

  /** `_handleMessage(msgData)`: never throws. */
  function HandleMessage(s: State, data: Inbound): State {
    match data
    case NonText(v) => s.(events := s.events + [Message(v)])
    case Text(Parsed(v)) => s.(events := s.events + [Message(v)])
    case Text(SyntaxError(m)) => EmitMessage(s, "Error parsing message: " + m)
  }

  /** `sendMessage(msg)`. */
  function SendMessage(s: State, msg: string): State {
    if s.transport == "websocket" && s.ws.Some? && s.ws.value.readyState == Open then
      s.(calls := s.calls + [SocketSend(s.ws.value.id, msg)])
    else if s.transport == "mqtt" && s.mqtt.Some? && s.mqtt.value.connected then
      var topic := OrDefault(s.inputs.topic, DEFAULT_TOPIC);
      EmitMessage(s.(calls := s.calls + [Publish(s.mqtt.value.id, topic, msg)]), "Published to " + topic)
    else EmitMessage(s, "Not connected via " + s.transport + ".")
  }

  /** `disconnectedCallback()`; BaseComponent's own clean-up is not modelled. */
  function DisconnectedCallback(s: State): State {
    DropConnectedClient(DropSocket(s))
  }

  /* ---------------- vendor callbacks ---------------- */

  /** The vendor moves socket `from` to `rs`; the handle shows it only if it is that socket. */
  function SocketBecomes(s: State, from: nat, rs: ReadyState): State {
    if s.ws.Some? && s.ws.value.id == from then s.(ws := Some(Socket(from, rs))) else s
  }

  /** The vendor sets client `from`'s connection; the handle shows it only if it is that client. */
  function ClientBecomes(s: State, from: nat, connected: bool): State {
    if s.mqtt.Some? && s.mqtt.value.id == from then s.(mqtt := Some(Client(from, connected))) else s
  }

  /** Socket `from` opened; its `onopen` handler runs. */
  function OnWsOpen(s: State, from: nat): State {
    var s1 := if s.ws.Some? && s.ws.value.id == from && s.ws.value.readyState == Connecting
              then SocketBecomes(s, from, Open) else s;
    UpdateConnectionStatus(EmitMessage(s1, "WebSocket connection established"), true, "WebSocket")
  }

  /** The server began closing socket `from`: an open socket becomes `Closing`. No
      handler runs. */
  function OnWsClosing(s: State, from: nat): State {
    if s.ws.Some? && s.ws.value.id == from && s.ws.value.readyState == Open
    then SocketBecomes(s, from, Closing) else s
  }

  /** Socket `from` failed; its `onerror` handler runs. */
  function OnWsError(s: State, from: nat): State {
    UpdateConnectionStatus(EmitMessage(SocketBecomes(s, from, Closed), "WebSocket error"), false, "WebSocket")
  }

  /** Socket `from` closed; its `onclose` handler runs and nulls `this._ws`, whichever
      socket that is. */
  function OnWsClose(s: State, from: nat): State {
    var s1 := UpdateConnectionStatus(EmitMessage(SocketBecomes(s, from, Closed), "WebSocket connection closed"),
                                     false, "WebSocket");
    s1.(ws := None)
  }

  /** Client `from` connected; its `onSuccess` handler runs. It subscribes `this._mqtt`
      (whichever client that is) to the topic read when client `from` was created;
      with no client held, that call throws and the handler stops. */
  function OnMqttSuccess(s: State, from: nat): State
    requires from < |s.clientTopics|
  {
    var topic := s.clientTopics[from];
    var s1 := UpdateConnectionStatus(EmitMessage(ClientBecomes(s, from, true), "MQTT connection established"),
                                     true, "MQTT");
    if s1.mqtt.None? then s1
    else EmitMessage(s1.(calls := s1.calls + [Subscribe(s1.mqtt.value.id, topic)]), "Subscribed to topic: " + topic)
  }

  /** Client `from` failed to connect; its `onFailure` handler runs. */
  function OnMqttFailure(s: State, from: nat, errorMessage: string): State {
    UpdateConnectionStatus(EmitMessage(s, "MQTT connection failed: " + errorMessage), false, "MQTT")
  }

  /** Client `from` lost its connection; its `onConnectionLost` handler runs. The handle
      is kept. */
  function OnMqttConnectionLost(s: State, from: nat): State {
    UpdateConnectionStatus(EmitMessage(ClientBecomes(s, from, false), "MQTT connection lost"), false, "MQTT")
  }

  /* ---------------- every step ---------------- */

  /** Everything that can happen to the panel: a user action, removing the element from
      the page or inserting it again, a vendor callback from any socket or client
      created so far, or a change in the page. */
  datatype Action =
    | Switch(transport: string)
    | Apply
    | Send(msg: string)
    | Detach
    | Attach
    | WsOpen(socket: nat)
    | WsClosing(socket: nat)
    | WsFail(socket: nat)     // `error` and then `close`, fired in the same task
    | WsClose(socket: nat)
    | WsMessage(socket: nat, data: Inbound)
    | MqttSuccess(client: nat)
    | MqttFailure(client: nat, errorMessage: string)
    | MqttLost(client: nat)
    | MqttMessage(client: nat, data: Inbound)
    | Edit(inputs: Inputs)
    | PahoArrives

  predicate Enabled(s: State, a: Action) {
    match a
    case WsOpen(id) => id < s.socketCount
    case WsClosing(id) => id < s.socketCount
    case WsFail(id) => id < s.socketCount
    case WsClose(id) => id < s.socketCount
    case WsMessage(id, _) => id < s.socketCount
    case MqttSuccess(id) => id < |s.clientTopics|
    case MqttFailure(id, _) => id < |s.clientTopics|
    case MqttLost(id) => id < |s.clientTopics|
    case MqttMessage(id, _) => id < |s.clientTopics|
    case _ => true
  }

  function Next(s: State, a: Action): State
    requires Enabled(s, a)
  {
    match a
    case Switch(t) => SwitchTransport(s, t)
    case Apply => ApplyMqttConfig(s)
    case Send(msg) => SendMessage(s, msg)
    case Detach => DisconnectedCallback(s)
    case Attach => OnConnected(s)
    case WsOpen(id) => OnWsOpen(s, id)
    case WsClosing(id) => OnWsClosing(s, id)
    case WsFail(id) => OnWsClose(OnWsError(s, id), id)
    case WsClose(id) => OnWsClose(s, id)
    case WsMessage(_, data) => HandleMessage(s, data)
    case MqttSuccess(id) => OnMqttSuccess(s, id)
    case MqttFailure(id, m) => OnMqttFailure(s, id, m)
    case MqttLost(id) => OnMqttConnectionLost(s, id)
    case MqttMessage(_, data) => HandleMessage(s, data)
    case Edit(inputs) => s.(inputs := inputs)
    case PahoArrives => s.(pahoLoaded := true)
  }

  /* ---------------- properties ---------------- */

  /** `onConnected` leaves one connecting socket, no client and nothing emitted. */
  lemma StartState(pahoLoaded: bool)
    ensures WellFormed(Start(pahoLoaded))
    ensures Start(pahoLoaded).ws == Some(Socket(0, Connecting)) && Start(pahoLoaded).mqtt == None
    ensures Start(pahoLoaded).transport == "websocket"
    ensures Start(pahoLoaded).calls == [NewSocket(0, WS_URL)] && Start(pahoLoaded).events == []
  {
  }

  lemma InitWebSocketWellFormed(s: State)
    requires WellFormed(s)
    ensures WellFormed(InitWebSocket(s))
  {
  }

  lemma InitMqttWellFormed(s: State)
    requires WellFormed(s)
    ensures WellFormed(InitMqtt(s))
  {
  }

  lemma DropConnectedClientWellFormed(s: State)
    requires WellFormed(s)
    ensures WellFormed(DropConnectedClient(s))
  {
  }

  lemma DropSocketWellFormed(s: State)
    requires WellFormed(s)
    ensures WellFormed(DropSocket(s))
  {
  }

  lemma EnterWebsocketWellFormed(s: State)
    requires WellFormed(s)
    ensures WellFormed(EnterWebsocket(s))
  {
    DropConnectedClientWellFormed(s);
    InitWebSocketWellFormed(DropConnectedClient(s));
  }

  lemma EnterMqttWellFormed(s: State)
    requires WellFormed(s)
    ensures WellFormed(EnterMqtt(s))
  {
    DropSocketWellFormed(s);
    InitMqttWellFormed(DropSocket(s).(configShown := true));
  }

  lemma SwitchWellFormed(s: State, t: string)
    requires WellFormed(s)
    ensures WellFormed(SwitchTransport(s, t))
  {
    if t == "websocket" {
      EnterWebsocketWellFormed(s.(transport := t));
    } else if t == "mqtt" {
      EnterMqttWellFormed(s.(transport := t));
    }
  }

  lemma ApplyWellFormed(s: State)
    requires WellFormed(s)
    ensures WellFormed(ApplyMqttConfig(s))
  {
    var s1 := if s.mqtt.Some? && s.mqtt.value.connected
              then s.(calls := s.calls + [Disconnect(s.mqtt.value.id)]) else s;
    assert WellFormed(s1.(mqtt := None));
    InitMqttWellFormed(s1.(mqtt := None));
  }

  lemma SocketCallbacksWellFormed(s: State, from: nat)
    requires WellFormed(s)
    ensures WellFormed(OnWsOpen(s, from)) && WellFormed(OnWsClosing(s, from))
    ensures WellFormed(OnWsError(s, from)) && WellFormed(OnWsClose(s, from))
  {
  }

  lemma ClientCallbacksWellFormed(s: State, from: nat, errorMessage: string)
    requires WellFormed(s)
    ensures from < |s.clientTopics| ==> WellFormed(OnMqttSuccess(s, from))
    ensures WellFormed(OnMqttFailure(s, from, errorMessage))
    ensures WellFormed(OnMqttConnectionLost(s, from))
  {
  }

  lemma SendWellFormed(s: State, msg: string)
    requires WellFormed(s)
    ensures WellFormed(SendMessage(s, msg))
  {
  }

  lemma DetachWellFormed(s: State)
    requires WellFormed(s)
    ensures WellFormed(DisconnectedCallback(s))
  {
  }

  lemma OnConnectedWellFormed(s: State)
    requires WellFormed(s)
    ensures WellFormed(OnConnected(s))
  {
  }

  lemma HandleWellFormed(s: State, data: Inbound)
    requires WellFormed(s)
    ensures WellFormed(HandleMessage(s, data))
  {
  }

  /** Every step keeps the panel well formed. */
  lemma NextWellFormed(s: State, a: Action)
    requires WellFormed(s) && Enabled(s, a)
    ensures WellFormed(Next(s, a))
  {
    match a
    case Switch(t) => SwitchWellFormed(s, t);
    case Apply => ApplyWellFormed(s);
    case Send(msg) => SendWellFormed(s, msg);
    case Detach => DetachWellFormed(s);
    case Attach => OnConnectedWellFormed(s);
    case WsOpen(id) => SocketCallbacksWellFormed(s, id);
    case WsClosing(id) => SocketCallbacksWellFormed(s, id);
    case WsFail(id) =>
      SocketCallbacksWellFormed(s, id);
      SocketCallbacksWellFormed(OnWsError(s, id), id);
    case WsClose(id) => SocketCallbacksWellFormed(s, id);
    case WsMessage(_, data) => HandleWellFormed(s, data);
    case MqttSuccess(id) => ClientCallbacksWellFormed(s, id, "");
    case MqttFailure(id, m) => ClientCallbacksWellFormed(s, id, m);
    case MqttLost(id) => ClientCallbacksWellFormed(s, id, "");
    case MqttMessage(_, data) => HandleWellFormed(s, data);
    case Edit(_) =>
    case PahoArrives =>
  }

  /** With a socket handle present, whatever its readyState, `_initWebSocket` only says so. */
  lemma InitWebSocketWhenPresent(s: State)
    requires s.ws.Some?
    ensures InitWebSocket(s) == s.(events := s.events + [Status("WebSocket is already initialized.")])
  {
  }

  /** Switching to WebSocket while holding a socket that is not open (one still
      connecting, or one the server has begun to close) does not replace it. */
  lemma SwitchToWebsocketKeepsHeldSocket(s: State)
    requires s.ws.Some? && s.ws.value.readyState != Open
    ensures SwitchTransport(s, "websocket").ws == s.ws
    ensures SwitchTransport(s, "websocket").events == s.events + [Status("WebSocket is already initialized.")]
  {
  }

  /** Switching to `'mqtt'` always closes and drops the socket handle, and does so
      before any MQTT client is created. A connected client is kept; a client that is
      held but not connected blocks `_initMQTT`. */
  lemma SwitchToMqtt(s: State)
    ensures var r := SwitchTransport(s, "mqtt");
      && r.ws == None && r.transport == "mqtt" && r.configShown
      && (s.ws.Some? ==> |r.calls| > |s.calls| && r.calls[|s.calls|] == CloseSocket(s.ws.value.id))
      && (s.mqtt.Some? ==> r.mqtt == s.mqtt && r.calls == DropSocket(s).calls && r.clientTopics == s.clientTopics)
      && (s.mqtt.Some? && !s.mqtt.value.connected ==>
            r.events == s.events + [Status("MQTT is already initialized.")])
      && (s.mqtt.None? ==> r == InitMqtt(DropSocket(s).(transport := "mqtt", configShown := true)))
  {
  }

  /** Switching to `'websocket'` disconnects and drops the client only if it is
      connected; a client still connecting is kept. Afterwards a socket handle is held. */
  lemma SwitchToWebsocket(s: State)
    ensures var r := SwitchTransport(s, "websocket");
      && r.transport == "websocket" && !r.configShown && r.ws.Some?
      && (s.mqtt.Some? && s.mqtt.value.connected ==>
            r.mqtt == None && |r.calls| > |s.calls| && r.calls[|s.calls|] == Disconnect(s.mqtt.value.id))
      && (!(s.mqtt.Some? && s.mqtt.value.connected) ==>
            r.mqtt == s.mqtt && forall k :: |s.calls| <= k < |r.calls| ==> !r.calls[k].Disconnect?)
      && (s.ws.Some? && s.ws.value.readyState == Open ==> r.ws == s.ws && r.events == s.events)
      && (s.ws.None? ==> r.ws == Some(Socket(s.socketCount, Connecting)))
  {
  }

  /** Any other transport name is recorded and changes nothing else. */
  lemma SwitchToOther(s: State, transport: string)
    requires transport != "websocket" && transport != "mqtt"
    ensures SwitchTransport(s, transport) == s.(transport := transport)
  {
  }

  /** `_applyMQTTConfig` drops the client (disconnecting it only if connected) and creates
      a new one only when MQTT is the current transport and Paho is there. */
  lemma ApplyMqttConfigResult(s: State)
    ensures var r := ApplyMqttConfig(s);
      && (s.transport != "mqtt" ==> r.mqtt == None)
      && (s.transport == "mqtt" ==>
            (r.mqtt.Some? <==> s.pahoLoaded)
            && (s.pahoLoaded ==> r.mqtt == Some(Client(|s.clientTopics|, false))))
      && (s.mqtt.Some? && s.mqtt.value.connected ==> r.calls[|s.calls|] == Disconnect(s.mqtt.value.id))
      && (!(s.mqtt.Some? && s.mqtt.value.connected) ==> forall k :: |s.calls| <= k < |r.calls| ==> !r.calls[k].Disconnect?)
      && r.ws == s.ws
  {
  }

  /** `sendMessage` transmits exactly when the current transport's handle is open or
      connected; otherwise it reports "Not connected via <transport>." and sends nothing. */
  lemma SendMessageOnlyWhenConnected(s: State, msg: string)
    ensures var r := SendMessage(s, msg);
      var viaSocket := s.transport == "websocket" && s.ws.Some? && s.ws.value.readyState == Open;
      var viaBroker := s.transport == "mqtt" && s.mqtt.Some? && s.mqtt.value.connected;
      && r.ws == s.ws && r.mqtt == s.mqtt
      && (viaSocket ==> r.calls == s.calls + [SocketSend(s.ws.value.id, msg)] && r.events == s.events)
      && (viaBroker ==>
            r.calls == s.calls + [Publish(s.mqtt.value.id, OrDefault(s.inputs.topic, DEFAULT_TOPIC), msg)])
      && (!viaSocket && !viaBroker ==>
            r.calls == s.calls && r.events == s.events + [Status("Not connected via " + s.transport + ".")])
  {
  }

  /** `_handleMessage` never throws: it emits exactly one event, a `gc-message` unless the
      text failed to parse, when it is a `gc-status` error text; nothing else changes. */
  lemma HandleMessageEmitsOne(s: State, data: Inbound)
    ensures var r := HandleMessage(s, data);
      && |r.events| == |s.events| + 1 && r.events[..|s.events|] == s.events
      && r == s.(events := r.events)
      && (r.events[|s.events|].Message? <==> !(data.Text? && data.parse.SyntaxError?))
  {
  }

  /** Without Paho `_initMQTT` creates nothing and reports MQTT offline. */
  lemma InitMqttWithoutPaho(s: State)
    requires s.mqtt == None && !s.pahoLoaded
    ensures InitMqtt(s).mqtt == None && InitMqtt(s).calls == s.calls
    ensures InitMqtt(s).indicator == StatusLine(false, "MQTT")
    ensures InitMqtt(s).events == s.events + [Status("MQTT library (Paho) not loaded")]
  {
  }

  /** An empty port field, or one that reads as 0 or NaN, falls back to 8884; a typed
      non-zero integer is used as it is. */
  lemma PortFallback(value: string, p: int)
    ensures JsText.ParseInt(value).None? ==> PortOrDefault(value) == DEFAULT_PORT
    ensures JsText.ParseInt(value) == Some(0) ==> PortOrDefault(value) == DEFAULT_PORT
    ensures PortOrDefault("") == DEFAULT_PORT && PortOrDefault("0") == DEFAULT_PORT
    ensures p != 0 ==> PortOrDefault(JsText.IntToDecimal(p)) == p
  {
    EmptyPort();
    ZeroPort();
    if p != 0 {
      DecimalPort(p);
    }
  }

  lemma EmptyPort()
    ensures PortOrDefault("") == DEFAULT_PORT
  {
    assert JsText.DigitRun("", 10) == 0;
  }

  lemma ZeroPort()
    ensures PortOrDefault("0") == DEFAULT_PORT
  {
    JsText.ParseIntDecimal(0);
    assert JsText.IntToDecimal(0) == "0";
  }

  lemma DecimalPort(p: int)
    requires p != 0
    ensures PortOrDefault(JsText.IntToDecimal(p)) == p
  {
    JsText.ParseIntDecimal(p);
  }

  /** Empty broker, topic and port fields give `broker.hivemq.com`, `gc/data` and 8884. */
  lemma InitMqttDefaults(s: State)
    requires s.mqtt == None && s.pahoLoaded && s.inputs == Inputs("", "", "")
    ensures InitMqtt(s).calls
         == s.calls + [NewClient(|s.clientTopics|, "broker.hivemq.com", 8884), Connect(|s.clientTopics|)]
    ensures InitMqtt(s).clientTopics == s.clientTopics + ["gc/data"]
  {
    PortFallback("", 1);
  }

  /** `disconnectedCallback` closes and drops any socket, then disconnects and drops the
      client only if it is connected; a client still connecting is left held and running. */
  lemma DisconnectedReleasesHandles(s: State)
    ensures var r := DisconnectedCallback(s);
      var connected := s.mqtt.Some? && s.mqtt.value.connected;
      && r.ws == None
      && r.mqtt == (if connected then None else s.mqtt)
      && r.calls == s.calls + (if s.ws.Some? then [CloseSocket(s.ws.value.id)] else [])
                            + (if connected then [Disconnect(s.mqtt.value.id)] else [])
      && r.events == s.events && r.transport == s.transport && r.indicator == s.indicator
  {
  }

  /* ---------------- races and asymmetries ---------------- */

  /** The calls from position `from` on close no socket other than `id`. */
  ghost predicate ClosesOnly(cs: seq<VendorCall>, from: nat, id: nat) {
    forall k :: from <= k < |cs| && cs[k].CloseSocket? ==> cs[k].id == id
  }

  lemma SwitchToMqttCloses(s: State)
    requires s.ws.Some?
    ensures var r := SwitchTransport(s, "mqtt");
      && r.ws == None && r.socketCount == s.socketCount
      && |r.calls| >= |s.calls| && r.calls[..|s.calls|] == s.calls
      && ClosesOnly(r.calls, |s.calls|, s.ws.value.id)
  {
    var d := DropSocket(s.(transport := "mqtt")).(configShown := true);
    assert d.calls == s.calls + [CloseSocket(s.ws.value.id)];
  }

  lemma SwitchToWebsocketOpens(s: State)
    requires s.ws.None?
    ensures var r := SwitchTransport(s, "websocket");
      && r.ws == Some(Socket(s.socketCount, Connecting))
      && |r.calls| >= |s.calls| && r.calls[..|s.calls|] == s.calls
      && forall k :: |s.calls| <= k < |r.calls| ==> !r.calls[k].CloseSocket?
  {
  }

  /** A late `onclose` from a socket closed by a switch to MQTT and back drops the newer
      socket the panel opened in the meantime, which is never closed. */
  lemma LateCloseDropsNewerSocket(s: State)
    requires WellFormed(s) && s.ws.Some?
    ensures var r1 := SwitchTransport(s, "mqtt");
      var r2 := SwitchTransport(r1, "websocket");
      var r3 := OnWsClose(r2, s.ws.value.id);
      && r2.ws == Some(Socket(s.socketCount, Connecting))
      && r3.ws == None
      && ClosesOnly(r3.calls, |s.calls|, s.ws.value.id)
      && s.ws.value.id != s.socketCount
  {
    var r1 := SwitchTransport(s, "mqtt");
    SwitchToMqttCloses(s);
    var r2 := SwitchTransport(r1, "websocket");
    SwitchToWebsocketOpens(r1);
    forall k | |s.calls| <= k < |r1.calls|
      ensures r2.calls[k] == r1.calls[k]
    {
      assert r2.calls[..|r1.calls|][k] == r2.calls[k];
    }
  }

  /** Removing the element while its client is still connecting keeps that client;
      inserting the element again nulls the handle without a `disconnect()`. The
      abandoned client still connects later: its `onSuccess` shows MQTT online, but
      with no client held it subscribes nothing. */
  lemma ReattachAbandonsClient(s: State)
    requires WellFormed(s) && s.mqtt.Some? && !s.mqtt.value.connected
    ensures var c := s.mqtt.value.id;
      var r1 := DisconnectedCallback(s);
      var r2 := OnConnected(r1);
      var r3 := OnMqttSuccess(r2, c);
      && r1.mqtt == s.mqtt
      && r2.mqtt == None && r2.transport == "websocket"
      && Disconnect(c) !in r2.calls
      && r3.mqtt == None && r3.calls == r2.calls
      && r3.indicator == StatusLine(true, "MQTT")
  {
    var c := s.mqtt.value.id;
    var r1 := DisconnectedCallback(s);
    assert r1.calls == s.calls || r1.calls == s.calls + [CloseSocket(s.ws.value.id)];
    assert OnConnected(r1).calls == r1.calls + [NewSocket(r1.socketCount, WS_URL)];
  }

  /** A failed socket fires `error` and then `close`, so its handle is gone before the
      user can act, and the next switch to WebSocket opens a new socket. */
  lemma FailedSocketIsReplaced(s: State)
    requires WellFormed(s) && s.ws.Some?
    ensures var r1 := Next(s, WsFail(s.ws.value.id));
      var r2 := SwitchTransport(r1, "websocket");
      && r1.ws == None
      && r1.events == s.events + [Status("WebSocket error"), Status("WebSocket connection closed")]
      && r2.ws == Some(Socket(s.socketCount, Connecting))
      && r2.socketCount == s.socketCount + 1
      && r2.calls[|r2.calls| - 1] == NewSocket(s.socketCount, WS_URL)
  {
  }

  /** While the server closes the open socket, a switch to WebSocket refuses to open
      another; the `close` event then drops the handle, and the panel is left on the
      WebSocket transport with no socket and no new one under way. */
  lemma ServerCloseLeavesNoSocket(s: State)
    requires s.ws.Some? && s.ws.value.readyState == Open
    ensures var id := s.ws.value.id;
      var r1 := OnWsClosing(s, id);
      var r2 := SwitchTransport(r1, "websocket");
      var r3 := OnWsClose(r2, id);
      && r2.ws == Some(Socket(id, Closing))
      && r2.events[|r2.events| - 1] == Status("WebSocket is already initialized.")
      && r3.ws == None && r3.transport == "websocket"
      && r3.socketCount == s.socketCount
      && (forall k :: |s.calls| <= k < |r3.calls| ==> !r3.calls[k].NewSocket?)
  {
    var id := s.ws.value.id;
    var r1 := OnWsClosing(s, id);
    var s2 := DropConnectedClient(r1.(transport := "websocket"));
    assert s2.calls == s.calls || s2.calls == s.calls + [Disconnect(s.mqtt.value.id)];
    assert OnWsClose(SwitchTransport(r1, "websocket"), id).calls == s2.calls;
  }

  /** Switching to MQTT and straight back to WebSocket keeps the still-connecting
      client; when it and the new socket then connect, both transports are live. */
  lemma BothTransportsLive(s: State)
    requires WellFormed(s) && s.mqtt == None && s.pahoLoaded
    ensures var c := |s.clientTopics|;
      var r2 := SwitchTransport(SwitchTransport(s, "mqtt"), "websocket");
      && r2.mqtt == Some(Client(c, false)) && r2.ws == Some(Socket(s.socketCount, Connecting))
      && var r4 := OnWsOpen(OnMqttSuccess(r2, c), s.socketCount);
         r4.ws == Some(Socket(s.socketCount, Open)) && r4.mqtt == Some(Client(c, true))
  {
  }

  /** After a lost connection the client handle stays, so switching to MQTT only reports
      "MQTT is already initialized." and creates nothing; applying the settings replaces
      the client without disconnecting it. */
  lemma LostClientBlocksReconnect(s: State)
    requires WellFormed(s) && s.mqtt.Some? && s.mqtt.value.connected && s.pahoLoaded
    ensures var c := s.mqtt.value.id;
      var r1 := OnMqttConnectionLost(s, c);
      var r2 := SwitchTransport(r1, "mqtt");
      var r3 := ApplyMqttConfig(r2);
      && r1.mqtt == Some(Client(c, false))
      && r2.mqtt == r1.mqtt
      && r2.events[|r2.events| - 1] == Status("MQTT is already initialized.")
      && (forall k :: |r1.calls| <= k < |r2.calls| ==> !r2.calls[k].NewClient?)
      && r3.mqtt == Some(Client(|s.clientTopics|, false))
      && Disconnect(c) !in r3.calls[|r2.calls|..]
  {
    var c := s.mqtt.value.id;
    var r1 := OnMqttConnectionLost(s, c);
    var r2 := SwitchTransport(r1, "mqtt");
    var r3 := ApplyMqttConfig(r2);
    assert r3.calls[|r2.calls|..] == [NewClient(|s.clientTopics|, OrDefault(r2.inputs.broker, DEFAULT_BROKER),
                                                PortOrDefault(r2.inputs.port)),
                                      Connect(|s.clientTopics|)];
  }
}
