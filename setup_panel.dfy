// The `gc-setup-panel` element of js/gcSetupPanel.js as an object whose methods
// update its fields in place. Each method does what the source's method does,
// statement by statement, and is proved to move the panel exactly as the
// matching transition of PanelState does; the properties of the transport
// switch are proved there, about those transitions. The two branches of
// `_switchTransport` are methods of their own, which keeps each proof small.
// Every method called from outside the element keeps the panel well formed.
// Each operation thus appears twice on purpose: as a PanelState function that
// specifies it and as a method here that is proved to implement it.
module SetupPanel {
  import opened Wrappers
  import opened PanelState

  class Panel {
    var ws: Option<Socket>             // this._ws
    var mqtt: Option<Client>           // this._mqtt
    var currentTransport: string       // this._currentTransport
    var statusText: string             // textContent of #connection-status
    var configVisible: bool            // #mqtt-config has the class `visible`
    var inputs: Inputs                 // values of #mqtt-broker, #mqtt-port, #mqtt-topic
    var pahoLoaded: bool               // typeof Paho !== 'undefined'
    var socketCount: nat               // sockets created so far (their ids)
    var clientTopics: seq<string>      // per client created, the topic its onSuccess captured
    ghost var events: seq<Emitted>     // events dispatched so far
    ghost var calls: seq<VendorCall>   // calls made on the WebSocket and Paho objects so far

    /** The panel's fields as a PanelState value. */
    ghost function Snapshot(): State
      reads this
    {
      State(ws, mqtt, currentTransport, statusText, configVisible, inputs, pahoLoaded,
            socketCount, clientTopics, events, calls)
    }

    ghost predicate Valid()
      reads this
    {
      WellFormed(Snapshot())
    }

    /** The element before its first insertion, then `onConnected()`. */
    constructor (pahoLoaded: bool)
      ensures Snapshot() == Start(pahoLoaded)
      ensures Valid()
    {
      ws := None;
      mqtt := None;
      currentTransport := "";
      statusText := "";
      configVisible := false;
      inputs := Inputs("", "", "");
      this.pahoLoaded := pahoLoaded;
      socketCount := 0;
      clientTopics := [];
      events := [];
      calls := [];
      new;
      OnConnected();
    }

    /** `onConnected()`: the template is rebuilt, both handles are nulled, WebSocket is
        selected, then `_initWebSocket()`. */
    method OnConnected()
      requires Valid()
      modifies this
      ensures Snapshot() == PanelState.OnConnected(old(Snapshot()))
      ensures Valid()
    {
      OnConnectedWellFormed(Snapshot());
      statusText := "● Offline";
      configVisible := false;
      inputs := Inputs(DEFAULT_BROKER, "8884", DEFAULT_TOPIC);
      ws := None;
      mqtt := None;
      currentTransport := "websocket";
      InitWebSocket();
    }

    /** `_emitMessage(text)`: dispatch `gc-status`. */
    method EmitMessage(text: string)
      modifies this
      ensures Snapshot() == PanelState.EmitMessage(old(Snapshot()), text)
    {
      events := events + [Status(text)];
    }

    /** `_updateConnectionStatus(online, transport)`. */
    method UpdateConnectionStatus(online: bool, transport: string)
      modifies this
      ensures Snapshot() == PanelState.UpdateConnectionStatus(old(Snapshot()), online, transport)
    {
      var text := if online then "● Online" else "● Offline";
      statusText := text + " (" + transport + ")";
    }

    /** `_initWebSocket()`. */
    method InitWebSocket()
      requires Valid()
      modifies this
      ensures Snapshot() == PanelState.InitWebSocket(old(Snapshot()))
      ensures Valid()
    {
      InitWebSocketWellFormed(Snapshot());
      if ws.Some? {
        EmitMessage("WebSocket is already initialized.");
        return;
      }
      ws := Some(Socket(socketCount, Connecting));
      calls := calls + [NewSocket(socketCount, WS_URL)];
      socketCount := socketCount + 1;
    }

    /** `_initMQTT()`. */
    method InitMQTT()
      requires Valid()
      modifies this
      ensures Snapshot() == PanelState.InitMqtt(old(Snapshot()))
      ensures Valid()
    {
      InitMqttWellFormed(Snapshot());
      if mqtt.Some? {
        EmitMessage("MQTT is already initialized.");
        return;
      }
      var brokerUrl := OrDefault(inputs.broker, DEFAULT_BROKER);
      var brokerPort := PortOrDefault(inputs.port);
      var topic := OrDefault(inputs.topic, DEFAULT_TOPIC);
      if !pahoLoaded {
        EmitMessage("MQTT library (Paho) not loaded");
        UpdateConnectionStatus(false, "MQTT");
        return;
      }
      var id := |clientTopics|;
      mqtt := Some(Client(id, false));
      clientTopics := clientTopics + [topic];
      calls := calls + [NewClient(id, brokerUrl, brokerPort), Connect(id)];
    }

    /** `_switchTransport(transport)`. */
    method SwitchTransport(transport: string)
      requires Valid()
      modifies this
      ensures Snapshot() == PanelState.SwitchTransport(old(Snapshot()), transport)
      ensures Valid()
    {
      currentTransport := transport;
      if transport == "websocket" {
        EnterWebsocket();
      } else if transport == "mqtt" {
        EnterMqtt();
      }
    }

    /** The `'websocket'` branch of `_switchTransport`. */
    method EnterWebsocket()
      requires Valid()
      modifies this
      ensures Snapshot() == PanelState.EnterWebsocket(old(Snapshot()))
      ensures Valid()
    {
      EnterWebsocketWellFormed(Snapshot());
      if mqtt.Some? && mqtt.value.connected {
        calls := calls + [Disconnect(mqtt.value.id)];
        mqtt := None;
      }
      ghost var s2 := Snapshot();
      assert s2 == DropConnectedClient(old(Snapshot()));
      DropConnectedClientWellFormed(old(Snapshot()));
      if ws.None? || ws.value.readyState != Open {
        InitWebSocket();
        assert Snapshot() == PanelState.InitWebSocket(s2);
      }
      configVisible := false;
    }

    /** The `'mqtt'` branch of `_switchTransport`. */
    method EnterMqtt()
      requires Valid()
      modifies this
      ensures Snapshot() == PanelState.EnterMqtt(old(Snapshot()))
      ensures Valid()
    {
      EnterMqttWellFormed(Snapshot());
      if ws.Some? {
        calls := calls + [CloseSocket(ws.value.id)];
        ws := None;
      }
      configVisible := true;
      ghost var s2 := Snapshot();
      assert s2 == DropSocket(old(Snapshot())).(configShown := true);
      DropSocketWellFormed(old(Snapshot()));
      if mqtt.None? || !mqtt.value.connected {
        InitMQTT();
        assert Snapshot() == InitMqtt(s2);
      }
    }

    /** `_applyMQTTConfig()`. */
    method ApplyMQTTConfig()
      requires Valid()
      modifies this
      ensures Snapshot() == PanelState.ApplyMqttConfig(old(Snapshot()))
      ensures Valid()
    {
      ApplyWellFormed(Snapshot());
      if mqtt.Some? && mqtt.value.connected {
        calls := calls + [Disconnect(mqtt.value.id)];
      }
      mqtt := None;
      if currentTransport == "mqtt" {
        InitMQTT();
      }
    }

    /** `_handleMessage(msgData)`. */
    method HandleMessage(data: Inbound)
      requires Valid()
      modifies this
      ensures Snapshot() == PanelState.HandleMessage(old(Snapshot()), data)
      ensures Valid()
    {
      HandleWellFormed(Snapshot(), data);
      match data
      case NonText(v) =>
        events := events + [Message(v)];
      case Text(Parsed(v)) =>
        events := events + [Message(v)];
      case Text(SyntaxError(m)) =>
        EmitMessage("Error parsing message: " + m);
    }

    /** `sendMessage(msg)`. */
    method SendMessage(msg: string)
      requires Valid()
      modifies this
      ensures Snapshot() == PanelState.SendMessage(old(Snapshot()), msg)
      ensures Valid()
    {
      SendWellFormed(Snapshot(), msg);
      if currentTransport == "websocket" && ws.Some? && ws.value.readyState == Open {
        calls := calls + [SocketSend(ws.value.id, msg)];
      } else if currentTransport == "mqtt" && mqtt.Some? && mqtt.value.connected {
        var topic := OrDefault(inputs.topic, DEFAULT_TOPIC);
        calls := calls + [Publish(mqtt.value.id, topic, msg)];
        EmitMessage("Published to " + topic);
      } else {
        EmitMessage("Not connected via " + currentTransport + ".");
      }
    }

    /** `disconnectedCallback()`. */
    method DisconnectedCallback()
      requires Valid()
      modifies this
      ensures Snapshot() == PanelState.DisconnectedCallback(old(Snapshot()))
      ensures Valid()
    {
      DetachWellFormed(Snapshot());
      if ws.Some? {
        calls := calls + [CloseSocket(ws.value.id)];
        ws := None;
      }
      if mqtt.Some? && mqtt.value.connected {
        calls := calls + [Disconnect(mqtt.value.id)];
        mqtt := None;
      }
    }

    /** Socket `from` opens, then its `onopen` handler runs. */
    method OnWsOpen(from: nat)
      requires Valid()
      modifies this
      ensures Snapshot() == PanelState.OnWsOpen(old(Snapshot()), from)
      ensures Valid()
    {
      SocketCallbacksWellFormed(Snapshot(), from);
      if ws.Some? && ws.value.id == from && ws.value.readyState == Connecting {
        ws := Some(Socket(from, Open));
      }
      EmitMessage("WebSocket connection established");
      UpdateConnectionStatus(true, "WebSocket");
    }

    /** Socket `from` fails, then its `onerror` handler runs. */
    method OnWsError(from: nat)
      requires Valid()
      modifies this
      ensures Snapshot() == PanelState.OnWsError(old(Snapshot()), from)
      ensures Valid()
    {
      SocketCallbacksWellFormed(Snapshot(), from);
      if ws.Some? && ws.value.id == from {
        ws := Some(Socket(from, Closed));
      }
      EmitMessage("WebSocket error");
      UpdateConnectionStatus(false, "WebSocket");
    }

    /** Socket `from` closes, then its `onclose` handler runs. */
    method OnWsClose(from: nat)
      requires Valid()
      modifies this
      ensures Snapshot() == PanelState.OnWsClose(old(Snapshot()), from)
      ensures Valid()
    {
      SocketCallbacksWellFormed(Snapshot(), from);
      if ws.Some? && ws.value.id == from {
        ws := Some(Socket(from, Closed));
      }
      EmitMessage("WebSocket connection closed");
      UpdateConnectionStatus(false, "WebSocket");
      ws := None;
    }

    /** Client `from` connects, then its `onSuccess` handler runs. */
    method OnMqttSuccess(from: nat)
      requires Valid() && from < |clientTopics|
      modifies this
      ensures Snapshot() == PanelState.OnMqttSuccess(old(Snapshot()), from)
      ensures Valid()
    {
      ClientCallbacksWellFormed(Snapshot(), from, "");
      var topic := clientTopics[from];
      if mqtt.Some? && mqtt.value.id == from {
        mqtt := Some(Client(from, true));
      }
      EmitMessage("MQTT connection established");
      UpdateConnectionStatus(true, "MQTT");
      if mqtt.None? {
        // `this._mqtt.subscribe` throws a TypeError: the handler stops here.
        return;
      }
      calls := calls + [Subscribe(mqtt.value.id, topic)];
      EmitMessage("Subscribed to topic: " + topic);
    }

    /** Client `from` fails to connect, then its `onFailure` handler runs. */
    method OnMqttFailure(from: nat, errorMessage: string)
      requires Valid()
      modifies this
      ensures Snapshot() == PanelState.OnMqttFailure(old(Snapshot()), from, errorMessage)
      ensures Valid()
    {
      ClientCallbacksWellFormed(Snapshot(), from, errorMessage);
      EmitMessage("MQTT connection failed: " + errorMessage);
      UpdateConnectionStatus(false, "MQTT");
    }

    /** Client `from` loses its connection, then its `onConnectionLost` handler runs. */
    method OnMqttConnectionLost(from: nat)
      requires Valid()
      modifies this
      ensures Snapshot() == PanelState.OnMqttConnectionLost(old(Snapshot()), from)
      ensures Valid()
    {
      ClientCallbacksWellFormed(Snapshot(), from, "");
      if mqtt.Some? && mqtt.value.id == from {
        mqtt := Some(Client(from, false));
      }
      EmitMessage("MQTT connection lost");
      UpdateConnectionStatus(false, "MQTT");
    }

    /** Whatever happens next to the panel; it stays well formed. */
    method Step(a: Action)
      requires Valid() && Enabled(Snapshot(), a)
      modifies this
      ensures Snapshot() == Next(old(Snapshot()), a)
      ensures Valid()
    {
      NextWellFormed(Snapshot(), a);
      match a
      case Switch(t) => SwitchTransport(t);
      case Apply => ApplyMQTTConfig();
      case Send(msg) => SendMessage(msg);
      case Detach => DisconnectedCallback();
      case Attach => OnConnected();
      case WsOpen(id) => OnWsOpen(id);
      case WsClosing(id) =>
        if ws.Some? && ws.value.id == id && ws.value.readyState == Open {
          ws := Some(Socket(id, Closing));
        }
      case WsFail(id) =>
        OnWsError(id);
        OnWsClose(id);
      case WsClose(id) => OnWsClose(id);
      case WsMessage(_, data) => HandleMessage(data);
      case MqttSuccess(id) => OnMqttSuccess(id);
      case MqttFailure(id, m) => OnMqttFailure(id, m);
      case MqttLost(id) => OnMqttConnectionLost(id);
      case MqttMessage(_, data) => HandleMessage(data);
      case Edit(values) => inputs := values;
      case PahoArrives => pahoLoaded := true;
    }
  }
}
