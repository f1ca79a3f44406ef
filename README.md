# Transport panel and i18n helpers, modelled in Dafny

This project models three parts of a small web-component front end:

- **The `gc-setup-panel` element** (`js/gcSetupPanel.js`). It keeps at most one WebSocket handle (`_ws`) and one Paho MQTT client handle (`_mqtt`). It switches between the `websocket` and `mqtt` transports, rebuilds the MQTT client from the broker, port and topic fields, and sends messages over whichever transport is current. It reports through `gc-status` and `gc-message` events and a connection-status line.
  - `PanelState` states every operation and every vendor callback as a function from the panel's state to its next state. The properties of the switch are proved there.
  - `SetupPanel.Panel` is the element itself, as a class whose methods update its fields as the source does. Each method is proved to move the panel exactly as the matching `PanelState` function does.
  - Sockets and clients carry the order in which they were created. A callback from an old socket or client can therefore arrive after the panel has replaced it. The vendor may fire any callback of any handle created so far (`PanelState.Action`, `PanelState.Enabled`).
  - Removing the element (`disconnectedCallback`) and inserting it again (`connectedCallback`, which runs `onConnected`) are steps too.
  - A failed socket fires `error` and then `close` in the same task, as the WebSocket API does, so the model delivers the two handlers as one step. A server that begins the closing handshake moves an open socket to `Closing`, and `close` follows later.
- **The i18n helpers of `BaseComponent`** (`js/BaseComponent.js`):
  - `resolveKey`, a dotted-path lookup with `?.`;
  - `interpolate`, which replaces `{key}` with `variables[key] ?? "{key}"`;
  - the per-element rules of `refreshLanguage`, `setLanguageData` and `updateLanguage`.

  `Component` holds the element texts of a shadow root in an array. Its methods update that array as the `forEach` over `[data-i18n]` elements does, including a callback that throws part-way through (`DomText`).
- **The page-level loader** (`js/languageLoader.js`). It has its own `interpolate` (`/\{(\w+)\}/g`, `!== undefined`), its own `resolveKey` (plain `o[i]`, which throws on `undefined`) and `updateText`. Lemmas relate each of them to the `BaseComponent` version:
  - both `interpolate`s agree when every key is a word and no variable is `null`;
  - on a `null` variable the loader writes `"null"` and the component keeps `{key}`;
  - the two `resolveKey`s agree except that the loader throws where the component yields `undefined`.

Supporting modules:

- `JsText` models `String.prototype.split`, decimal `String(n)` and `parseInt`, with white-space skipping, sign, `0x` prefix and NaN. It proves `parseInt(String(n)) == n`.
- `JsValue` models JavaScript values, truthiness, nullishness and `String(v)`.
- `Template` models the pieces a template scans into.

### How the code handles its connections

The comments of `_switchTransport` say that choosing one transport closes the other if it is active (js/gcSetupPanel.js:245 and :257). The code does not always do so, and it can also lose track of a handle that is still running. The model follows the code and proves the following about it.

- **Both transports can be live** (`PanelState.BothTransportsLive`). `_switchTransport('websocket')` disconnects the MQTT client only if it is already connected. A client that is still connecting is kept. Its `onSuccess` later brings MQTT up beside the new WebSocket.
- **A stale `onclose` drops the newer socket** (`PanelState.LateCloseDropsNewerSocket`). `onclose` sets `this._ws = null` whichever socket fired it. A socket closed by switching to MQTT can fire after the switch back to WebSocket, and then drops the newer socket. That socket is never closed.
- **A client whose connection was lost blocks `_initMQTT`** (`PanelState.LostClientBlocksReconnect`). `onConnectionLost` keeps the handle, so switching to MQTT only reports "MQTT is already initialized.". Only "Apply & Reconnect", or removing and re-inserting the element, lets go of the client.
- **Re-inserting the element abandons a connecting client** (`PanelState.ReattachAbandonsClient`). `disconnectedCallback` keeps a client that is not yet connected. When the element is inserted again, `onConnected` sets `this._mqtt = null` without calling `disconnect()` (js/gcSetupPanel.js:131-133). The abandoned client still connects: its `onSuccess` shows MQTT online while the panel holds no client and subscribes nothing.
- **A socket the server is closing blocks a new one** (`PanelState.ServerCloseLeavesNoSocket`). `_initWebSocket` refuses whenever a handle exists, whatever its `readyState` (`PanelState.SwitchToWebsocketKeepsHeldSocket`). While the server closes the socket, choosing WebSocket only reports "WebSocket is already initialized.". The `close` event then drops the handle, and the panel is left on WebSocket with no socket. A socket that failed does not block anything: its `close` event comes with its `error` event and drops the handle, so the next switch opens a new socket (`PanelState.FailedSocketIsReplaced`).

## Model

| member | source | states |
|---|---|---|
| SetupPanel.Panel.constructor | js/gcSetupPanel.js:5-152 | the first `onConnected` leaves no client, the WebSocket transport, the template's field values (`broker.hivemq.com`, `8884`, `gc/data`) and one connecting socket to `ws://localhost:8080`; the panel is well formed |
| SetupPanel.Panel.OnConnected | js/gcSetupPanel.js:5-152 | each insertion rebuilds the status line, hides the settings, resets the fields, nulls both handles without closing or disconnecting them, selects `websocket` and opens a new socket; moves the panel exactly as `PanelState.OnConnected`, and the panel stays well formed |
| PanelState.ReattachAbandonsClient | js/gcSetupPanel.js:131-133 | after removal, a client still connecting stays held; re-insertion drops it with no `disconnect()` ever made, and its later `onSuccess` shows MQTT online with no client held and no new call |
| PanelState.StartState | js/gcSetupPanel.js:130-151 | the starting panel holds socket 0, connecting, no client, transport `websocket`, has made exactly one call (`new WebSocket`) and emitted nothing |
| SetupPanel.Panel.EmitMessage | js/gcSetupPanel.js:292-295 | appends one `gc-status` event with the text; nothing else changes |
| SetupPanel.Panel.UpdateConnectionStatus | js/gcSetupPanel.js:167-172 | the status line becomes `● Online (T)` or `● Offline (T)`; nothing else changes |
| SetupPanel.Panel.InitWebSocket | js/gcSetupPanel.js:174-196 | with a handle present only "WebSocket is already initialized." is emitted; otherwise a new connecting socket to `ws://localhost:8080` becomes the handle; the panel stays well formed |
| PanelState.InitWebSocketWhenPresent | js/gcSetupPanel.js:175-178 | with a socket handle present, whatever its readyState, `_initWebSocket` changes nothing but the one status event |
| SetupPanel.Panel.InitMQTT | js/gcSetupPanel.js:198-239 | with a client present only "MQTT is already initialized."; without Paho an error and MQTT offline; otherwise a new client on broker/port/topic (with defaults) that is connecting; the panel stays well formed |
| PanelState.InitMqttWithoutPaho | js/gcSetupPanel.js:210-214 | without Paho no client is created, no vendor call is made, the error text is emitted and the status reads `● Offline (MQTT)` |
| PanelState.InitMqttDefaults | js/gcSetupPanel.js:204-206 | empty broker, port and topic fields give client `broker.hivemq.com`:8884 subscribing `gc/data` |
| PanelState.PortFallback | js/gcSetupPanel.js:205 | `parseInt(port) \|\| 8884`: NaN, the empty field and any text `parseInt` reads as 0 (such as `-0` or ` 0`) give 8884; any other integer typed in decimal is used as it is |
| JsText.ParseIntDecimal | js/gcSetupPanel.js:205 | `parseInt` reads back every integer written in decimal |
| SetupPanel.Panel.SwitchTransport | js/gcSetupPanel.js:241-269 | moves the panel exactly as `PanelState.SwitchTransport` and keeps it well formed |
| SetupPanel.Panel.EnterWebsocket | js/gcSetupPanel.js:244-255 | the `websocket` branch: moves the panel exactly as `PanelState.EnterWebsocket` and keeps it well formed |
| SetupPanel.Panel.EnterMqtt | js/gcSetupPanel.js:256-268 | the `mqtt` branch: moves the panel exactly as `PanelState.EnterMqtt` and keeps it well formed |
| PanelState.SwitchToMqtt | js/gcSetupPanel.js:256-268 | switching to `mqtt` records the transport, shows the settings, closes and drops the socket before anything else, keeps an existing client and then makes no call beyond closing the socket and creates no client, and initialises MQTT only without one |
| PanelState.SwitchToWebsocket | js/gcSetupPanel.js:244-255 | switching to `websocket` hides the settings, disconnects and drops the client when it is connected and otherwise keeps it and calls no `disconnect()`, keeps an open socket as it is, opens a new one when none is held, and always ends with a socket handle |
| PanelState.SwitchToWebsocketKeepsHeldSocket | js/gcSetupPanel.js:251-253 | a held socket that is not open (connecting, or closing after the server began the close) is kept and only "WebSocket is already initialized." is emitted |
| PanelState.FailedSocketIsReplaced | js/gcSetupPanel.js:180-192 | a failure fires `onerror` and then `onclose`, which emit both texts and drop the handle; the next switch to `websocket` opens a new connecting socket |
| PanelState.ServerCloseLeavesNoSocket | js/gcSetupPanel.js:188-192 | while the server closes the open socket, a switch to `websocket` keeps it and reports it is initialised; its `onclose` then leaves the panel on `websocket` with no socket and no new one created |
| PanelState.SwitchToOther | js/gcSetupPanel.js:241-242 | any other transport name is recorded and nothing else changes |
| SetupPanel.Panel.ApplyMQTTConfig | js/gcSetupPanel.js:271-280 | moves the panel exactly as `PanelState.ApplyMqttConfig`; the panel stays well formed |
| PanelState.ApplyMqttConfigResult | js/gcSetupPanel.js:271-280 | the client is dropped, disconnected only if connected; a new connecting client exists afterwards exactly when the transport is `mqtt` and Paho is loaded; the socket is untouched |
| SetupPanel.Panel.HandleMessage | js/gcSetupPanel.js:282-290 | moves the panel exactly as `PanelState.HandleMessage`; the panel stays well formed |
| PanelState.HandleMessageEmitsOne | js/gcSetupPanel.js:282-290 | never throws: exactly one event is appended and nothing else changes; it is a `gc-message` unless the text failed to parse |
| SetupPanel.Panel.SendMessage | js/gcSetupPanel.js:297-309 | moves the panel exactly as `PanelState.SendMessage`; the panel stays well formed |
| PanelState.SendMessageOnlyWhenConnected | js/gcSetupPanel.js:297-309 | sends on the socket only when the transport is `websocket` and it is open, publishes to the topic field (or `gc/data`) only when the transport is `mqtt` and the client is connected, and otherwise sends nothing and emits "Not connected via T." |
| SetupPanel.Panel.DisconnectedCallback | js/gcSetupPanel.js:154-165 | moves the panel exactly as `PanelState.DisconnectedCallback`; the panel stays well formed |
| PanelState.DisconnectedReleasesHandles | js/gcSetupPanel.js:154-165 | the socket, if any, gets `close()` and is dropped; then the client gets `disconnect()` and is dropped exactly when it is connected, and a client still connecting stays held; these are the only calls, and no event or status changes |
| SetupPanel.Panel.OnWsOpen | js/gcSetupPanel.js:184-187 | the opened socket shows Open if it is the one held; the established text is emitted and the status reads online; the panel stays well formed |
| SetupPanel.Panel.OnWsError | js/gcSetupPanel.js:180-183 | the failed socket shows Closed if held; the error is emitted and the status reads offline; the panel stays well formed |
| SetupPanel.Panel.OnWsClose | js/gcSetupPanel.js:188-192 | the closed text is emitted, the status reads offline, and the socket handle is dropped whichever socket closed; the panel stays well formed |
| SetupPanel.Panel.OnMqttSuccess | js/gcSetupPanel.js:226-231 | the client shows connected if held; established and online; then the held client, whichever it is, subscribes to the topic captured when the connecting client was made, and with no client held the handler stops; the panel stays well formed |
| SetupPanel.Panel.OnMqttFailure | js/gcSetupPanel.js:232-235 | the failure text with the vendor's message is emitted and MQTT reads offline; the handle is kept; the panel stays well formed |
| SetupPanel.Panel.OnMqttConnectionLost | js/gcSetupPanel.js:217-220 | the client shows disconnected if held but the handle is kept; MQTT reads offline; the panel stays well formed |
| SetupPanel.Panel.Step | js/gcSetupPanel.js:143-149 | any user action or vendor callback (a failure as `onerror` then `onclose`) moves the panel as `PanelState.Next` and keeps it well formed |
| PanelState.NextWellFormed | js/gcSetupPanel.js:174-280 | every step keeps the panel holding at most its newest socket and its newest client, never a socket it has called `close()` on and never a client it has called `disconnect()` on |
| PanelState.LateCloseDropsNewerSocket | js/gcSetupPanel.js:188-192 | after switching to `mqtt` and back, the first socket's late `onclose` drops the new connecting socket, which was never closed |
| PanelState.BothTransportsLive | js/gcSetupPanel.js:244-248 | switching to `mqtt` and straight back keeps the connecting client; when it and the new socket connect, both transports are live |
| PanelState.LostClientBlocksReconnect | js/gcSetupPanel.js:199-202 | after a lost connection, switching to `mqtt` creates no client and only reports it is initialised; Apply creates a new client without disconnecting the old one |
| BaseComponent.ResolveSingleSegment | js/BaseComponent.js:62-64 | a key without dots is `obj[key]`, `undefined` on a nullish object |
| BaseComponent.ResolveDotted | js/BaseComponent.js:62-64 | `resolveKey(obj, a.b)` is `resolveKey(resolveKey(obj, a), b)` |
| BaseComponent.ResolveMissingPrefix | js/BaseComponent.js:62-64 | when a prefix resolves to `undefined` or `null`, any longer key is `undefined`, without throwing |
| BaseComponent.WalkAppend | js/BaseComponent.js:63 | the `reduce` over a path in two legs is the `reduce` over the whole path |
| BaseComponent.WalkFromNullish | js/BaseComponent.js:63 | from `undefined` or `null`, `?.` makes every non-empty path `undefined` |
| BaseComponent.NextPiece | js/BaseComponent.js:67 | the regex `/\{([^}]+)\}/` at the front of a text consumes exactly the characters of the piece it yields; a placeholder's key is non-empty and has no `}` |
| BaseComponent.ScanHoles | js/BaseComponent.js:67 | every placeholder the scan finds has a non-empty key without `}` |
| BaseComponent.ScanRoundTrip | js/BaseComponent.js:67 | the scanned pieces spell the template back |
| BaseComponent.RenderUnset | js/BaseComponent.js:66-70 | when no placeholder has a non-nullish variable, the text is unchanged |
| BaseComponent.InterpolateWithoutVariables | js/BaseComponent.js:66-70 | with `{}` as variables every template comes back unchanged |
| BaseComponent.InterpolateLiteralPrefix | js/BaseComponent.js:66-70 | a prefix without `{` passes through untouched |
| BaseComponent.InterpolateWithoutBraces | js/BaseComponent.js:66-70 | a template without `{` comes back unchanged |
| BaseComponent.InterpolatePlaceholder | js/BaseComponent.js:67-69 | `{key}` becomes `String(variables[key])` unless that is `undefined` or `null`, when `{key}` stays |
| BaseComponent.InterpolateEmptyBraces | js/BaseComponent.js:67 | `{}` is not a placeholder |
| JsValue.TruthyNotNullish | js/BaseComponent.js:182 | `if (text)` and the `undefined`/`null` test differ exactly on `false`, `0` and `""` |
| BaseComponent.RefreshIsUpdateOnTruthy | js/BaseComponent.js:176-211 | `refreshLanguage` treats an element as `updateLanguage` does when the lookup is truthy and leaves it otherwise |
| BaseComponent.UpdateWithoutVariables | js/BaseComponent.js:186-211 | with no variables `updateLanguage` writes the raw string, leaves the element on `undefined`/`null`, and throws on any other value |
| BaseComponent.Component.constructor | js/BaseComponent.js:102-103 | a new component has `_langData === null` and the element texts it was given |
| BaseComponent.Component.RefreshLanguage | js/BaseComponent.js:176-184 | with falsy language data nothing changes; otherwise the texts are those of the `forEach` up to the first throw, and that throw escapes |
| BaseComponent.Component.SetLanguageData | js/BaseComponent.js:170-174 | stores the data (`undefined` becomes `{}`) and the variables, then refreshes as above |
| BaseComponent.Component.UpdateLanguage | js/BaseComponent.js:186-211 | the texts are those of the `forEach` with `updateLanguage`'s rule up to the first throw, and that throw escapes |
| DomText.ForEachText | js/BaseComponent.js:179-183 | elements before the first throwing callback get their new texts, the rest keep theirs, and the first throw is the result |
| DomText.AppliedKeepAll | js/BaseComponent.js:182 | a walk whose callbacks write nothing changes no text and throws nothing |
| LanguageLoader.NextPiece | js/languageLoader.js:9 | the regex `/\{(\w+)\}/` at the front of a text consumes exactly the piece it yields; a placeholder's key is one or more word characters |
| LanguageLoader.ScanHoles | js/languageLoader.js:9 | every placeholder found is a word |
| LanguageLoader.ScanRoundTrip | js/languageLoader.js:9 | the scanned pieces spell the text back |
| LanguageLoader.RenderUnset | js/languageLoader.js:8-12 | when every placeholder's variable is `undefined` the text is unchanged |
| LanguageLoader.InterpolateWithoutVariables | js/languageLoader.js:8-12 | with `{}` as variables every text comes back unchanged |
| LanguageLoader.InterpolateLiteralPrefix | js/languageLoader.js:8-12 | a prefix without `{` passes through untouched |
| LanguageLoader.InterpolatePlaceholder | js/languageLoader.js:9-10 | `{word}` becomes `String(vars[word])` unless that is `undefined`, when `{word}` stays |
| LanguageLoader.InterpolateNonWordKey | js/languageLoader.js:9 | `{key}`, where the key has no brace and at least one non-word character, is left as it is |
| LanguageLoader.InterpolateEmptyBraces | js/languageLoader.js:9 | `{}` is not a placeholder |
| LanguageLoader.NextPieceAgrees | js/languageLoader.js:9 | where the component's regex finds a word key, the loader's regex finds the same piece |
| LanguageLoader.ScansAgree | js/languageLoader.js:9 | when every placeholder the component's regex finds is a word, both regexes scan the same pieces |
| LanguageLoader.RendersAgree | js/languageLoader.js:10 | without `null` variables, `!== undefined` and `??` substitute alike |
| LanguageLoader.CopiesAgree | js/languageLoader.js:8-12 | the two `interpolate`s agree on word keys when no variable is `null` |
| LanguageLoader.CopiesDifferOnNull | js/languageLoader.js:10 | on a `null` variable the loader writes `null` and the component keeps `{key}` |
| LanguageLoader.ResolveSingleSegment | js/languageLoader.js:15-17 | a key without dots on a non-nullish object is `obj[key]`, `undefined` when absent, without error |
| LanguageLoader.WalksAgree | js/languageLoader.js:16 | where the plain `o[i]` walk does not throw it gives what the `?.` walk gives; where it throws, the `?.` walk yields `undefined` |
| LanguageLoader.ResolveAgreesWithBase | js/languageLoader.js:15-17 | the loader's `resolveKey` agrees with the component's wherever it does not throw, and throws only where that one is `undefined` |
| LanguageLoader.ResolveMissingPrefixThrows | js/languageLoader.js:15-17 | a key below a missing or `null` prefix throws a TypeError |
| LanguageLoader.ThrowsAfterNullish | js/languageLoader.js:16 | once the walk has thrown or reached `undefined`/`null`, any further segment throws |
| LanguageLoader.UpdateTextWritesTruthy | js/languageLoader.js:21-27 | an element is written exactly when the lookup succeeds with a truthy string, and left exactly when it succeeds with a falsy value |
| LanguageLoader.UpdateText | js/languageLoader.js:20-30 | the page's texts are those of the `forEach` up to the first throw; only if nothing threw does the `live` component run `updateLanguage` with the same data and no variables |

## Left out

- Styling, the shadow-DOM template markup, themes, dark mode, `debounce` and `wait`: they are presentation or timing and do not change the modelled state.
- `emit`, console logging and the `class` attribute of the status element: an emitted event is kept as a record in the panel's log, and a warning is not kept at all.
- The internals of `WebSocket` and of the Paho client: they are abstract handles. Opening, failing, closing and losing a connection are inputs the vendor may deliver at any time, for any handle created so far. `useSSL` and `cleanSession` are not modelled.
- The random `clientId` of `_initMQTT`: randomness is left out.
- Paho's own checks are not modelled. The client constructor rejects a negative port, and `subscribe` throws on a client that is not connected. The model makes the call and logs it.
- What `subscribe`, `send` and `publish` do on the network: only the call is logged.
- `JSON.parse` is an input. The caller says whether the text parsed and to what, or which error message it threw.
- PanelState.OnMqttFailure: the `error` object is reduced to its `errorMessage` string.
- `_updateConnectionStatus`'s guard for a missing status element: `onConnected` always creates that element before any call.
- `BaseComponent.disconnectedCallback`, called by the panel's `disconnectedCallback`: it only removes the theme listener.
- Property reads on strings and numbers, and inherited members such as `toString`, read as `undefined`. Only an object's own fields are modelled.
- Numbers are integers. Fractions, `Infinity` and NaN values stored in the language data are not modelled, and neither is number formatting beyond decimal integers.
- A `null` or non-object `variables` argument: variables are a map from names to values.
- `loadLanguage`, `populateLanguageSelect`, `fetch` and the `gc-language-changed` event of `updateText`: they are I/O or only dispatch an event.
- LanguageLoader.UpdateText: `currentVariables` is not declared anywhere in `js/languageLoader.js`. A page that declares it could pass anything, so the model takes it as a parameter. Without such a declaration, the first element whose lookup is truthy throws a ReferenceError. The throw ends the `forEach`, so no later element is visited and `live.updateLanguage` never runs.
- LanguageLoader.UpdateText: the page's elements and the `live` component's shadow root are given as two separate arrays of texts. What `document.getElementById("live")` finds is a parameter.
- Arrays in the language data, the variables and the message payloads: `Value` has no array case. A key such as `list.0` that indexes an array reads `undefined` in the model, and `String([1, 2])` inside `interpolate` (which gives `1,2`) is not modelled.
- The order of vendor callbacks and insertions beyond the facts above: any callback of any socket or client created so far may arrive at any step, even twice or after `close`, and an insertion may come at any step, even without a removal before it. The invariants hold for every such order, so they also hold for the orders the vendors really produce.
