# Remote control client: session and discovery core

A Dafny model of the core of `remote_control_client_v1.2.py`. A handheld device uses this client as a remote mouse and keyboard for a host on the local network. The model covers two small stateful components:

- **`RemoteControlClient`** (`session.dfy`, module `Session`). It owns one TCP session. `connect(host, port)` is a retry loop of at most `max_reconnect_attempts` (3) passes that returns on the first success. `disconnect` closes the socket and marks the client disconnected. `reconnect` calls `connect` with the last address recorded by a successful `connect`. `send_command` writes one frame, `json.dumps(command) + '\n'`, only while connected, and any write error drops the session. Five wrappers build the command dictionaries and call `send_command`.
- **`ServerDiscovery`** (`discovery.dfy`, module `Discovery`). It keeps the `servers` dict keyed by service name. `add_service` and `update_service` upsert a record built from the resolved service info, with the defaults `'Unknown'`, `'Unknown'` and `'1.0'`. `remove_service` deletes an entry. Every effective change calls the callback with the whole dict.

Two support modules:

- `dicts.dfy` (module `Dicts`) holds Python's rule for dict displays and comprehensions. Entries are stored left to right, so a later duplicate key overwrites an earlier one. `FromEntries` folds single-key updates, and `FromEntriesLast` proves that each key ends up bound to the value of its last entry.
- `protocol.dfy` (module `Protocol`) holds the five payload builders, each a `map<string, Value>` built by `FromEntries` from its dict display in source order. It also holds an independent reading of the wire protocol, `Parse`: the `action` field names the event kind, and each kind's own fields must be present. Finally it holds the intended frame of each event, `IntendedCommand`.

How effects are modelled:

- The network's answers are oracle inputs. Each pass of the retry loop gets one `Attempt`: `Accepted`, `Refused` (the socket was created and `socket.connect` raised), or `SocketError`, where `SocketError` means `socket.socket` itself raised and `self.socket` keeps its old value. Each write gets one boolean saying whether it succeeded. Each advertisement gets the answer of `get_service_info`: nothing, or (addresses, port, raw property items).
- Socket objects are handles numbered in creation order.
- The client keeps an effect log of what it does to the world: `Open`, `Dial`, `Close`, `Sleep` (the one-second `time.sleep`), and `Write` of a frame. `json.dumps` is an abstract function `encode` given to the constructor, and UTF-8 decoding is an abstract partial `decode` given to the discovery constructor.
- The callback is modelled as the list of dict values it was called with.

How the classes are specified:

- Each class method is proved to leave exactly the state computed by a specification function: `AfterConnect`, `AfterDisconnect`, `AfterReconnect`, `AfterSend`, `AfterAdd` or `AfterRemove`.
- For the loop in `connect` the prover also needs a loop invariant, which ties the state at each pass to `ConnectFrom`.
- Lemmas state what these functions promise.

Where the code does something a reader might not expect, the model follows the code:

- The v1.2 changelog and the comment at line 160 say the click bug is fixed. It is not: `mouse_click` and `keyboard_key` each write the key `'action'` twice, so the second value wins (see Findings). The client methods `MouseClick` and `KeyboardKey` send the frames the code actually builds.
- `connect` assigns a new socket without calling `close()` on the one already there (`ConnectNeverClosesPreviousSocket`). If creating a socket fails, the `except` branch closes whatever `self.socket` still holds. That may be the previous, live socket.
- A failed `connect` leaves `connected` false. There is no separate failed state.
- `server_address` is recorded only on success.
- `reconnect_attempts` is only ever set to 0 (`Invariant`).
- A sleep follows every failed pass, including the last (`ConnectAttempts`).

## Model

| member | source | states |
|---|---|---|
| Dicts.FromEntries | remote_control_client_v1.2.py:161-165 | the keys of a dict display are exactly the keys of its entries |
| Dicts.FromEntriesLast | remote_control_client_v1.2.py:161-165 | a key that occurs more than once is bound to the value of its last occurrence |
| Dicts.GetOrFromEntries | remote_control_client_v1.2.py:51-60 | `d.get(k, default)` on a dict built from items gives the value of the last item with that key, or the default when no item has it |
| Protocol.MouseMoveCommand | remote_control_client_v1.2.py:152-157 | the payload is exactly {action: 'mouse_move', dx, dy} |
| Protocol.MouseClickCommand | remote_control_client_v1.2.py:159-165 | the payload is exactly {action: the click type, button}; its action is 'mouse_click' only if the click type is that string |
| Protocol.MouseScrollCommand | remote_control_client_v1.2.py:167-172 | the payload is exactly {action: 'mouse_scroll', dx, dy} |
| Protocol.KeyboardTypeCommand | remote_control_client_v1.2.py:174-178 | the payload is exactly {action: 'keyboard', text} |
| Protocol.KeyboardKeyCommand | remote_control_client_v1.2.py:180-185 | the payload is exactly {action: the key phase, key}; its action is 'keyboard' only if the phase is that string |
| Protocol.BuildersAsIntended | remote_control_client_v1.2.py:152-178 | the move, scroll and typing payloads parse back to their events under the independent `Parse`; that they are the intended frames holds by the definition of `IntendedCommand` |
| Protocol.ClickCommandUnreadable | remote_control_client_v1.2.py:159-165 | the click payload as written parses as no event at all, and differs from the intended click frame |
| Protocol.KeyCommandUnreadable | remote_control_client_v1.2.py:180-185 | the key payload as written parses as no event at all, and differs from the intended key frame |
| Protocol.DefaultArgumentFrames | remote_control_client_v1.2.py:159-185 | with the default arguments, the click frame's action is 'click' and the key frame's is 'press'; neither parses |
| Protocol.CorrectedMouseClickCommand | remote_control_client_v1.2.py:159-165 | the intended click payload is {action: 'mouse_click', button, phase} |
| Protocol.CorrectedKeyboardKeyCommand | remote_control_client_v1.2.py:180-185 | the intended key payload is {action: 'keyboard', key, phase} |
| Protocol.IntendedRoundTrip | remote_control_client_v1.2.py:152-185 | every intended frame parses back to the event it was built from |
| Protocol.IntendedInjective | remote_control_client_v1.2.py:152-185 | distinct events have distinct intended frames |
| Session.Initial | remote_control_client_v1.2.py:90-95 | the initial client has no socket and no address, is disconnected, and satisfies the invariant |
| Session.OpenAndDial | remote_control_client_v1.2.py:101-103 | creating and dialling a socket keeps the invariant, strictly extends the effect log and creates a new socket handle |
| Session.FailAttempt | remote_control_client_v1.2.py:108-115 | the `except` branch keeps the invariant, only appends to the effect log and ends with the one-second sleep |
| Session.FailedPass | remote_control_client_v1.2.py:101-115 | a pass that raises changes neither `connected`, `server_address` nor `reconnect_attempts`, only adds to the effect log, never reuses a socket handle and keeps the invariant |
| Session.AcceptedPass | remote_control_client_v1.2.py:101-107 | the accepted pass establishes the invariant whatever state it starts from (a connected client has a socket it created and an address; counter 0), strictly extends the effect log and creates a new socket; being connected to the given address is stated by `ConnectSucceeds` |
| Session.ConnectFrom | remote_control_client_v1.2.py:99-118 | the retry loop from a given pass on: an accepted pass returns true at once, a failed one moves to the next pass, and after the last pass the client is marked disconnected and false is returned; its properties are the `Connect*` lemmas |
| Session.AfterConnect | remote_control_client_v1.2.py:97-118 | `connect(host, port)` is the retry loop from pass 0 with address `(host, port)`; its properties are the `Connect*` lemmas |
| Session.ConnectSucceeds | remote_control_client_v1.2.py:99-107 | on success `connect` leaves the client connected through the socket it created last, with `server_address == (host, port)` and `reconnect_attempts == 0`, and its last effect is the dial of that socket |
| Session.ConnectFails | remote_control_client_v1.2.py:99-118 | on failure `connect` leaves the client disconnected, with the address and counter it had before |
| Session.ConnectKeepsInvariant | remote_control_client_v1.2.py:99-118 | `connect` keeps the invariant: a connected client has a socket and an address, `reconnect_attempts` is 0 and the socket is one the client created |
| Session.ConnectSucceedsIff | remote_control_client_v1.2.py:99-118 | `connect` returns true exactly when one of its 3 passes is accepted |
| Session.ConnectAttempts | remote_control_client_v1.2.py:99-118 | result is true iff the first accepted pass is within the 3; sleeps = number of failed passes before it (3 when none succeeds) |
| Session.ConnectDials | remote_control_client_v1.2.py:99-118 | `connect` dials exactly once in each pass whose socket is created, up to and including the first accepted pass and in none after it (in all 3 passes when none is accepted); at most 3 dials in all |
| Session.ConnectExtendsLog | remote_control_client_v1.2.py:99-118 | `connect` only appends to the effect log and never reuses a socket handle |
| Session.ConnectNeverClosesPreviousSocket | remote_control_client_v1.2.py:101-114 | unless the first socket creation fails, the code never calls `close()` on the socket held before `connect` (no `Close` of it in the log), and it is no longer the client's socket |
| Session.AfterDisconnect | remote_control_client_v1.2.py:120-126 | `disconnect` leaves the client disconnected with the same address and socket, and keeps the invariant |
| Session.DisconnectIdempotent | remote_control_client_v1.2.py:120-126 | a second `disconnect` changes no field and closes no socket that the first left open |
| Session.AfterReconnect | remote_control_client_v1.2.py:128-133 | `reconnect` calls `connect` with the recorded address, and with none returns false and changes nothing; its properties are in `ReconnectOutcome` |
| Session.ReconnectOutcome | remote_control_client_v1.2.py:128-133 | with no address: false and nothing changes; with one: true iff some pass is accepted; from a valid state the client is connected exactly when the result is true; the address is kept and the invariant preserved |
| Session.AfterSend | remote_control_client_v1.2.py:135-150 | `send_command`: false when disconnected, otherwise one write of `encode(command) + "\n"` whose failure drops the session; its properties are in `SendOutcome` |
| Session.SendOutcome | remote_control_client_v1.2.py:135-150 | disconnected: false and nothing changes; connected: writes `encode(command) + "\n"` once to its socket, result and `connected` both equal the write's success; address and socket untouched |
| Session.SendAfterDisconnectFails | remote_control_client_v1.2.py:120-137 | after `disconnect`, `send_command` fails and writes nothing |
| Session.RecoverAfterWriteError | remote_control_client_v1.2.py:128-150 | a failed write disconnects but keeps the address, so a `reconnect` that gets an accepted pass is connected to the same server |
| Session.RemoteControlClient.constructor | remote_control_client_v1.2.py:90-95 | the fields start as `__init__` sets them |
| Session.RemoteControlClient.Pass | remote_control_client_v1.2.py:100-115 | one pass of the loop body: on an accepted dial the state of `AcceptedPass` and true, otherwise the state of `FailedPass` and false; the invariant is kept |
| Session.RemoteControlClient.Connect | remote_control_client_v1.2.py:97-118 | the retry loop leaves exactly the state of `AfterConnect` and returns its result |
| Session.RemoteControlClient.Disconnect | remote_control_client_v1.2.py:120-126 | leaves exactly the state of `AfterDisconnect` |
| Session.RemoteControlClient.Reconnect | remote_control_client_v1.2.py:128-133 | leaves exactly the state of `AfterReconnect`, keeping the recorded address |
| Session.RemoteControlClient.SendCommand | remote_control_client_v1.2.py:135-150 | leaves exactly the state of `AfterSend` and returns its result |
| Session.RemoteControlClient.MouseMove | remote_control_client_v1.2.py:152-157 | sends the move payload |
| Session.RemoteControlClient.MouseClick | remote_control_client_v1.2.py:159-165 | sends the click payload as written, with defaults 'left' and 'click' |
| Session.RemoteControlClient.MouseScroll | remote_control_client_v1.2.py:167-172 | sends the scroll payload |
| Session.RemoteControlClient.KeyboardType | remote_control_client_v1.2.py:174-178 | sends the typing payload |
| Session.RemoteControlClient.KeyboardKey | remote_control_client_v1.2.py:180-185 | sends the key payload as written, with default 'press' |
| Discovery.DecodeItems | remote_control_client_v1.2.py:51-52 | decoding succeeds iff every key and value decodes, and then yields the decoded items in order |
| Discovery.DecodeProperties | remote_control_client_v1.2.py:51-52 | the property comprehension: the decoded items stored left to right, or nothing when an item does not decode; its properties are in `DecodeItems` and `GetOrFromEntries` |
| Discovery.Resolve | remote_control_client_v1.2.py:45-61 | the record `add_service` stores, or nothing on each caught failure path; its properties are in `ResolveOutcome` and `ResolveMetadata` |
| Discovery.ResolveOutcome | remote_control_client_v1.2.py:45-61 | a record is stored iff info was resolved, the address list is non-empty and every property decodes; it has the service name, the first address and the port |
| Discovery.ResolveMetadata | remote_control_client_v1.2.py:51-60 | hostname, system and version each come from the last property with that decoded key, with defaults 'Unknown', 'Unknown', '1.0' |
| Discovery.AfterAdd | remote_control_client_v1.2.py:45-67 | `add_service` and `update_service`: store the resolved record under its name and call back with the dict, or change nothing; its properties are in `AddUpserts` |
| Discovery.AddUpserts | remote_control_client_v1.2.py:45-64 | a resolved advertisement inserts or replaces the one entry for its name, leaves the others alone, and calls back once with the new dict; otherwise nothing changes and no callback fires |
| Discovery.AfterRemove | remote_control_client_v1.2.py:40-43 | `remove_service`: delete a present name and call back with the dict, or change nothing; its properties are in `RemoveDeletes` |
| Discovery.RemoveDeletes | remote_control_client_v1.2.py:40-43 | removing a present name deletes just that key and calls back once; an absent name changes nothing |
| Discovery.OperationsKeepWellKeyed | remote_control_client_v1.2.py:40-61 | every entry stays stored under its own name |
| Discovery.UpdateReplaces | remote_control_client_v1.2.py:45-67 | two advertisements for one name leave one entry, the second one with its address, and the last callback shows it |
| Discovery.RemoveAfterAdd | remote_control_client_v1.2.py:40-62 | add then remove leaves the other entries unchanged and a last callback dict without the name |
| Discovery.ServerDiscovery.constructor | remote_control_client_v1.2.py:34-38 | the registry starts empty, with no callbacks made |
| Discovery.ServerDiscovery.RemoveService | remote_control_client_v1.2.py:40-43 | leaves exactly the state of `AfterRemove` |
| Discovery.ServerDiscovery.AddService | remote_control_client_v1.2.py:45-64 | takes the same branches as the code and leaves exactly the state of `AfterAdd` |
| Discovery.ServerDiscovery.UpdateService | remote_control_client_v1.2.py:66-67 | behaves exactly as `add_service` |

## Findings

| source | as written | input that shows it | evidently intended | confidence | as-written member | corrected member |
|---|---|---|---|---|---|---|
| remote_control_client_v1.2.py:159-165 | the click dict has two `'action'` keys; the second, the click type, overwrites `'mouse_click'` (despite "FIXED in v1.2") | `mouse_click('left', 'click')` builds `{'action': 'click', 'button': 'left'}` | `action` stays `'mouse_click'` and the click type gets its own field | high (not executed) | Protocol.ClickCommandUnreadable | Protocol.CorrectedMouseClickCommand |
| remote_control_client_v1.2.py:180-185 | the key dict has two `'action'` keys; the second, the key phase, overwrites `'keyboard'` | `keyboard_key('enter', 'press')` builds `{'action': 'press', 'key': 'enter'}` | `action` stays `'keyboard'` and the phase gets its own field | high (not executed) | Protocol.KeyCommandUnreadable | Protocol.CorrectedKeyboardKeyCommand |

`IntendedRoundTrip` proves the corrected builders right: every intended frame parses back to its event. The client methods still send the payloads as written, because that is what the program puts on the wire.

## Left out

- `RemoteControlApp` (the Kivy UI): layout, status labels, connection indicator polling, server list rendering, and the per-handler "send, reconnect, resend once" code. This is presentation glue.
- The touchpad's float deltas and `sensitivity`, and `int()` truncation of floats. The builders take integer arguments.
- `ServerDiscovery.start` and `stop`, `Zeroconf`, `ServiceBrowser`, `get_service_info` and `socket.inet_ntoa`. These are foreign library calls. The lookup is an oracle, and its addresses arrive already converted to strings, so a failing `inet_ntoa` is not modelled. It would take the same caught-exception path as a decode error.
- Property values that zeroconf reports as `None`. Their `decode` raises and takes the decode-error path; the model's items always carry bytes.
- Threading, `Clock` scheduling, the 5-second socket timeout and the duration of `time.sleep`. Only the fact that each sleep happens is recorded.
- Aliasing of the callback argument: the code passes the live `servers` dict, which later changes under the receiver. The model records its value at the time of the call.
- The internals of `json.dumps` and UTF-8 encoding. Both are abstract functions.
- Partial writes. The byte count returned by `socket.send` is ignored by the code and not modelled. A write either succeeds or raises.
- An exception raised by the callback itself, and `print` logging.
- Session.RemoteControlClient.Connect: requires the oracle to supply an answer for each of the 3 passes (`|outcomes| >= 3`). Answers after the first accepted pass are ignored.
- A `settimeout` failure at line 102. `Refused` stands for `socket.connect` raising after the socket was created, so every `Refused` pass logs a dial. `settimeout(5.0)` on a freshly created socket does not raise, so a pass that fails after creating the socket but before dialling is not modelled.
- Closing by garbage collection. When line 101 rebinds `self.socket`, the runtime may finalize the old socket object and close its descriptor. That close is not in the effect log, and the language does not promise it happens promptly. The model records only the explicit `close()` calls.
