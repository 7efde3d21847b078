# A verified model of the client's network manager and input trackers

This project models three parts of a Minecraft-protocol client.

- **The network manager** of `src/network.rs`. It runs on a worker thread
  that owns one TCP connection to the server.
  - It drains commands sent by the application over a channel:
    `Login`, `Disconnect`, `SendPacket` and `RequestStatus`.
  - It reads length-prefixed frames from the socket. When the server turns
    compression on, frames are zlib-compressed.
  - It answers the server's keep-alives and forwards every other packet to
    the application as a `ReceivePacket` event.
  - It tracks the protocol state (Status, Login, Play) and the compression
    setting, and sets `close` when the connection should end.
- **The mouse tracker** of `wgpu-app/src/io/mouse.rs`. It keeps ten button
  slots, each with a held flag and a changed-this-frame flag. It also keeps
  the cursor position, and the raw motion and wheel scroll summed since the
  last frame. While the window is not focused, it ignores motion and scroll.
- **The keyboard tracker** of `wgpu-app/src/io/keyboard.rs`. It keeps two
  maps over physical keys: one for held keys and one for keys that changed
  this frame.

The model is in these modules:

- `VarInt` (`varint.dfy`): the protocol's variable-length integer and its
  writer and reader.
- `Framing` (`frame.dfy`): packet encoding (the id, then the body) and the
  three frame layouts of `send_packet`. It also covers how `next_packet`
  reads a frame back, and the `SetCompression` rule.
- `Worker` (`worker.dfy`): the worker as a state machine on a value `Conn`.
  `Conn` holds:
  - the compression setting, the protocol state and `close`;
  - the bytes the server has sent that are not yet read;
  - the log of every byte written;
  - the queued commands and the events sent.

  Each function is one routine of `NetworkManager`. Panics and reads that
  never return are written as a `halt` field, so a later routine can see
  that the thread has stopped.
- `WorkerProperties` (`worker_properties.dfy`): what the worker promises, stated about those
  functions. This covers:
  - the keep-alive echo;
  - forwarding in wire order;
  - every way `close` can become true;
  - the outcomes of the login and status exchanges.
- `Network` (`network_manager.dfy`): the class `NetworkManager`, with the source's own fields,
  updated in place by methods with the source's loops. Every method is
  proved to move `View()` exactly as the matching `Worker` function says,
  so everything proved in `WorkerProperties` holds of the object.
- `InputMouse` (`mouse.dfy`) and `InputKeyboard` (`keyboard.dfy`): the two
  trackers as classes. The mouse keeps the source's two ten-slot arrays; the
  keyboard keeps its two maps. `Winit` (`winit.dfy`) holds the event type
  they share.

What the worker cannot see into is passed in as parameters, in the datatype
`Worker.Env`:
- zlib's deflate and inflate;
- the packet library's body serialization and deserialization;
- the socket's local address;
- whether the two ends of the application's channels still exist.

The round-trip lemmas make two assumptions:
- inflate undoes deflate (`Framing.Inverse`);
- the lengths that `send_packet` casts with `as i32` stay below 2^31 (`Framing.Fits`). Above that, the casts wrap and the length prefix no longer matches the frame.

## Model

| member | source | states |
|---|---|---|
| VarInt.ToU32 | src/network.rs:557 | `val as u32` keeps non-negative values and maps negative ones to 2^31 and above |
| VarInt.ToI32 | src/network.rs:550 | `val as i32` is the inverse of `as u32` |
| VarInt.Groups | src/network.rs:558-565 | the groups are never empty and the last has no continuation bit. A value below 128 is a single group |
| VarInt.Encode | src/network.rs:553-568 | an encoding is never empty and ends without the continuation bit. It is the single byte `v` exactly when 0 <= v < 128 |
| VarInt.WrapI32 | src/network.rs:427-444 | the `len as i32` casts of `send_packet` are the identity below 2^31 |
| VarInt.ScanFrom | src/network.rs:538-548 | the read loop consumes between one and five bytes for a value. If a sixth byte was needed, it reports that only when that byte exists |
| VarInt.Decode | src/network.rs:532-551 | a value is 1 to 5 bytes and never longer than the input. Input that ends inside a VarInt is an error. A sixth byte means the 35-bit shift overflows |
| VarInt.Write | src/network.rs:553-568 | the bytes written are exactly the 7-bit groups of `val as u32`, least significant first |
| VarInt.ReadAt | src/network.rs:532-551 | reading byte by byte from any offset returns what `Decode` says of the remaining bytes |
| VarInt.GroupsShape | src/network.rs:558-565 | every byte but the last carries the continuation bit and the last does not |
| VarInt.EncodeShape | src/network.rs:553-568 | every encoding takes 1 to 5 bytes, with 0x80 on all bytes but the last |
| VarInt.EncodeNegative | src/network.rs:557-565 | a negative value always takes five bytes |
| VarInt.EncodeExamples | src/network.rs:553-568 | 0, 127, 128, 300 and -1 encode to their well-known byte strings |
| VarInt.ScanGroups | src/network.rs:539-548 | reading the groups of a value after some bytes resumes the loop and finishes with the value shifted into place |
| VarInt.DecodeEncode | src/network.rs:532-568 | reading an encoding followed by anything returns the value and consumes exactly the encoding |
| Framing.EncodePacket | src/network.rs:570-580 | a packet's bytes are never empty (they start with the id) |
| Framing.SetCompression | src/network.rs:302-311 | compression is on exactly when the threshold is positive. A positive threshold replaces the old one; otherwise the old one is kept |
| Framing.Frame | src/network.rs:418-451 | uncompressed or below the threshold, the packet travels unchanged at the end of the frame. Below the threshold, a 0x00 marker precedes it |
| Framing.Body | src/network.rs:198-253 | a frame body gives a packet, a truncated VarInt, a shift overflow or an inflate failure. The bytes after the frame stay unread |
| Framing.SplitId | src/network.rs:239-253 | an in-memory packet gives an id and a body, a truncated-id error or a shift overflow, and never consumes more of the stream |
| Framing.Parse | src/network.rs:175-254 | every outcome that reads a frame leaves strictly fewer unread bytes |
| Framing.SplitEncoded | src/network.rs:239-253 | splitting the bytes of `encode` gives back its id and body |
| Framing.ParsePrefixed | src/network.rs:190-193 | a frame whose length prefix is its body's length hands exactly that body on and leaves what follows |
| Framing.PlainRoundTrip | src/network.rs:443-446 | without compression the frame is `varint(len) ++ packet`, and reading it gives back the packet |
| Framing.SmallRoundTrip | src/network.rs:438-442 | below the threshold the frame is `varint(len + 1) ++ [0] ++ packet`, and reading it gives back the packet whatever inflate does |
| Framing.CompressedRoundTrip | src/network.rs:425-437 | at or above the threshold the frame is `varint(len D + len Z) ++ D ++ Z`, and reading it inflates Z back to the packet |
| Framing.SetCompressionIdempotent | src/network.rs:302-311 | repeated non-positive thresholds act like one and just disable compression |
| Framing.SetCompressionOverrides | src/network.rs:495-504 | a non-positive threshold after a positive one makes every later frame uncompressed |
| Framing.RoundTrip | src/network.rs:418-451 | in all three modes, reading back a frame gives the packet sent, whatever follows it |
| Worker.Start | src/network.rs:94-102 | a new manager starts in Status, uncompressed, not closed and running |
| Worker.Next | src/network.rs:175-254 | `next_packet` changes only the unread bytes and the halt flag. It reports WouldBlock exactly when nothing is waiting, and then changes nothing. It halts exactly when the thread stops. Every packet or io error consumes bytes |
| Worker.SendBytes | src/network.rs:418-451 | `send_packet` only appends to the socket log, and it always writes something |
| Worker.Send | src/network.rs:570-580 | sending an outbound packet only appends to the socket log |
| Worker.SendMessage | src/network.rs:511-523 | sending an event never touches the socket input, the queue, the state or the compression |
| Worker.HandlePacket | src/network.rs:487-509 | handling a packet never reads the socket, the queue or the protocol state |
| Worker.OnLoginPacket | src/network.rs:297-334 | a login packet that does not end the loop leaves the halt flag alone |
| Worker.AwaitLogin | src/network.rs:292-349 | the login loop never takes a queued command |
| Worker.LoginRequest | src/network.rs:285-289 | the handshake and login start only append to the socket log and set the state to Login |
| Worker.DoLogin | src/network.rs:261-350 | `login` never takes a queued command |
| Worker.AwaitStatus | src/network.rs:384-407 | the status loop sends no event and leaves `close` alone. A status is returned only while the thread still runs |
| Worker.StatusRequests | src/network.rs:375-382 | the three status requests only append to the socket log; the protocol state is not changed |
| Worker.QueryStatus | src/network.rs:352-408 | `status` sends no event and leaves `close` alone. A status is returned only while the thread still runs |
| Worker.HandleMessage | src/network.rs:454-484 | handling a command never takes another queued command |
| Worker.DrainCommands | src/network.rs:135-147 | the drain loop only ever shortens the queue. Unless a command stops the thread, every queued command is handled. A disconnected channel then sets `close` |
| Worker.PumpPackets | src/network.rs:149-166 | the packet loop never touches the queue or the protocol state, and does nothing once closed. While the thread runs, it returns only when closed or when no byte is left |
| Worker.Update | src/network.rs:133-167 | while the thread runs, `update` leaves the queue empty and returns only when closed or when no byte is left. A disconnected channel closes |
| WorkerProperties.NextOnFrame | src/network.rs:175-254 | on a well-formed frame, `next_packet` deserializes exactly that packet and leaves what follows |
| WorkerProperties.PumpStep | src/network.rs:150-157 | one round of the packet loop on a frame handles or drops its packet and continues |
| WorkerProperties.KeepAliveEcho | src/network.rs:489-494 | a server keep-alive writes one client keep-alive with the same id and emits no event |
| WorkerProperties.KeepAliveEchoReadsBack | src/network.rs:489-494 | the server, reading the new bytes, finds exactly that client keep-alive |
| WorkerProperties.SetCompressionMidSession | src/network.rs:495-504 | a mid-session SetCompression changes only the compression setting |
| WorkerProperties.ForwardsOthers | src/network.rs:505-507 | with the application listening, every other packet is forwarded unchanged as one event |
| WorkerProperties.PumpOne | src/network.rs:150-157 | one frame in the packet loop. A keep-alive writes its echo, another packet adds its event, and an undecodable one is dropped; then the loop goes on |
| WorkerProperties.PumpForwardsInOrder | src/network.rs:149-166 | the whole new state after the packet loop, for any run of frames without a compression change (keep-alives included). Echoes and events come in wire order, undecodable packets are dropped, and no byte is left |
| WorkerProperties.KeepAliveScenario | src/network.rs:149-166 | a keep-alive arriving during play is answered exactly once and produces no event |
| WorkerProperties.DisconnectCloses | src/network.rs:460-469 | `Disconnect` writes one disconnect frame and sets `close` |
| WorkerProperties.SendPacketKeepsClose | src/network.rs:470-472 | `SendPacket` writes one frame of its bytes and changes nothing else |
| WorkerProperties.RequestStatusCloses | src/network.rs:473-481 | `RequestStatus` sets `close` whether or not a status came back |
| WorkerProperties.DisconnectedChannelCloses | src/network.rs:138-144 | with the command channel disconnected, `update` is the drain loop alone, and no packet is read. The queued commands are handled and then `close` is set, unless the thread stopped. With an empty queue it only sets `close` |
| WorkerProperties.FailedSendCloses | src/network.rs:511-523 | a failed event send sets `close` and writes the disconnect packet |
| WorkerProperties.OnLoginPacketMonotone | src/network.rs:297-334 | one login packet never clears `close` and only appends to the socket log and the events |
| WorkerProperties.AwaitLoginMonotone | src/network.rs:292-349 | the login loop never clears `close` and only appends to the socket log and the events |
| WorkerProperties.HandleMessageKeepsClose | src/network.rs:454-484 | no command clears `close` |
| WorkerProperties.PumpKeepsClose | src/network.rs:149-166 | the packet loop never clears `close` |
| WorkerProperties.DrainKeepsClose | src/network.rs:135-147 | the command loop never clears `close` |
| WorkerProperties.UpdateKeepsClose | src/network.rs:133-167 | `update` never clears `close` |
| WorkerProperties.PumpNeverCloses | src/network.rs:149-166 | with the application listening, the packet loop never sets `close` |
| WorkerProperties.UpdateCloseCauses | src/network.rs:133-167 | `close` is set only by Disconnect, RequestStatus, Login, a disconnected channel or a failed send |
| WorkerProperties.AwaitLoginStep | src/network.rs:302-327 | SetCompression continues the login loop with the new setting. LoginSuccess ends it in Play, forwarding the packet. LoginDisconnect ends it closed, forwarding the packet |
| WorkerProperties.OnLoginPacketOutcome | src/network.rs:297-334 | one login packet either ends it as described below or changes only the compression setting |
| WorkerProperties.AwaitLoginOutcome | src/network.rs:292-349 | login succeeds exactly when the state ends in Play. Without success, it either stopped the thread or was refused, closing in Login. Success forwards one LoginSuccess and refusal one LoginDisconnect, and nothing is written |
| WorkerProperties.LoginSendsHandshakeFirst | src/network.rs:285-289 | `login` writes the handshake (next state Login) and then the login start, before anything else |
| WorkerProperties.LoginWithCompression | src/network.rs:261-350 | SetCompression(256) then a compressed LoginSuccess ends in Play with compression at 256, not closed, with one success event |
| WorkerProperties.LoginRefused | src/network.rs:312-316 | LoginDisconnect forwards the reason, sets `close`, fails the login and stays in Login |
| WorkerProperties.AwaitStatusSkips | src/network.rs:384-395 | other packets are skipped; the first StatusResponse ends the wait with its payload |
| WorkerProperties.AwaitStatusSkipOne | src/network.rs:390-395 | a packet other than the status response is skipped |
| WorkerProperties.StatusScenario | src/network.rs:473-481 | RequestStatus against an answering server writes three requests, emits one ReceiveStatus and sets `close` |
| Network.NetworkManager.constructor | src/network.rs:94-102 | the fields of a new manager are the initial state |
| Network.NetworkManager.SendPacket | src/network.rs:418-451 | appends the frame of the current mode to the socket log and changes nothing else |
| Network.NetworkManager.EncodeFrame | src/network.rs:424-446 | the three branches build exactly the frame `Framing.Frame` describes |
| Network.NetworkManager.SendOutbound | src/network.rs:570-580 | sends `encode(o)` |
| Network.NetworkManager.NextPacket | src/network.rs:175-254 | reads one frame and updates the fields as `Worker.Next` says |
| Network.NetworkManager.ReadFrame | src/network.rs:176-196 | peeks, reads the length and the frame, and returns what `Framing.Parse` says |
| Network.NetworkManager.ReadBody | src/network.rs:198-253 | decodes the data length, inflates if needed and splits off the id, as `Framing.Body` says |
| Network.NetworkManager.ReadId | src/network.rs:239-253 | splits the id and body off an in-memory packet, as `Framing.SplitId` says |
| Network.NetworkManager.SendMessage | src/network.rs:511-523 | updates the fields as `Worker.SendMessage` says |
| Network.NetworkManager.HandlePacket | src/network.rs:487-509 | updates the fields as `Worker.HandlePacket` says |
| Network.NetworkManager.Login | src/network.rs:261-350 | returns and updates the fields as `Worker.DoLogin` says |
| Network.NetworkManager.AwaitLogin | src/network.rs:292-349 | the loop returns and updates the fields as `Worker.AwaitLogin` says |
| Network.NetworkManager.OnLoginPacket | src/network.rs:297-334 | one login packet, as `Worker.OnLoginPacket` says |
| Network.NetworkManager.Status | src/network.rs:352-408 | returns and updates the fields as `Worker.QueryStatus` says |
| Network.NetworkManager.AwaitStatus | src/network.rs:384-407 | the loop returns and updates the fields as `Worker.AwaitStatus` says |
| Network.NetworkManager.HandleMessage | src/network.rs:454-484 | updates the fields as `Worker.HandleMessage` says |
| Network.NetworkManager.RequestStatus | src/network.rs:473-481 | the `RequestStatus` arm updates the fields as `Worker.HandleMessage` says |
| Network.NetworkManager.Update | src/network.rs:133-167 | both loops of `update` update the fields as `Worker.Update` says |
| Network.WithDefaultPort | src/network.rs:80-86 | the dialled address always names a port. An address with a port is kept; otherwise `:25565` is appended |
| InputMouse.ButtonIndex | wgpu-app/src/io/mouse.rs:80-93 | Left, Middle and Right are slots 0, 1 and 2, and `Other(n)` is slot n. Back, Forward and `Other(n)` with n > 9 are ignored. Every slot is below 10 |
| InputMouse.CastI32 | wgpu-app/src/io/mouse.rs:71-72 | `position as i32` rounds toward zero. At or beyond the `i32` bounds, it is exactly the bound |
| InputMouse.Mouse.constructor | wgpu-app/src/io/mouse.rs:17-27 | nothing is held or changed, everything is zero and the window is focused |
| InputMouse.Mouse.PressButton | wgpu-app/src/io/mouse.rs:29-32 | only that slot becomes held and changed; it reads as pressed this frame |
| InputMouse.Mouse.ReleaseButton | wgpu-app/src/io/mouse.rs:34-37 | only that slot becomes released and changed; it reads as released this frame |
| InputMouse.Mouse.Translate | wgpu-app/src/io/mouse.rs:39-42 | adds to the motion and nothing else |
| InputMouse.Mouse.Scroll | wgpu-app/src/io/mouse.rs:44-50 | adds to the scroll only while focused |
| InputMouse.Mouse.UpdatePos | wgpu-app/src/io/mouse.rs:53-57 | sets the position and nothing else |
| InputMouse.Mouse.HandleEvent | wgpu-app/src/io/mouse.rs:60-123 | the result per event. A cursor move sets the truncated position. A mapped button updates only its slot, and an unmapped one changes nothing. A line scroll is added while focused; a pixel scroll is ignored. Focus is stored. Raw motion is added while focused |
| InputMouse.Mouse.NextFrame | wgpu-app/src/io/mouse.rs:126-130 | no button reads as changed, held buttons stay held, and motion and scroll are zero |
| InputMouse.Mouse.IsPressed | wgpu-app/src/io/mouse.rs:152-154 | the held flag of a slot. What sets it, clears it and keeps it is stated by PressButton, ReleaseButton and NextFrame; PressedThisFrame and ReleasedThisFrame are stated in terms of it |
| InputMouse.Mouse.PressedThisFrame | wgpu-app/src/io/mouse.rs:156-160 | pressed this frame implies held and changed |
| InputMouse.Mouse.ReleasedThisFrame | wgpu-app/src/io/mouse.rs:162-166 | released this frame implies not held and changed, and excludes pressed this frame |
| InputMouse.PressThenNextFrame | wgpu-app/src/io/mouse.rs:126-166 | a button pressed and carried into the next frame is held but no longer pressed or released this frame |
| InputMouse.ClickWithinFrame | wgpu-app/src/io/mouse.rs:95-99 | a press and a release in one frame report only the release |
| InputKeyboard.Keyboard.constructor | wgpu-app/src/io/keyboard.rs:13-18 | no key is held, pressed or released |
| InputKeyboard.Keyboard.Press | wgpu-app/src/io/keyboard.rs:20-23 | the key becomes held and changed; it reads as pressed this frame |
| InputKeyboard.Keyboard.Release | wgpu-app/src/io/keyboard.rs:25-28 | the key becomes released and changed; it reads as released this frame |
| InputKeyboard.Keyboard.HandleEvent | wgpu-app/src/io/keyboard.rs:31-43 | a key event with state Pressed is a press, any other key event a release, any other event nothing |
| InputKeyboard.Keyboard.PressedThisFrame | wgpu-app/src/io/keyboard.rs:47-55 | true exactly when the key is held and changed this frame |
| InputKeyboard.Keyboard.ReleasedThisFrame | wgpu-app/src/io/keyboard.rs:59-67 | true exactly when the key is not held (or never seen) and changed this frame; never together with pressed |
| InputKeyboard.Keyboard.IsPressed | wgpu-app/src/io/keyboard.rs:71-76 | a key never seen is not held |
| InputKeyboard.Keyboard.NextFrame | wgpu-app/src/io/keyboard.rs:79-81 | no key reads as changed, and held keys stay held |
| InputKeyboard.TapWithinFrame | wgpu-app/src/io/keyboard.rs:31-67 | a press and a release in one frame report only the release |

## Left out

- Threads and channels are left out. The worker thread, `thread::Builder::spawn`, and the `mpsc` channels are modelled as sequences: the queued commands and the sent events. The existence of the two channel ends is the pair of flags in `Env`.
- The loop `while !nm.close { nm.update(); }` of `connect` (src/network.rs:109-111) and the shutdown after it are left out. Each call of `update` is modelled, but not the unbounded repetition.
- The TCP connection itself, `local_addr`, and the blocking-mode toggles are left out. The connection is a byte sequence, and the local address is a parameter. The connect error path that sends `NetworkCommand::Error` is not modelled.
- The end of the stream is not modelled. The `Ok(0)` peek panic of `next_packet` is left out: the server's bytes are all that will ever arrive.
- When the server's bytes run out in the middle of a frame, the blocking read would never return. The model writes this as `halt := Blocked`.
- When `login` or `status` sees WouldBlock, it spins until more bytes come. Since none will, the model stops it as `Blocked`.
- Socket write errors are not modelled. The `expect` calls on `send_packet` are assumed to succeed.
- Every `panic!`, `todo!` or `expect` failure on a read is a `halt := Panicked(reason)` state, not an unwinding thread.
- zlib (miniz_oxide) is left out. It is a pair of function parameters.
- The mcproto body serialization and deserialization are left out. They are function parameters from the raw id and body.
- The data length of a compressed frame is not compared with the inflated length, just as the source does not compare them.
- VarInt.Decode: a sixth VarInt byte is modelled as the overflow panic of the debug build. A release build would instead wrap the shift and keep reading.
- The `count` field and the `Instant` timing in `status` are left out, because neither affects behaviour.
- Logging (`tracing`) is left out.
- The `PlayDisconnect` reason is the text "Player Disconnected", without the chat component structure.
- The mouse's `f64` motion and `f32` scroll are left out. They are modelled as exact reals, without rounding and without the two widths.
- InputMouse.CastI32: `NaN as i32` (which gives 0) is not modelled, because reals have no NaN.
- InputMouse.Mouse.IsPressed and the queries next to it require a slot below 10. An index of 10 or more makes the source panic on its array bounds.
- The getters `get_pos`, `get_delta` and `get_scroll_delta` are left out. They are the fields `pos`, `delta` and `wheel`, read directly.
- `Default` for both trackers is left out; it is `new`.
- Events are limited to the kinds the trackers match on. All other `winit` events are one `Unrelated` case, and the window and device ids are not modelled.
