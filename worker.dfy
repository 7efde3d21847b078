/**
  The network manager of src/network.rs as a state machine on values: the
  protocol-state and compression fields, the `close` flag, the socket (the
  bytes the server has sent and not yet been read, and the log of bytes
  written), and the two channels (commands still queued, events sent).
  The class `Network.NetworkManager` runs the same steps in place and is
  proved to agree with the functions here.
*/
module Worker {
  import opened Wrappers
  import opened VarInt
  import opened Framing

  /** The protocol version advertised by `status` (`PROTOCOL`). */
  const PROTOCOL: I32 := 753

  /** `protocol::State`. */
  datatype Phase = Handshaking | Status | Login | Play

  /** `HandshakeNextState`. */
  datatype NextState = NextStatus | NextLogin

  /** The clientbound packets the worker tells apart; everything else is `Other`. */
  datatype Inbound =
    | ServerKeepAlive(keepAliveId: int)
    | SetCompressionPacket(threshold: I32)
    | LoginSuccess(username: string)
    | LoginDisconnect(reason: string)
    | EncryptionRequest
    | PluginRequest
    | StatusResponse(response: string)
    | Other(raw: RawPacket)

  /** The serverbound packets the worker builds itself. */
  datatype Outbound =
    | Handshake(version: I32, address: string, port: U16, next: NextState)
    | LoginStart(name: string)
    | StatusRequest
    | StatusPing(payload: int)
    | ClientKeepAlive(keepAliveId: int)
    | PlayDisconnect(reason: string)

  /** The disconnect packet sent on `Disconnect` and when the application is gone. */
  const PlayerDisconnected := PlayDisconnect("Player Disconnected")

  /** `NetworkCommand`, the one type carried both ways on the channels. */
  datatype Command =
    | Ok
    | Error
    | Disconnect
    | Login(protocol: I32, port: U16, name: string)
    | SendPacket(bytes: seq<Byte>)
    | ReceivePacket(packet: Inbound)
    | RequestStatus
    | ReceiveStatus(status: string)
    | Spawn

  /**
    What the worker depends on and does not control: zlib, the packet
    library's body (de)serialization, the socket's local address, and
    whether the two ends of the application's channels still exist.
  */
  datatype Env = Env(
    zlib: Zlib,
    serialize: Outbound -> RawPacket,
    deserialize: (Phase, RawPacket) -> Option<Inbound>,
    localAddr: string,
    appListening: bool,   // the event receiver exists, so `send` succeeds
    appAttached: bool)    // the command sender exists, so an empty queue is `Empty`, not `Disconnected`

  /** Why the worker thread panicked. */
  datatype Panic =
    | ReadFailed              // an io error other than WouldBlock
    | DecodeFailed            // a packet that did not deserialize, during login or status
    | LengthOverflow          // a negative frame length cast to `usize`
    | ShiftOverflowed         // a VarInt longer than five bytes
    | DecompressionFailed     // the `todo!()` on an inflate error
    | EncryptionUnsupported
    | PluginUnsupported

  /** Whether the worker thread is still making progress. */
  datatype Halt =
    | Running
    | Blocked                 // waiting for server bytes that never come
    | Panicked(reason: Panic)

  /** The whole state of one connection's worker. */
  datatype Conn = Conn(
    comp: Compression,
    state: Phase,
    close: bool,
    incoming: seq<Byte>,   // bytes the server sent that have not been read
    outgoing: seq<Byte>,   // every byte written to the socket
    commands: seq<Command>,
    events: seq<Command>,
    halt: Halt)

  /** The state `connect` creates. */
  function Start(incoming: seq<Byte>, commands: seq<Command>): (c: Conn)
    ensures !c.comp.enabled && c.state == Status && !c.close && c.halt == Running
  {
    Conn(Compression(false, 0), Status, false, incoming, [], commands, [], Running)
  }

  /** What `next_packet` returned to its caller when the thread goes on. */
  datatype Received =
    | WouldBlock
    | IoError
    | Decoded(packet: Option<Inbound>)
    | Halted

  /** `next_packet`. */
  function Next(env: Env, c: Conn): (r: (Received, Conn))
    ensures r.1 == c.(incoming := r.1.incoming, halt := r.1.halt)
    ensures r.0.WouldBlock? <==> c.incoming == []
    ensures r.0.WouldBlock? ==> r.1 == c
    ensures r.0.Halted? <==> r.1.halt != c.halt
    ensures r.0.Halted? ==> r.1.halt != Running
    ensures (r.0.IoError? || r.0.Decoded?) ==> |r.1.incoming| < |c.incoming|
    requires c.halt == Running
  {
    match Parse(c.comp.enabled, env.zlib.inflate, c.incoming)
    case NoData => (WouldBlock, c)
    case Waiting => (Halted, c.(incoming := [], halt := Blocked))
    case Malformed(rest) => (IoError, c.(incoming := rest))
    case ShiftOverflow(rest) => (Halted, c.(incoming := rest, halt := Panicked(ShiftOverflowed)))
    case NegativeLength(rest) => (Halted, c.(incoming := rest, halt := Panicked(LengthOverflow)))
    case InflateFailed(rest) => (Halted, c.(incoming := rest, halt := Panicked(DecompressionFailed)))
    case Packet(raw, rest) => (Decoded(env.deserialize(c.state, raw)), c.(incoming := rest))
  }

  /** `send_packet`: frames `p` with the current compression setting. */
  function SendBytes(env: Env, c: Conn, p: seq<Byte>): (r: Conn)
    ensures c.outgoing < r.outgoing
    ensures r == c.(outgoing := r.outgoing)
  {
    c.(outgoing := c.outgoing + Frame(c.comp, env.zlib.deflate, p))
  }

  /** `send_packet(&encode(o))`. */
  function Send(env: Env, c: Conn, o: Outbound): (r: Conn)
    ensures c.outgoing < r.outgoing
    ensures r == c.(outgoing := r.outgoing)
  {
    SendBytes(env, c, EncodePacket(env.serialize(o)))
  }

  /** `send_message`: an event for the application, or, if it is gone, close and say so to the server. */
  function SendMessage(env: Env, c: Conn, m: Command): (r: Conn)
    ensures r.incoming == c.incoming && r.commands == c.commands && r.halt == c.halt
    ensures r.comp == c.comp && r.state == c.state
  {
    if env.appListening then c.(events := c.events + [m])
    else Send(env, c.(close := true), PlayerDisconnected)
  }

  /** `handle_packet`. */
  function HandlePacket(env: Env, c: Conn, p: Inbound): (r: Conn)
    ensures r.incoming == c.incoming && r.commands == c.commands && r.halt == c.halt && r.state == c.state
  {
    match p
    case ServerKeepAlive(k) => Send(env, c, ClientKeepAlive(k))
    case SetCompressionPacket(n) => c.(comp := SetCompression(c.comp, n))
    case _ => SendMessage(env, c, ReceivePacket(p))
  }

  /**
    What the loop of `login` does with a packet it read: `Some(ok)` when
    `login` returns (true for `Some(())`), `None` when the loop goes on.
  */
  function OnLoginPacket(env: Env, c: Conn, p: Inbound): (r: (Option<bool>, Conn))
    ensures r.1.commands == c.commands && r.1.incoming == c.incoming
    ensures r.0.None? ==> r.1.halt == c.halt
  {
    match p
    case EncryptionRequest => (Some(false), c.(halt := Panicked(EncryptionUnsupported)))
    case PluginRequest => (Some(false), c.(halt := Panicked(PluginUnsupported)))
    case SetCompressionPacket(n) => (None, c.(comp := SetCompression(c.comp, n)))
    case LoginDisconnect(_) => (Some(false), SendMessage(env, c, ReceivePacket(p)).(close := true))
    case LoginSuccess(_) => (Some(true), SendMessage(env, c.(state := Play), ReceivePacket(p)))
    case _ => (None, c)   // logged as unexpected
  }

  /** The loop of `login` after the handshake; true for `Some(())`. */
  function AwaitLogin(env: Env, c: Conn): (r: (bool, Conn))
    requires c.halt == Running
    ensures r.1.commands == c.commands
    decreases |c.incoming|
  {
    var (got, c') := Next(env, c);
    match got
    case WouldBlock => (false, c'.(halt := Blocked))   // `continue`: it spins until the server sends more
    case Halted => (false, c')
    case IoError => (false, c'.(halt := Panicked(ReadFailed)))
    case Decoded(None) => (false, c'.(halt := Panicked(DecodeFailed)))
    case Decoded(Some(p)) =>
      var (outcome, c'') := OnLoginPacket(env, c', p);
      if outcome.Some? then (outcome.value, c'') else AwaitLogin(env, c'')
  }

  /** The two packets `login` sends before it waits, in order. */
  function LoginRequest(env: Env, c: Conn, protocol: I32, port: U16, name: string): (r: Conn)
    ensures c.outgoing < r.outgoing
    ensures r == c.(state := Phase.Login, outgoing := r.outgoing)
  {
    var c1 := Send(env, c, Handshake(protocol, env.localAddr, port, NextLogin));
    Send(env, c1.(state := Phase.Login), LoginStart(name))
  }

  /** `login`. */
  function DoLogin(env: Env, c: Conn, protocol: I32, port: U16, name: string): (r: (bool, Conn))
    requires c.halt == Running
    ensures r.1.commands == c.commands
  {
    AwaitLogin(env, LoginRequest(env, c, protocol, port, name))
  }

  /** The loop of `status` after its three requests. */
  function AwaitStatus(env: Env, c: Conn): (r: (Option<string>, Conn))
    requires c.halt == Running
    ensures r.1.commands == c.commands && r.1.close == c.close && r.1.events == c.events
    ensures r.0.Some? ==> r.1.halt == Running
    decreases |c.incoming|
  {
    var (got, c') := Next(env, c);
    match got
    case WouldBlock => (None, c'.(halt := Blocked))
    case Halted => (None, c')
    case IoError => (None, c')   // logged; `status` returns `None`
    case Decoded(None) => (None, c'.(halt := Panicked(DecodeFailed)))
    case Decoded(Some(p)) =>
      if p.StatusResponse? then (Some(p.response), c')
      else AwaitStatus(env, c')
  }

  /** The three packets `status` sends before it waits, in order. */
  function StatusRequests(env: Env, c: Conn): (r: Conn)
    ensures c.outgoing < r.outgoing
    ensures r == c.(outgoing := r.outgoing)
  {
    var c1 := Send(env, c, Handshake(PROTOCOL, env.localAddr, 0, NextStatus));
    Send(env, Send(env, c1, StatusRequest), StatusPing(0))
  }

  /** `status`. */
  function QueryStatus(env: Env, c: Conn): (r: (Option<string>, Conn))
    requires c.halt == Running
    ensures r.1.commands == c.commands && r.1.close == c.close && r.1.events == c.events
    ensures r.0.Some? ==> r.1.halt == Running
  {
    AwaitStatus(env, StatusRequests(env, c))
  }

  /** `handle_message`. */
  function HandleMessage(env: Env, c: Conn, m: Command): (r: Conn)
    requires c.halt == Running
    ensures r.commands == c.commands
  {
    match m
    case Login(protocol, port, name) => DoLogin(env, c, protocol, port, name).1
    case Disconnect => Send(env, c, PlayerDisconnected).(close := true)
    case SendPacket(bytes) => SendBytes(env, c, bytes)
    case RequestStatus =>
      var (status, c') := QueryStatus(env, c);
      if c'.halt != Running then c'
      else if status.Some? then SendMessage(env, c', ReceiveStatus(status.value)).(close := true)
      else c'.(close := true)
    case _ => c
  }

  /** The command-draining loop of `update`. */
  function DrainCommands(env: Env, c: Conn): (r: Conn)
    requires c.halt == Running
    ensures |r.commands| <= |c.commands|
    ensures r.halt == Running ==> r.commands == []
    ensures r.halt == Running && !env.appAttached ==> r.close
    decreases |c.commands|
  {
    if c.commands == [] then
      if env.appAttached then c else c.(close := true)
    else
      var c' := HandleMessage(env, c.(commands := c.commands[1..]), c.commands[0]);
      if c'.halt != Running then c' else DrainCommands(env, c')
  }

  /** The packet loop of `update`. */
  function PumpPackets(env: Env, c: Conn): (r: Conn)
    requires c.halt == Running
    ensures r.commands == c.commands && r.state == c.state
    ensures c.close ==> r == c
    ensures r.halt == Running ==> r.close || r.incoming == []
    decreases |c.incoming|
  {
    if c.close then c
    else
      var (got, c') := Next(env, c);
      match got
      case Decoded(Some(p)) => PumpPackets(env, HandlePacket(env, c', p))
      case Decoded(None) => PumpPackets(env, c')   // logged and dropped
      case WouldBlock => c'
      case IoError => c'.(halt := Panicked(ReadFailed))
      case Halted => c'
  }

  /** `update`: every queued command, then every packet already sent. */
  function Update(env: Env, c: Conn): (r: Conn)
    requires c.halt == Running
    ensures r.halt == Running ==> r.commands == [] && (r.close || r.incoming == [])
    ensures r.halt == Running && !env.appAttached ==> r.close
  {
    var c' := DrainCommands(env, c);
    if c'.halt != Running then c' else PumpPackets(env, c')
  }
}
