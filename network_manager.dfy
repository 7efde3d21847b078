/**
  `NetworkManager` of src/network.rs as an object whose methods update its
  fields in place. Every method is proved to take the object from the
  state `View()` to the state the matching function of module `Worker`
  computes, so the properties proved about those functions hold of it.
*/
module Network {
  import opened Wrappers
  import opened VarInt
  import opened Framing
  import opened Worker

  class NetworkManager {
    /** What the worker cannot see into: zlib, the packet library, the socket address, the channel ends. */
    const env: Env

    var compress: bool
    var threshold: nat
    var state: Phase
    var close: bool
    /** The bytes the server has sent that are still unread on the socket. */
    var incoming: seq<Byte>
    /** Every byte written to the socket. */
    var outgoing: seq<Byte>
    /** The commands queued on the receiving end of the command channel. */
    var commands: seq<Command>
    /** The events sent to the application. */
    var events: seq<Command>
    /** Whether the thread is still making progress (a panic or a read that never returns stops it). */
    var halt: Halt

    /** The fields as one value of the state machine in `Worker`. */
    ghost function View(): Conn
      reads this
    {
      Conn(Compression(compress, threshold), state, close, incoming, outgoing, commands, events, halt)
    }

    /** The manager `connect` builds once the TCP connection is up. */
    constructor (env: Env, incoming: seq<Byte>, commands: seq<Command>)
      ensures this.env == env
      ensures View() == Worker.Start(incoming, commands)
    {
      this.env := env;
      compress := false;
      threshold := 0;
      state := Phase.Status;
      close := false;
      this.incoming := incoming;
      outgoing := [];
      this.commands := commands;
      events := [];
      halt := Running;
    }

    /** `send_packet`: one length-prefixed frame in the mode the compression setting selects. */
    method SendPacket(packet: seq<Byte>)
      modifies this
      ensures View() == Worker.SendBytes(env, old(View()), packet)
    {
      var frame := EncodeFrame(packet);
      outgoing := outgoing + frame;   // the `write_all` calls, in order
    }

    /** The bytes `send_packet` writes for `packet`, built as its three branches build them. */
    method EncodeFrame(packet: seq<Byte>) returns (frame: seq<Byte>)
      ensures frame == Frame(Compression(compress, threshold), env.zlib.deflate, packet)
    {
      var c := Compression(compress, threshold);
      if compress {
        if |packet| >= threshold {
          var dataLength := Write(WrapI32(|packet|));
          var compressed := env.zlib.deflate(packet);
          var packetLength := Write(WrapI32(|dataLength| + |compressed|));
          frame := packetLength + dataLength + compressed;
          assert frame == Frame(c, env.zlib.deflate, packet);
        } else {
          var packetLength := Write(WrapI32(|packet| + 1));
          frame := packetLength + [0] + packet;
          assert frame == Frame(c, env.zlib.deflate, packet);
        }
      } else {
        var packetLength := Write(WrapI32(|packet|));
        frame := packetLength + packet;
        assert frame == Frame(c, env.zlib.deflate, packet);
      }
    }

    /** `send_packet(&encode(o))`. */
    method SendOutbound(o: Outbound)
      modifies this
      ensures View() == Worker.Send(env, old(View()), o)
    {
      SendPacket(EncodePacket(env.serialize(o)));
    }

    /** `next_packet`: reads one frame from the socket and deserializes it. */
    method NextPacket() returns (got: Received)
      requires halt == Running
      modifies this
      ensures (got, View()) == Worker.Next(env, old(View()))
    {
      var frame := ReadFrame(incoming);
      match frame
      case NoData =>
        return WouldBlock;   // the peek reports WouldBlock
      case Waiting =>
        incoming := [];      // the blocking read never returns
        halt := Blocked;
        return Halted;
      case NegativeLength(rest) =>
        incoming := rest;
        halt := Panicked(LengthOverflow);
        return Halted;
      case Packet(raw, rest) =>
        incoming := rest;
        return Decoded(env.deserialize(state, raw));
      case Malformed(rest) =>
        incoming := rest;
        return IoError;
      case ShiftOverflow(rest) =>
        incoming := rest;
        halt := Panicked(ShiftOverflowed);
        return Halted;
      case InflateFailed(rest) =>
        incoming := rest;
        halt := Panicked(DecompressionFailed);   // the `todo!()`
        return Halted;
    }

    /** The reads of `next_packet` on the unread bytes `s`: the length, the frame, then its body. */
    method ReadFrame(s: seq<Byte>) returns (r: FrameRead)
      ensures r == Parse(compress, env.zlib.inflate, s)
    {
      if s == [] {
        return NoData;
      }
      var len := ReadAt(s, 0);
      assert s[0..] == s;
      match len
      case Short =>
        return Waiting;
      case Overlong =>
        return ShiftOverflow(s[6..]);   // the sixth byte has been read
      case Value(n, k) =>
        if n < 0 {
          return NegativeLength(s[k..]);
        }
        if |s| - k < n {
          return Waiting;
        }
        r := ReadBody(s[k..k + n], s[k + n..]);
    }

    /** The part of `next_packet` after the frame `buf` is read; `rest` is what stays on the socket. */
    method ReadBody(buf: seq<Byte>, rest: seq<Byte>) returns (r: FrameRead)
      ensures r == Body(compress, env.zlib.inflate, buf, rest)
      ensures r.Packet? || r.Malformed? || r.ShiftOverflow? || r.InflateFailed?
    {
      if !compress {
        r := ReadId(buf, 0, rest);
        assert buf[0..] == buf;
        return;
      }
      var dataLen := ReadAt(buf, 0);
      assert buf[0..] == buf;
      match dataLen
      case Short =>
        return Malformed(rest);
      case Overlong =>
        return ShiftOverflow(rest);
      case Value(d, m) =>
        if d == 0 {
          r := ReadId(buf, m, rest);
        } else {
          match env.zlib.inflate(buf[m..])
          case None =>
            return InflateFailed(rest);
          case Some(uncompressed) =>
            r := ReadId(uncompressed, 0, rest);
            assert uncompressed[0..] == uncompressed;
        }
    }

    /** The id of an in-memory packet `data[start..]`, and its remaining bytes as the body. */
    method ReadId(data: seq<Byte>, start: nat, rest: seq<Byte>) returns (r: FrameRead)
      requires start <= |data|
      ensures r == SplitId(data[start..], rest)
    {
      var id := ReadAt(data, start);
      match id
      case Short =>
        return Malformed(rest);
      case Overlong =>
        return ShiftOverflow(rest);
      case Value(i, j) =>
        assert data[start..][j..] == data[start + j..];
        return Packet(RawPacket(i, data[start + j..]), rest);
    }

    /** `send_message`. */
    method SendMessage(m: Command)
      modifies this
      ensures View() == Worker.SendMessage(env, old(View()), m)
    {
      if env.appListening {
        events := events + [m];
      } else {
        close := true;
        SendOutbound(PlayerDisconnected);
      }
    }

    /** `handle_packet`. */
    method HandlePacket(p: Inbound)
      modifies this
      ensures View() == Worker.HandlePacket(env, old(View()), p)
    {
      match p
      case ServerKeepAlive(k) =>
        SendOutbound(ClientKeepAlive(k));
      case SetCompressionPacket(n) =>
        if n <= 0 {
          compress := false;
        } else {
          compress := true;
          threshold := n;
        }
      case _ =>
        SendMessage(ReceivePacket(p));
    }

    /** `login`: true for `Some(())`. */
    method Login(protocol: I32, port: U16, name: string) returns (ok: bool)
      requires halt == Running
      modifies this
      ensures (ok, View()) == Worker.DoLogin(env, old(View()), protocol, port, name)
    {
      SendOutbound(Handshake(protocol, env.localAddr, port, NextLogin));
      state := Phase.Login;
      SendOutbound(LoginStart(name));
      ok := AwaitLogin();
    }

    /** The loop of `login`, once the handshake and the login start are written. */
    method AwaitLogin() returns (ok: bool)
      requires halt == Running
      modifies this
      ensures (ok, View()) == Worker.AwaitLogin(env, old(View()))
    {
      ghost var target := Worker.AwaitLogin(env, View());
      while true
        invariant halt == Running
        invariant Worker.AwaitLogin(env, View()) == target
        decreases |incoming|
      {
        var got := NextPacket();
        match got
        case WouldBlock =>
          halt := Blocked;   // `continue`: the loop spins until the server sends more
          return false;
        case Halted =>
          return false;
        case IoError =>
          halt := Panicked(ReadFailed);
          return false;
        case Decoded(None) =>
          halt := Panicked(DecodeFailed);
          return false;
        case Decoded(Some(p)) =>
          var outcome := OnLoginPacket(p);
          if outcome.Some? {
            return outcome.value;
          }
      }
    }

    /** The body of the loop of `login` for a packet that deserialized. */
    method OnLoginPacket(p: Inbound) returns (outcome: Option<bool>)
      modifies this
      ensures (outcome, View()) == Worker.OnLoginPacket(env, old(View()), p)
    {
      match p
      case EncryptionRequest =>
        halt := Panicked(EncryptionUnsupported);
        return Some(false);
      case PluginRequest =>
        halt := Panicked(PluginUnsupported);
        return Some(false);
      case SetCompressionPacket(n) =>
        if n <= 0 {
          compress := false;
        } else {
          compress := true;
          threshold := n;
        }
        return None;
      case LoginDisconnect(_) =>
        SendMessage(ReceivePacket(p));
        close := true;
        return Some(false);
      case LoginSuccess(_) =>
        state := Play;
        SendMessage(ReceivePacket(p));
        return Some(true);
      case _ =>
        return None;
    }

    /** `status`. */
    method Status() returns (status: Option<string>)
      requires halt == Running
      modifies this
      ensures (status, View()) == Worker.QueryStatus(env, old(View()))
    {
      SendOutbound(Handshake(PROTOCOL, env.localAddr, 0, NextStatus));
      SendOutbound(Worker.StatusRequest);
      SendOutbound(StatusPing(0));
      status := AwaitStatus();
    }

    /** The loop of `status`, once its three requests are written. */
    method AwaitStatus() returns (status: Option<string>)
      requires halt == Running
      modifies this
      ensures (status, View()) == Worker.AwaitStatus(env, old(View()))
    {
      ghost var target := Worker.AwaitStatus(env, View());
      while true
        invariant halt == Running
        invariant Worker.AwaitStatus(env, View()) == target
        decreases |incoming|
      {
        var got := NextPacket();
        match got
        case WouldBlock =>
          halt := Blocked;
          return None;
        case Halted =>
          return None;
        case IoError =>
          return None;
        case Decoded(None) =>
          halt := Panicked(DecodeFailed);
          return None;
        case Decoded(Some(p)) =>
          if p.StatusResponse? {
            return Some(p.response);
          }
      }
    }

    /** `handle_message`. */
    method HandleMessage(m: Command)
      requires halt == Running
      modifies this
      ensures View() == Worker.HandleMessage(env, old(View()), m)
    {
      match m
      case Login(protocol, port, name) =>
        var _ := Login(protocol, port, name);
      case Disconnect =>
        SendOutbound(PlayerDisconnected);
        close := true;
      case SendPacket(bytes) =>
        SendPacket(bytes);
      case RequestStatus =>
        RequestStatus();
      case _ =>
    }

    /** The `RequestStatus` arm of `handle_message`: query, forward the status, close. */
    method RequestStatus()
      requires halt == Running
      modifies this
      ensures View() == Worker.HandleMessage(env, old(View()), Command.RequestStatus)
    {
      var status := Status();
      if halt != Running {
        return;
      }
      if status.Some? {
        SendMessage(ReceiveStatus(status.value));
      }
      close := true;
    }

    /** `update`: drains the command queue, then reads packets until none is waiting. */
    method Update()
      requires halt == Running
      modifies this
      ensures View() == Worker.Update(env, old(View()))
    {
      ghost var drained := Worker.DrainCommands(env, View());
      while true
        invariant halt == Running
        invariant Worker.DrainCommands(env, View()) == drained
        decreases |commands|
      {
        if commands == [] {
          if !env.appAttached {
            close := true;   // `Disconnected`: stop before reading any packet
            return;
          }
          break;             // `Empty`
        }
        var m := commands[0];
        commands := commands[1..];
        HandleMessage(m);
        if halt != Running {
          return;
        }
      }
      ghost var pumped := Worker.PumpPackets(env, View());
      while !close
        invariant halt == Running
        invariant Worker.PumpPackets(env, View()) == pumped
        decreases |incoming|
      {
        var got := NextPacket();
        match got
        case Decoded(Some(p)) =>
          HandlePacket(p);
        case Decoded(None) =>   // logged and dropped
        case WouldBlock =>
          return;
        case IoError =>
          halt := Panicked(ReadFailed);
          return;
        case Halted =>
          return;
      }
    }
  }

  /** The address `connect` dials: `destination`, with the default port appended when it names none. */
  function WithDefaultPort(destination: string): (r: string)
    ensures ':' in r && destination <= r
    ensures ':' in destination ==> r == destination
    ensures ':' !in destination ==> r[|destination|..] == ":25565"
  {
    if ':' in destination then destination else destination + ":25565"
  }
}
