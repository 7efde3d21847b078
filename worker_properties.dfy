/**
  What the network manager promises: the keep-alive echo, forwarding in
  wire order, the ways `close` becomes true, and the outcomes of the login
  and status exchanges.
*/
module WorkerProperties {
  import opened Wrappers
  import opened VarInt
  import opened Framing
  import opened Worker

  /** The bytes of the frame for the outbound packet `o` under setting `c`. */
  function FrameOf(env: Env, c: Compression, o: Outbound): seq<Byte>
  {
    Frame(c, env.zlib.deflate, EncodePacket(env.serialize(o)))
  }

  /** `next_packet` on a well-formed frame followed by `rest` deserializes that frame's packet and leaves `rest`. */
  lemma NextOnFrame(env: Env, c: Conn, raw: RawPacket, rest: seq<Byte>)
    requires c.halt == Running && Inverse(env.zlib)
    requires Fits(c.comp, env.zlib.deflate, EncodePacket(raw))
    requires c.incoming == Frame(c.comp, env.zlib.deflate, EncodePacket(raw)) + rest
    ensures Next(env, c) == (Decoded(env.deserialize(c.state, raw)), c.(incoming := rest))
  {
    RoundTrip(c.comp, env.zlib, raw, rest);
  }

  /** One round of the packet loop on a decodable frame. */
  lemma PumpStep(env: Env, c: Conn, raw: RawPacket, rest: seq<Byte>)
    requires c.halt == Running && !c.close && Inverse(env.zlib)
    requires Fits(c.comp, env.zlib.deflate, EncodePacket(raw))
    requires c.incoming == Frame(c.comp, env.zlib.deflate, EncodePacket(raw)) + rest
    ensures PumpPackets(env, c) == match env.deserialize(c.state, raw)
      case Some(p) => PumpPackets(env, HandlePacket(env, c.(incoming := rest), p))
      case None => PumpPackets(env, c.(incoming := rest))
  {
    NextOnFrame(env, c, raw, rest);
  }

  // ---------------------------------------------------------------------
  // handle_packet

  /** A server keep-alive is answered with one client keep-alive and never reaches the application. */
  lemma KeepAliveEcho(env: Env, c: Conn, k: int)
    ensures HandlePacket(env, c, ServerKeepAlive(k))
         == c.(outgoing := c.outgoing + FrameOf(env, c.comp, ClientKeepAlive(k)))
  {
  }

  /** The server, reading with the same setting, finds exactly that one packet after what was already written. */
  lemma KeepAliveEchoReadsBack(env: Env, c: Conn, k: int)
    requires Inverse(env.zlib)
    requires Fits(c.comp, env.zlib.deflate, EncodePacket(env.serialize(ClientKeepAlive(k))))
    ensures c.outgoing <= HandlePacket(env, c, ServerKeepAlive(k)).outgoing
    ensures Parse(c.comp.enabled, env.zlib.inflate, HandlePacket(env, c, ServerKeepAlive(k)).outgoing[|c.outgoing|..])
         == Packet(env.serialize(ClientKeepAlive(k)), [])
  {
    var f := FrameOf(env, c.comp, ClientKeepAlive(k));
    RoundTrip(c.comp, env.zlib, env.serialize(ClientKeepAlive(k)), []);
    assert (c.outgoing + f)[|c.outgoing|..] == f + [];
  }

  /** `SetCompression` mid-session changes the setting and nothing else. */
  lemma SetCompressionMidSession(env: Env, c: Conn, n: I32)
    ensures HandlePacket(env, c, SetCompressionPacket(n)) == c.(comp := SetCompression(c.comp, n))
    ensures HandlePacket(env, c, SetCompressionPacket(n)).comp.enabled <==> n > 0
  {
  }

  /** Every other packet is forwarded unchanged as one `ReceivePacket` event. */
  lemma ForwardsOthers(env: Env, c: Conn, p: Inbound)
    requires !p.ServerKeepAlive? && !p.SetCompressionPacket?
    requires env.appListening
    ensures HandlePacket(env, c, p) == c.(events := c.events + [ReceivePacket(p)])
  {
  }

  // ---------------------------------------------------------------------
  // The packet loop of update

  /** The event the packet loop emits for one frame: none for a keep-alive or a packet that does not deserialize. */
  function EventOf(env: Env, state: Phase, raw: RawPacket): seq<Command>
  {
    match env.deserialize(state, raw)
    case Some(p) => if p.ServerKeepAlive? then [] else [ReceivePacket(p)]
    case None => []
  }

  /** The bytes the packet loop writes for one frame: the echo of a keep-alive, nothing otherwise. */
  function EchoOf(env: Env, c: Compression, state: Phase, raw: RawPacket): seq<Byte>
  {
    match env.deserialize(state, raw)
    case Some(ServerKeepAlive(k)) => FrameOf(env, c, ClientKeepAlive(k))
    case _ => []
  }

  /** The events the packet loop emits for a run of frames, in order. */
  function Forwarded(env: Env, state: Phase, raws: seq<RawPacket>): seq<Command>
  {
    if raws == [] then [] else EventOf(env, state, raws[0]) + Forwarded(env, state, raws[1..])
  }

  /** The keep-alive echoes the packet loop writes for a run of frames, in order. */
  function Echoed(env: Env, c: Compression, state: Phase, raws: seq<RawPacket>): seq<Byte>
  {
    if raws == [] then [] else EchoOf(env, c, state, raws[0]) + Echoed(env, c, state, raws[1..])
  }

  /** No packet of `raws` changes the compression setting. */
  predicate Passive(env: Env, state: Phase, raws: seq<RawPacket>)
  {
    raws == [] ||
    ((match env.deserialize(state, raws[0])
      case Some(p) => !p.SetCompressionPacket?
      case None => true)
     && Passive(env, state, raws[1..]))
  }

  /** Every frame of `raws` passes the i32 length casts of `send_packet` under `c`. */
  predicate AllFit(c: Compression, deflate: seq<Byte> -> seq<Byte>, raws: seq<RawPacket>)
  {
    raws == [] || (Fits(c, deflate, EncodePacket(raws[0])) && AllFit(c, deflate, raws[1..]))
  }

  lemma Associative<T>(a: seq<T>, b: seq<T>, c: seq<T>)
    ensures (a + b) + c == a + (b + c)
  {
  }

  /** One frame: the packet loop writes its echo, emits its event and moves on. */
  lemma PumpOne(env: Env, c: Conn, raw: RawPacket, rest: seq<Byte>)
    requires c.halt == Running && !c.close && env.appListening && Inverse(env.zlib)
    requires Fits(c.comp, env.zlib.deflate, EncodePacket(raw))
    requires c.incoming == Frame(c.comp, env.zlib.deflate, EncodePacket(raw)) + rest
    requires env.deserialize(c.state, raw).Some? ==> !env.deserialize(c.state, raw).value.SetCompressionPacket?
    ensures PumpPackets(env, c)
         == PumpPackets(env, c.(incoming := rest,
                                outgoing := c.outgoing + EchoOf(env, c.comp, c.state, raw),
                                events := c.events + EventOf(env, c.state, raw)))
  {
    PumpStep(env, c, raw, rest);
    var c1 := c.(incoming := rest);
    match env.deserialize(c.state, raw)
    case None =>
      assert c.outgoing + [] == c.outgoing && c.events + [] == c.events;
    case Some(p) =>
      if p.ServerKeepAlive? {
        KeepAliveEcho(env, c1, p.keepAliveId);
        assert c.events + [] == c.events;
      } else {
        ForwardsOthers(env, c1, p);
        assert c.outgoing + [] == c.outgoing;
      }
  }

  /**
    The packet loop reads the frames in the order they came off the wire.
    It answers each keep-alive with its echo, forwards every other packet
    as one event, drops the ones that do not deserialize without stopping,
    and returns once no byte is left.
  */
  lemma {:induction false} PumpForwardsInOrder(env: Env, c: Conn, raws: seq<RawPacket>)
    requires c.halt == Running && !c.close && env.appListening && Inverse(env.zlib)
    requires AllFit(c.comp, env.zlib.deflate, raws) && Passive(env, c.state, raws)
    requires c.incoming == Frames(c.comp, env.zlib.deflate, raws)
    ensures PumpPackets(env, c)
         == c.(incoming := [],
               outgoing := c.outgoing + Echoed(env, c.comp, c.state, raws),
               events := c.events + Forwarded(env, c.state, raws))
    decreases |raws|
  {
    if raws == [] {
      assert c.outgoing + [] == c.outgoing && c.events + [] == c.events;
    } else {
      var tail := Frames(c.comp, env.zlib.deflate, raws[1..]);
      var echo := EchoOf(env, c.comp, c.state, raws[0]);
      var first := EventOf(env, c.state, raws[0]);
      var c' := c.(incoming := tail, outgoing := c.outgoing + echo, events := c.events + first);
      PumpOne(env, c, raws[0], tail);
      PumpForwardsInOrder(env, c', raws[1..]);
      Associative(c.outgoing, echo, Echoed(env, c.comp, c.state, raws[1..]));
      Associative(c.events, first, Forwarded(env, c.state, raws[1..]));
    }
  }

  /**
    A keep-alive arriving during play: the worker writes exactly one
    client keep-alive carrying the same id and emits no event.
  */
  lemma KeepAliveScenario(env: Env, c: Conn, raw: RawPacket, k: int)
    requires c.halt == Running && !c.close && Inverse(env.zlib)
    requires env.deserialize(c.state, raw) == Some(ServerKeepAlive(k))
    requires Fits(c.comp, env.zlib.deflate, EncodePacket(raw))
    requires c.incoming == Frame(c.comp, env.zlib.deflate, EncodePacket(raw))
    ensures PumpPackets(env, c)
         == c.(incoming := [], outgoing := c.outgoing + FrameOf(env, c.comp, ClientKeepAlive(k)))
  {
    assert c.incoming == c.incoming + [];
    NextOnFrame(env, c, raw, []);
  }

  // ---------------------------------------------------------------------
  // When close becomes true

  /** `Disconnect` writes one disconnect frame and then sets `close`. */
  lemma DisconnectCloses(env: Env, c: Conn)
    requires c.halt == Running
    ensures HandleMessage(env, c, Disconnect)
         == c.(outgoing := c.outgoing + FrameOf(env, c.comp, PlayerDisconnected), close := true)
  {
  }

  /** `SendPacket` frames its bytes and leaves `close` as it was. */
  lemma SendPacketKeepsClose(env: Env, c: Conn, bytes: seq<Byte>)
    requires c.halt == Running
    ensures HandleMessage(env, c, SendPacket(bytes))
         == c.(outgoing := c.outgoing + Frame(c.comp, env.zlib.deflate, bytes))
  {
  }

  /** `RequestStatus` sets `close` whether or not a status came back (unless the thread stopped first). */
  lemma RequestStatusCloses(env: Env, c: Conn)
    requires c.halt == Running
    ensures HandleMessage(env, c, RequestStatus).halt == Running ==> HandleMessage(env, c, RequestStatus).close
  {
  }

  /**
    A disconnected command channel stops `update` before any packet is
    read: the queued commands are handled, and then `close` is set unless
    one of them stopped the thread.
  */
  lemma DisconnectedChannelCloses(env: Env, c: Conn)
    requires c.halt == Running && !env.appAttached
    ensures Update(env, c) == DrainCommands(env, c)
    ensures Update(env, c).halt == Running ==> Update(env, c).close && Update(env, c).commands == []
    ensures c.commands == [] ==> Update(env, c) == c.(close := true)
  {
  }

  /** A failed event send sets `close` and tells the server. */
  lemma FailedSendCloses(env: Env, c: Conn, m: Command)
    requires !env.appListening
    ensures SendMessage(env, c, m)
         == c.(close := true, outgoing := c.outgoing + FrameOf(env, c.comp, PlayerDisconnected))
  {
  }

  /** One packet of the login loop never clears `close` and only appends to the socket log and the events. */
  lemma OnLoginPacketMonotone(env: Env, c: Conn, p: Inbound)
    ensures var c' := OnLoginPacket(env, c, p).1;
      (c.close ==> c'.close) && c.outgoing <= c'.outgoing && c.events <= c'.events
  {
  }

  /** The login loop never clears `close` and only appends to the socket log and the events. */
  lemma {:induction false} AwaitLoginMonotone(env: Env, c: Conn)
    requires c.halt == Running
    ensures c.close ==> AwaitLogin(env, c).1.close
    ensures c.outgoing <= AwaitLogin(env, c).1.outgoing && c.events <= AwaitLogin(env, c).1.events
    decreases |c.incoming|
  {
    var (got, c') := Next(env, c);
    if got.Decoded? && got.packet.Some? {
      var (outcome, c'') := OnLoginPacket(env, c', got.packet.value);
      OnLoginPacketMonotone(env, c', got.packet.value);
      if outcome.None? {
        AwaitLoginMonotone(env, c'');
      }
    }
  }

  /** No command clears `close`. */
  lemma HandleMessageKeepsClose(env: Env, c: Conn, m: Command)
    requires c.halt == Running
    ensures c.close ==> HandleMessage(env, c, m).close
  {
    if m.Login? {
      AwaitLoginMonotone(env, LoginRequest(env, c, m.protocol, m.port, m.name));
    }
  }

  /** The packet loop never clears `close`. */
  lemma {:induction false} PumpKeepsClose(env: Env, c: Conn)
    requires c.halt == Running
    ensures c.close ==> PumpPackets(env, c).close
  {
  }

  /** The command loop never clears `close`. */
  lemma {:induction false} DrainKeepsClose(env: Env, c: Conn)
    requires c.halt == Running
    ensures c.close ==> DrainCommands(env, c).close
    decreases |c.commands|
  {
    if c.commands != [] {
      var c0 := c.(commands := c.commands[1..]);
      HandleMessageKeepsClose(env, c0, c.commands[0]);
      var c' := HandleMessage(env, c0, c.commands[0]);
      if c'.halt == Running {
        DrainKeepsClose(env, c');
      }
    }
  }

  /** `update` never clears `close`. */
  lemma UpdateKeepsClose(env: Env, c: Conn)
    requires c.halt == Running
    ensures c.close ==> Update(env, c).close
  {
    DrainKeepsClose(env, c);
  }

  /** A command that by itself can never set `close`. */
  predicate Harmless(m: Command)
  {
    !m.Disconnect? && !m.RequestStatus? && !m.Login?
  }

  /** With both channel ends alive, the packet loop never sets `close`. */
  lemma {:induction false} PumpNeverCloses(env: Env, c: Conn)
    requires c.halt == Running && !c.close && env.appListening
    ensures !PumpPackets(env, c).close
    decreases |c.incoming|
  {
    var (got, c') := Next(env, c);
    if got.Decoded? {
      if got.packet.Some? {
        PumpNeverCloses(env, HandlePacket(env, c', got.packet.value));
      } else {
        PumpNeverCloses(env, c');
      }
    }
  }

  /**
    `close` is set only by a `Disconnect`, `RequestStatus` or `Login`
    command, a disconnected command channel, or a failed event send: with
    none of them, `update` leaves it false.
  */
  lemma {:induction false} UpdateCloseCauses(env: Env, c: Conn)
    requires c.halt == Running && !c.close
    requires env.appListening && env.appAttached
    requires forall i :: 0 <= i < |c.commands| ==> Harmless(c.commands[i])
    ensures !Update(env, c).close
    decreases |c.commands|
  {
    if c.commands == [] {
      PumpNeverCloses(env, c);
    } else {
      var c' := HandleMessage(env, c.(commands := c.commands[1..]), c.commands[0]);
      assert Harmless(c.commands[0]);
      assert forall i :: 0 <= i < |c'.commands| ==> c'.commands[i] == c.commands[i + 1];
      UpdateCloseCauses(env, c');
    }
  }

  // ---------------------------------------------------------------------
  // login

  /** The login loop on a frame that deserializes to `p`. */
  lemma AwaitLoginStep(env: Env, c: Conn, raw: RawPacket, rest: seq<Byte>, p: Inbound)
    requires c.halt == Running && Inverse(env.zlib)
    requires Fits(c.comp, env.zlib.deflate, EncodePacket(raw))
    requires c.incoming == Frame(c.comp, env.zlib.deflate, EncodePacket(raw)) + rest
    requires env.deserialize(c.state, raw) == Some(p)
    ensures p.SetCompressionPacket? ==>
      AwaitLogin(env, c) == AwaitLogin(env, c.(incoming := rest, comp := SetCompression(c.comp, p.threshold)))
    ensures p.LoginSuccess? ==>
      AwaitLogin(env, c) == (true, SendMessage(env, c.(incoming := rest, state := Play), ReceivePacket(p)))
    ensures p.LoginDisconnect? ==>
      AwaitLogin(env, c) == (false, SendMessage(env, c.(incoming := rest), ReceivePacket(p)).(close := true))
  {
    NextOnFrame(env, c, raw, rest);
  }

  /**
    How a login attempt that started in the `Login` state from `c` may end
    with `ok` and `c'`: in `Play` exactly when it reports success; without
    success it either stopped the thread or saw `LoginDisconnect`, which
    closes the connection in the `Login` state. With the application
    listening, success forwards just the `LoginSuccess` packet and refusal
    just the `LoginDisconnect` packet, and nothing is written.
  */
  ghost predicate LoginEnds(env: Env, c: Conn, ok: bool, c': Conn)
  {
    && (ok <==> c'.state == Play)
    && (ok ==> c'.halt == Running)
    && (!ok && c'.halt == Running ==> c'.close && c'.state == Phase.Login)
    && (!ok && c'.halt != Running ==> c'.state == Phase.Login)
    && (env.appListening ==> c'.outgoing == c.outgoing)
    && (env.appListening && ok ==> exists u :: c'.events == c.events + [ReceivePacket(LoginSuccess(u))])
    && (env.appListening && !ok && c'.halt == Running ==>
          exists why :: c'.events == c.events + [ReceivePacket(LoginDisconnect(why))])
    && (env.appListening && c'.halt != Running ==> c'.events == c.events)
  }

  /** One packet of the login loop either ends it as `LoginEnds` says or changes only the compression setting. */
  lemma OnLoginPacketOutcome(env: Env, c: Conn, p: Inbound)
    requires c.halt == Running && c.state == Phase.Login
    ensures var (outcome, c') := OnLoginPacket(env, c, p);
      && (outcome.Some? ==> LoginEnds(env, c, outcome.value, c'))
      && (outcome.None? ==> c' == c.(comp := c'.comp))
  {
    match p
    case LoginSuccess(u) =>
      if env.appListening {
        assert OnLoginPacket(env, c, p).1.events == c.events + [ReceivePacket(LoginSuccess(u))];
      }
    case LoginDisconnect(why) =>
      if env.appListening {
        assert OnLoginPacket(env, c, p).1.events == c.events + [ReceivePacket(LoginDisconnect(why))];
      }
    case _ =>
  }

  /** The login loop, from the `Login` state, ends as `LoginEnds` says. */
  lemma {:induction false} AwaitLoginOutcome(env: Env, c: Conn)
    requires c.halt == Running && c.state == Phase.Login
    ensures LoginEnds(env, c, AwaitLogin(env, c).0, AwaitLogin(env, c).1)
    decreases |c.incoming|
  {
    var (got, c') := Next(env, c);
    if got.Decoded? && got.packet.Some? {
      var (outcome, c'') := OnLoginPacket(env, c', got.packet.value);
      OnLoginPacketOutcome(env, c', got.packet.value);
      if outcome.Some? {
        assert LoginEnds(env, c', outcome.value, c'');
      } else {
        AwaitLoginOutcome(env, c'');
        var (ok, last) := AwaitLogin(env, c'');
        assert LoginEnds(env, c'', ok, last);
      }
    }
  }

  /**
    `login` writes the handshake (next state Login) and then the login
    start, each framed with the setting in force, before anything else,
    and sets the state to `Login` in between; the rest is the loop's outcome.
  */
  lemma LoginSendsHandshakeFirst(env: Env, c: Conn, protocol: I32, port: U16, name: string)
    requires c.halt == Running
    ensures var (ok, c') := DoLogin(env, c, protocol, port, name);
      && c.outgoing + FrameOf(env, c.comp, Handshake(protocol, env.localAddr, port, NextLogin))
           + FrameOf(env, c.comp, LoginStart(name)) <= c'.outgoing
      && (ok <==> c'.state == Play)
      && (!ok && c'.halt == Running ==> c'.close && c'.state == Phase.Login)
  {
    var r := LoginRequest(env, c, protocol, port, name);
    assert r.outgoing == c.outgoing + FrameOf(env, c.comp, Handshake(protocol, env.localAddr, port, NextLogin))
           + FrameOf(env, c.comp, LoginStart(name));
    AwaitLoginOutcome(env, r);
    AwaitLoginMonotone(env, r);
  }

  /**
    The server answers the login with `SetCompression(256)` and then, in
    compressed framing, `LoginSuccess`: the client ends in `Play` with
    compression on at threshold 256 and has forwarded the success packet.
  */
  lemma LoginWithCompression(env: Env, c: Conn, protocol: I32, port: U16, name: string,
                             setRaw: RawPacket, successRaw: RawPacket, username: string)
    requires c.halt == Running && !c.close && env.appListening && Inverse(env.zlib)
    requires env.deserialize(Phase.Login, setRaw) == Some(SetCompressionPacket(256))
    requires env.deserialize(Phase.Login, successRaw) == Some(LoginSuccess(username))
    requires Fits(c.comp, env.zlib.deflate, EncodePacket(setRaw))
    requires Fits(Compression(true, 256), env.zlib.deflate, EncodePacket(successRaw))
    requires c.incoming == Frame(c.comp, env.zlib.deflate, EncodePacket(setRaw))
                           + Frame(Compression(true, 256), env.zlib.deflate, EncodePacket(successRaw))
    ensures var (ok, c') := DoLogin(env, c, protocol, port, name);
      && ok && c'.state == Play && c'.comp == Compression(true, 256) && c'.incoming == [] && !c'.close
      && c'.events == c.events + [ReceivePacket(LoginSuccess(username))]
  {
    var second := Frame(Compression(true, 256), env.zlib.deflate, EncodePacket(successRaw));
    var r := LoginRequest(env, c, protocol, port, name);
    assert r.comp == c.comp && r.incoming == c.incoming && r.state == Phase.Login && r.events == c.events;
    AwaitLoginStep(env, r, setRaw, second, SetCompressionPacket(256));
    var r1 := r.(incoming := second, comp := Compression(true, 256));
    assert r1.incoming == second + [];
    AwaitLoginStep(env, r1, successRaw, [], LoginSuccess(username));
  }

  /**
    The server refuses the login with `LoginDisconnect(reason)`: the
    application gets that packet with its reason, `close` is set, login
    fails and the state never reaches `Play`.
  */
  lemma LoginRefused(env: Env, c: Conn, protocol: I32, port: U16, name: string,
                     raw: RawPacket, reason: string, more: seq<Byte>)
    requires c.halt == Running && env.appListening && Inverse(env.zlib)
    requires env.deserialize(Phase.Login, raw) == Some(LoginDisconnect(reason))
    requires Fits(c.comp, env.zlib.deflate, EncodePacket(raw))
    requires c.incoming == Frame(c.comp, env.zlib.deflate, EncodePacket(raw)) + more
    ensures var (ok, c') := DoLogin(env, c, protocol, port, name);
      && !ok && c'.close && c'.state == Phase.Login && c'.halt == Running && c'.incoming == more
      && c'.events == c.events + [ReceivePacket(LoginDisconnect(reason))]
  {
    var r := LoginRequest(env, c, protocol, port, name);
    assert r.comp == c.comp && r.incoming == c.incoming && r.state == Phase.Login && r.events == c.events;
    AwaitLoginStep(env, r, raw, more, LoginDisconnect(reason));
  }

  // ---------------------------------------------------------------------
  // status

  /** No packet of `raws` deserializes (in `state`) to anything but a non-status packet. */
  predicate NotStatus(env: Env, state: Phase, raws: seq<RawPacket>)
  {
    raws == [] ||
    (env.deserialize(state, raws[0]).Some? && !env.deserialize(state, raws[0]).value.StatusResponse?
     && NotStatus(env, state, raws[1..]))
  }

  /**
    While waiting for the status, other packets are skipped; the first
    `StatusResponse` ends the wait with its payload.
  */
  lemma {:induction false} AwaitStatusSkips(env: Env, c: Conn, others: seq<RawPacket>, raw: RawPacket, response: string, rest: seq<Byte>)
    requires c.halt == Running && Inverse(env.zlib)
    requires AllFit(c.comp, env.zlib.deflate, others) && NotStatus(env, c.state, others)
    requires Fits(c.comp, env.zlib.deflate, EncodePacket(raw))
    requires env.deserialize(c.state, raw) == Some(StatusResponse(response))
    requires c.incoming == Frames(c.comp, env.zlib.deflate, others) + Frame(c.comp, env.zlib.deflate, EncodePacket(raw)) + rest
    ensures AwaitStatus(env, c) == (Some(response), c.(incoming := rest))
    decreases |others|
  {
    var last := Frame(c.comp, env.zlib.deflate, EncodePacket(raw));
    if others == [] {
      assert c.incoming == last + rest;
      NextOnFrame(env, c, raw, rest);
    } else {
      var first := Frame(c.comp, env.zlib.deflate, EncodePacket(others[0]));
      var later := Frames(c.comp, env.zlib.deflate, others[1..]);
      var tail := later + last + rest;
      Associative(first, later, last);
      Associative(first, later + last, rest);
      AwaitStatusSkipOne(env, c, others[0], tail);
      AwaitStatusSkips(env, c.(incoming := tail), others[1..], raw, response, rest);
    }
  }

  /** One packet that is not the status response: the status loop moves past it. */
  lemma AwaitStatusSkipOne(env: Env, c: Conn, raw: RawPacket, rest: seq<Byte>)
    requires c.halt == Running && Inverse(env.zlib)
    requires Fits(c.comp, env.zlib.deflate, EncodePacket(raw))
    requires c.incoming == Frame(c.comp, env.zlib.deflate, EncodePacket(raw)) + rest
    requires env.deserialize(c.state, raw).Some? && !env.deserialize(c.state, raw).value.StatusResponse?
    ensures AwaitStatus(env, c) == AwaitStatus(env, c.(incoming := rest))
  {
    NextOnFrame(env, c, raw, rest);
  }

  /**
    `RequestStatus` against a server that answers with a status: exactly
    one `ReceiveStatus` event carrying it, the three requests written,
    and `close` set (the status connection is one-shot).
  */
  lemma StatusScenario(env: Env, c: Conn, others: seq<RawPacket>, raw: RawPacket, response: string, rest: seq<Byte>)
    requires c.halt == Running && env.appListening && Inverse(env.zlib)
    requires AllFit(c.comp, env.zlib.deflate, others) && NotStatus(env, c.state, others)
    requires Fits(c.comp, env.zlib.deflate, EncodePacket(raw))
    requires env.deserialize(c.state, raw) == Some(StatusResponse(response))
    requires c.incoming == Frames(c.comp, env.zlib.deflate, others) + Frame(c.comp, env.zlib.deflate, EncodePacket(raw)) + rest
    ensures HandleMessage(env, c, RequestStatus)
         == StatusRequests(env, c).(incoming := rest, close := true, events := c.events + [ReceiveStatus(response)])
  {
    AwaitStatusSkips(env, StatusRequests(env, c), others, raw, response, rest);
  }
}
