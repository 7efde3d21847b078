/**
  Length-prefixed framing with optional zlib compression: the byte-level
  part of `send_packet` and `next_packet` in src/network.rs, and the
  `SetCompression` rule shared by `login` and `handle_packet`.
*/
module Framing {
  import opened Wrappers
  import opened VarInt

  /** A packet as the codec sees it: its id and its serialized body. */
  datatype RawPacket = RawPacket(id: I32, body: seq<Byte>)

  /** `encode`: the id as a VarInt, then the body. */
  function EncodePacket(raw: RawPacket): (p: seq<Byte>)
    ensures |p| >= 1
  {
    Encode(raw.id) + raw.body
  }

  /** The zlib pair (miniz_oxide), which is not part of this model. */
  datatype Zlib = Zlib(deflate: seq<Byte> -> seq<Byte>, inflate: seq<Byte> -> Option<seq<Byte>>)

  /** What the model assumes of zlib: inflating a deflated buffer gives it back. */
  ghost predicate Inverse(z: Zlib)
  {
    forall x :: z.inflate(z.deflate(x)) == Some(x)
  }

  /** The compression setting: the fields `compress` and `threshold`. */
  datatype Compression = Compression(enabled: bool, threshold: nat)

  /** The reaction to a `LoginSetCompression(n)` packet. */
  function SetCompression(c: Compression, n: I32): (r: Compression)
    ensures r.enabled <==> n > 0
    ensures r.threshold == if n > 0 then n else c.threshold
  {
    if n <= 0 then c.(enabled := false) else Compression(true, n)
  }

  /** The bytes `send_packet` writes for the packet bytes `p`. */
  function Frame(c: Compression, deflate: seq<Byte> -> seq<Byte>, p: seq<Byte>): (r: seq<Byte>)
    ensures !(c.enabled && |p| >= c.threshold) ==> |p| < |r| && r[|r| - |p|..] == p
    ensures c.enabled && |p| < c.threshold ==> r[|r| - |p| - 1] == 0
  {
    if c.enabled then
      if |p| >= c.threshold then
        var dataLength := Encode(WrapI32(|p|));
        var compressed := deflate(p);
        Encode(WrapI32(|dataLength| + |compressed|)) + dataLength + compressed
      else
        Encode(WrapI32(|p| + 1)) + [0] + p
    else
      Encode(WrapI32(|p|)) + p
  }

  /** What `next_packet` makes of the bytes waiting on the stream, before deserialization. */
  datatype FrameRead =
    | NoData                       // nothing to read: the peek reports WouldBlock
    | Waiting                      // the stream ends inside the length or the frame: the blocking read never returns
    | Malformed(rest: seq<Byte>)   // an io error: a VarInt inside the frame is cut short
    | ShiftOverflow(rest: seq<Byte>)  // a VarInt of six or more bytes: the shift in `read_varint` overflows
    | NegativeLength(rest: seq<Byte>)  // `len as usize` of a negative length: the allocation panics
    | InflateFailed(rest: seq<Byte>)   // the `todo!()` for a decompression error
    | Packet(raw: RawPacket, rest: seq<Byte>)

  /** Split `[id][body]` bytes held in memory. */
  function SplitId(data: seq<Byte>, rest: seq<Byte>): (r: FrameRead)
    ensures r.Packet? || r == Malformed(rest) || r == ShiftOverflow(rest)
    ensures r.Packet? ==> r.rest == rest
  {
    match Decode(data)
    case Value(id, k) => Packet(RawPacket(id, data[k..]), rest)
    case Short => Malformed(rest)
    case Overlong => ShiftOverflow(rest)
  }

  /** The frame body `buf`, read from memory after the length was consumed. */
  function Body(compress: bool, inflate: seq<Byte> -> Option<seq<Byte>>, buf: seq<Byte>, rest: seq<Byte>): (r: FrameRead)
    ensures r.Packet? || r.Malformed? || r.ShiftOverflow? || r.InflateFailed?
    ensures r.rest == rest
  {
    if compress then
      match Decode(buf)
      case Value(dataLen, m) =>
        if dataLen == 0 then SplitId(buf[m..], rest)
        else (
          match inflate(buf[m..])
          case Some(uncompressed) => SplitId(uncompressed, rest)
          case None => InflateFailed(rest))
      case Short => Malformed(rest)
      case Overlong => ShiftOverflow(rest)
    else
      SplitId(buf, rest)
  }

  /** `next_packet` on the bytes `s` the peer has sent and the worker has not read. */
  function Parse(compress: bool, inflate: seq<Byte> -> Option<seq<Byte>>, s: seq<Byte>): (r: FrameRead)
    ensures !r.NoData? && !r.Waiting? ==> |r.rest| < |s|
  {
    if s == [] then NoData
    else
      match Decode(s)
      case Short => Waiting
      case Overlong => ShiftOverflow(s[6..])
      case Value(len, n) =>
        if len < 0 then NegativeLength(s[n..])
        else if |s| - n < len then Waiting
        else Body(compress, inflate, s[n..n + len], s[n + len..])
  }


  /** The lengths `send_packet` casts to `i32` stay below 2^31, in the mode it takes for `p`. */
  predicate Fits(c: Compression, deflate: seq<Byte> -> seq<Byte>, p: seq<Byte>)
  {
    if c.enabled && |p| >= c.threshold then
      |p| < 0x8000_0000 && |Encode(|p|)| + |deflate(p)| < 0x8000_0000
    else if c.enabled then
      |p| + 1 < 0x8000_0000
    else
      |p| < 0x8000_0000
  }

  /** The frames of several packets, sent back to back with one setting. */
  function Frames(c: Compression, deflate: seq<Byte> -> seq<Byte>, raws: seq<RawPacket>): seq<Byte>
  {
    if raws == [] then [] else Frame(c, deflate, EncodePacket(raws[0])) + Frames(c, deflate, raws[1..])
  }

  // ---------------------------------------------------------------------
  // Properties

  /** The id and body of a packet come back out of its own bytes. */
  lemma SplitEncoded(raw: RawPacket, rest: seq<Byte>)
    ensures SplitId(EncodePacket(raw), rest) == Packet(raw, rest)
  {
    DecodeEncode(raw.id, raw.body);
    assert EncodePacket(raw)[|Encode(raw.id)|..] == raw.body;
  }

  /** Reading a frame whose length prefix is the VarInt of its body's length hands exactly that body on. */
  lemma {:induction false} ParsePrefixed(compress: bool, inflate: seq<Byte> -> Option<seq<Byte>>, body: seq<Byte>, rest: seq<Byte>)
    requires |body| < 0x8000_0000
    ensures Parse(compress, inflate, Encode(|body|) + body + rest) == Body(compress, inflate, body, rest)
  {
    var s := Encode(|body|) + body + rest;
    DecodeEncode(|body|, body + rest);
    assert s == Encode(|body|) + (body + rest);
    var n := |Encode(|body|)|;
    assert s[n..n + |body|] == body;
    assert s[n + |body|..] == rest;
  }

  /**
    Without compression `send_packet` writes `varint(len p) ++ p`, and
    `next_packet` reads back the same id and body, leaving what follows.
  */
  lemma {:induction false} PlainRoundTrip(c: Compression, z: Zlib, raw: RawPacket, rest: seq<Byte>)
    requires !c.enabled
    requires |EncodePacket(raw)| < 0x8000_0000
    ensures Frame(c, z.deflate, EncodePacket(raw)) == Encode(|EncodePacket(raw)|) + EncodePacket(raw)
    ensures Parse(false, z.inflate, Frame(c, z.deflate, EncodePacket(raw)) + rest) == Packet(raw, rest)
  {
    ParsePrefixed(false, z.inflate, EncodePacket(raw), rest);
    SplitEncoded(raw, rest);
  }

  /**
    With compression on and a packet below the threshold, `send_packet`
    writes `varint(len p + 1) ++ [0x00] ++ p`; `next_packet` sees the data
    length 0 and recovers id and body whatever the inflater does.
  */
  lemma {:induction false} SmallRoundTrip(c: Compression, deflate: seq<Byte> -> seq<Byte>, inflate: seq<Byte> -> Option<seq<Byte>>, raw: RawPacket, rest: seq<Byte>)
    requires c.enabled && |EncodePacket(raw)| < c.threshold
    requires |EncodePacket(raw)| + 1 < 0x8000_0000
    ensures Frame(c, deflate, EncodePacket(raw)) == Encode(|EncodePacket(raw)| + 1) + [0x00] + EncodePacket(raw)
    ensures Parse(true, inflate, Frame(c, deflate, EncodePacket(raw)) + rest) == Packet(raw, rest)
  {
    var p := EncodePacket(raw);
    var buf := [0] + p;
    assert Frame(c, deflate, p) == Encode(|buf|) + buf;
    ParsePrefixed(true, inflate, buf, rest);
    DecodeEncode(0, p);
    assert Encode(0) == [0] by { EncodeExamples(); }
    assert buf[1..] == p;
    SplitEncoded(raw, rest);
  }

  /**
    With compression on and a packet at or above the threshold,
    `send_packet` writes `varint(len D + len Z) ++ D ++ Z` where
    `D = varint(len p)` and `Z = deflate(p)`; if inflate undoes deflate,
    `next_packet` inflates Z and recovers id and body.
  */
  lemma {:induction false} CompressedRoundTrip(c: Compression, z: Zlib, raw: RawPacket, rest: seq<Byte>)
    requires Inverse(z)
    requires c.enabled && c.threshold <= |EncodePacket(raw)| < 0x8000_0000
    requires |Encode(|EncodePacket(raw)|)| + |z.deflate(EncodePacket(raw))| < 0x8000_0000
    ensures Frame(c, z.deflate, EncodePacket(raw))
         == Encode(|Encode(|EncodePacket(raw)|)| + |z.deflate(EncodePacket(raw))|) + Encode(|EncodePacket(raw)|) + z.deflate(EncodePacket(raw))
    ensures Parse(true, z.inflate, Frame(c, z.deflate, EncodePacket(raw)) + rest) == Packet(raw, rest)
  {
    var p := EncodePacket(raw);
    var dataLength := Encode(|p|);
    var compressed := z.deflate(p);
    var buf := dataLength + compressed;
    assert Frame(c, z.deflate, p) == Encode(|buf|) + buf;
    ParsePrefixed(true, z.inflate, buf, rest);
    DecodeEncode(|p|, compressed);
    assert buf[|dataLength|..] == compressed;
    assert z.inflate(compressed) == Some(p);
    SplitEncoded(raw, rest);
  }

  /** Any number of non-positive `SetCompression` packets in a row act like the last one. */
  lemma SetCompressionIdempotent(c: Compression, m: I32, n: I32)
    requires m <= 0 && n <= 0
    ensures SetCompression(SetCompression(c, m), n) == SetCompression(c, n) == c.(enabled := false)
  {
  }

  /**
    A non-positive `SetCompression` after a positive one disables
    compression: every later frame is the uncompressed `varint(len p) ++ p`.
  */
  lemma SetCompressionOverrides(c: Compression, m: I32, n: I32, deflate: seq<Byte> -> seq<Byte>, p: seq<Byte>)
    requires m > 0 && n <= 0
    ensures SetCompression(SetCompression(c, m), n) == Compression(false, m)
    ensures Frame(SetCompression(SetCompression(c, m), n), deflate, p) == Encode(WrapI32(|p|)) + p
  {
  }

  /** The three modes together: reading a frame back gives the packet sent, whatever follows it. */
  lemma RoundTrip(c: Compression, z: Zlib, raw: RawPacket, rest: seq<Byte>)
    requires Inverse(z) && Fits(c, z.deflate, EncodePacket(raw))
    ensures Parse(c.enabled, z.inflate, Frame(c, z.deflate, EncodePacket(raw)) + rest) == Packet(raw, rest)
  {
    if !c.enabled {
      PlainRoundTrip(c, z, raw, rest);
    } else if |EncodePacket(raw)| < c.threshold {
      SmallRoundTrip(c, z.deflate, z.inflate, raw, rest);
    } else {
      CompressedRoundTrip(c, z, raw, rest);
    }
  }
}
