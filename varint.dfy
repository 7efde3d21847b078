/**
  The protocol's variable-length integer (`read_varint` / `write_varint` in
  src/network.rs): a 32-bit value, reinterpreted as unsigned, is written in
  groups of 7 bits, least significant group first; every byte but the last
  carries the continuation bit 0x80.
*/
module VarInt {

  type Byte = b: int | 0 <= b < 0x100

  /** Rust's `i32` and `u32`. */
  type I32 = v: int | -0x8000_0000 <= v < 0x8000_0000
  type U32 = v: int | 0 <= v < 0x1_0000_0000

  /** Rust's `u16`. */
  type U16 = x: int | 0 <= x < 0x1_0000

  /** The bit-preserving cast `val as u32`. */
  function ToU32(v: I32): (u: U32)
    ensures v >= 0 ==> u == v
    ensures v < 0 ==> u >= 0x8000_0000
  {
    if v < 0 then v + 0x1_0000_0000 else v
  }

  /** The bit-preserving cast `val as i32`. */
  function ToI32(u: U32): (v: I32)
    ensures ToU32(v) == u
  {
    if u < 0x8000_0000 then u else u - 0x1_0000_0000
  }

  /** The truncating cast `n as i32` of a `usize` length. */
  function WrapI32(n: nat): (v: I32)
    ensures n < 0x8000_0000 ==> v == n
  {
    ToI32(n % 0x1_0000_0000)
  }

  function Pow128(k: nat): (p: nat)
    ensures p >= 1
  {
    if k == 0 then 1 else 128 * Pow128(k - 1)
  }

  /** `b << (7 * k)` on unbounded integers. */
  function Shl7(b: nat, k: nat): nat
  {
    if k == 0 then b else 128 * Shl7(b, k - 1)
  }

  /** The 7-bit groups of an unsigned value, least significant first. */
  function Groups(u: nat): (r: seq<Byte>)
    ensures 1 <= |r| && r[|r| - 1] < 128
    ensures |r| == 1 <==> u < 128
    decreases u
  {
    if u < 128 then [u] else [u % 128 + 128] + Groups(u / 128)
  }

  /** The bytes `write_varint(v)` emits. */
  function Encode(v: I32): (r: seq<Byte>)
    ensures 1 <= |r| && r[|r| - 1] < 128
    ensures 0 <= v < 128 <==> r == [v]
  {
    Groups(ToU32(v))
  }

  /** What `read_varint` makes of a byte stream. */
  datatype Read =
    | Value(v: I32, size: nat)  // the value and the number of bytes consumed
    | Short                     // the input ended before a byte without 0x80
    | Overlong                  // a sixth byte was read: its shift by 35 bits overflows the u32

  /** Result of scanning groups before the u32 truncation is applied. */
  datatype Scan = Done(acc: nat, size: nat) | Ended | TooLong

  /**
    The loop of `read_varint` on the bytes `s` still to be read, after
    `size` bytes have contributed `val`: each byte adds its low 7 bits at
    position `7 * size`, and the first byte without 0x80 ends the value.
    After five bytes with 0x80 the loop reads a sixth, whose shift by
    `6 * 7 - 7 = 35` bits is out of range for a u32 (a panic in a debug
    build); the model stops there.
  */
  function ScanFrom(s: seq<Byte>, size: nat, val: nat): (r: Scan)
    requires size < 5
    ensures r.Done? ==> size < r.size <= 5 && r.size - size <= |s|
    ensures r.TooLong? ==> 6 - size <= |s|
    decreases |s|
  {
    if |s| == 0 then Ended
    else
      var val' := val + Shl7(s[0] % 128, size);
      if s[0] < 128 then Done(val', size + 1)
      else if size + 1 == 5 then (if |s| == 1 then Ended else TooLong)
      else ScanFrom(s[1..], size + 1, val')
  }

  /**
    `read_varint` over `s`. The u32 shifts of the source drop the bits that
    fall beyond bit 31; since the groups occupy disjoint bits, taking the
    sum modulo 2^32 once at the end gives the same value.
  */
  function Decode(s: seq<Byte>): (r: Read)
    ensures r.Value? ==> 1 <= r.size <= 5 && r.size <= |s|
    ensures r.Overlong? ==> 6 <= |s|
    ensures r.Short? <==> ScanFrom(s, 0, 0).Ended?
  {
    match ScanFrom(s, 0, 0)
    case Done(acc, size) => Value(ToI32(acc % 0x1_0000_0000), size)
    case Ended => Short
    case TooLong => Overlong
  }

  /** `write_varint`, building its buffer byte by byte. */
  method Write(v: I32) returns (buf: seq<Byte>)
    ensures buf == Encode(v)
  {
    var val: nat := ToU32(v);
    buf := [];
    while true
      invariant buf + Groups(val) == Encode(v)
      decreases val
    {
      if val < 128 {
        // (val & !0x7F) == 0: the last group
        buf := buf + [val];
        break;
      }
      // `val as u8 | 0x80`: the low 7 bits with the continuation bit
      ghost var g := Groups(val / 128);
      assert Groups(val) == [val % 128 + 128] + g;
      assert buf + Groups(val) == (buf + [val % 128 + 128]) + g;
      buf := buf + [val % 128 + 128];
      val := val / 128;
    }
  }

  /** `read_varint` on the bytes of `s` from index `start`. */
  method ReadAt(s: seq<Byte>, start: nat) returns (r: Read)
    requires start <= |s|
    ensures r == Decode(s[start..])
  {
    if start == |s| {
      return Short;
    }
    var size: nat := 0;
    var val: nat := 0;
    var b := s[start];
    while true
      invariant size < 5 && start + size < |s| && b == s[start + size]
      invariant ScanFrom(s[start..], 0, 0) == ScanFrom(s[start + size..], size, val)
      decreases 5 - size
    {
      assert s[start + size..][1..] == s[start + size + 1..];
      val := val + Shl7(b % 128, size);   // `val |= (byte & 0x7F) << (size * 7)`
      size := size + 1;
      if b < 128 {
        return Value(ToI32(val % 0x1_0000_0000), size);
      }
      if start + size == |s| {
        return Short;
      }
      if size == 5 {
        return Overlong;
      }
      b := s[start + size];
    }
  }

  // ---------------------------------------------------------------------
  // Properties of the encoding

  lemma {:induction false} GroupsShape(u: nat)
    ensures 1 <= |Groups(u)|
    ensures forall i :: 0 <= i < |Groups(u)| - 1 ==> Groups(u)[i] >= 128
    ensures Groups(u)[|Groups(u)| - 1] < 128
    decreases u
  {
    if u >= 128 {
      GroupsShape(u / 128);
    }
  }

  lemma {:induction false} GroupsLength(u: nat, k: nat)
    requires u < Pow128(k)
    ensures |Groups(u)| <= if k == 0 then 1 else k
    decreases u
  {
    if u >= 128 {
      assert k >= 2;
      assert u / 128 < Pow128(k - 1);
      GroupsLength(u / 128, k - 1);
    }
  }

  lemma {:induction false} GroupsLengthAtLeast(u: nat, k: nat)
    requires Pow128(k) <= u
    ensures |Groups(u)| > k
    decreases u
  {
    if k > 0 {
      assert u >= 128;
      assert Pow128(k - 1) <= u / 128;
      GroupsLengthAtLeast(u / 128, k - 1);
    }
  }

  lemma Pow128Values()
    ensures Pow128(4) == 0x1000_0000 && Pow128(5) == 0x8_0000_0000
  {
  }

  /** Every encoding is 1 to 5 bytes; 0x80 is set on all bytes but the last. */
  lemma EncodeShape(v: I32)
    ensures 1 <= |Encode(v)| <= 5
    ensures forall i :: 0 <= i < |Encode(v)| - 1 ==> Encode(v)[i] >= 128
    ensures Encode(v)[|Encode(v)| - 1] < 128
  {
    GroupsShape(ToU32(v));
    Pow128Values();
    GroupsLength(ToU32(v), 5);
  }

  /** A negative value always takes all five bytes. */
  lemma EncodeNegative(v: I32)
    requires v < 0
    ensures |Encode(v)| == 5
  {
    Pow128Values();
    GroupsLength(ToU32(v), 5);
    GroupsLengthAtLeast(ToU32(v), 4);
  }

  lemma EncodeExamples()
    ensures Encode(0) == [0x00]
    ensures Encode(127) == [0x7F]
    ensures Encode(128) == [0x80, 0x01]
    ensures Encode(300) == [0xAC, 0x02]
    ensures Encode(-1) == [0xFF, 0xFF, 0xFF, 0xFF, 0x0F]
  {
  }

  /** Splitting a value into its low group and the rest, shifted into place. */
  lemma {:induction false} ShiftGroups(u: nat, k: nat)
    ensures Shl7(u % 128, k) + Shl7(u / 128, k + 1) == Shl7(u, k)
  {
    if k > 0 {
      ShiftGroups(u, k - 1);
    }
  }

  /** Reading the groups of `u` after `size` bytes resumes and finishes the value. */
  lemma {:induction false} ScanGroups(u: nat, rest: seq<Byte>, size: nat, val: nat)
    requires size < 5 && size + |Groups(u)| <= 5
    ensures ScanFrom(Groups(u) + rest, size, val) == Done(val + Shl7(u, size), size + |Groups(u)|)
    decreases u
  {
    var s := Groups(u) + rest;
    if u < 128 {
      assert s[0] == u && u % 128 == u;
    } else {
      var q := u / 128;
      assert s[0] == u % 128 + 128 && s[0] % 128 == u % 128;
      assert s[1..] == Groups(q) + rest;
      ScanGroups(q, rest, size + 1, val + Shl7(u % 128, size));
      ShiftGroups(u, size);
    }
  }

  /**
    Round trip: `read_varint` over an encoding followed by anything returns
    the value and consumes exactly the encoding.
  */
  lemma DecodeEncode(v: I32, rest: seq<Byte>)
    ensures Decode(Encode(v) + rest) == Value(v, |Encode(v)|)
  {
    EncodeShape(v);
    ScanGroups(ToU32(v), rest, 0, 0);
  }
}
