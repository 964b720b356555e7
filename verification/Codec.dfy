/** The TLV encoding of pgredis.store.value (src/binval.c): [u8 tag][u32 length, little-endian][payload]. */
module Tlv {
  import opened Base

  const TAG_STRING: Octet := 0x01
  const TAG_INT: Octet := 0x02
  const HEADER_SIZE := 5
  const INT64_HALF := 0x8000_0000_0000_0000
  const UINT64_SPAN := 0x1_0000_0000_0000_0000

  datatype Scalar = Str(bytes: Bytes) | Int(i: int)

  predicate IsInt64(i: int) {
    -INT64_HALF <= i < INT64_HALF
  }

  // ----- Little-endian integers -----

  /** The `n` low octets of `u`, least significant first. */
  function Le(n: nat, u: nat): (b: Bytes)
    ensures |b| == n
  {
    if n == 0 then [] else [u % 256] + Le(n - 1, u / 256)
  }

  function FromLe(b: Bytes): nat {
    if b == [] then 0 else b[0] + 256 * FromLe(b[1..])
  }

  function Span(n: nat): (s: nat)
    ensures 0 < s
  {
    if n == 0 then 1 else 256 * Span(n - 1)
  }

  lemma {:induction false} LeRoundTrip(n: nat, u: nat)
    requires u < Span(n)
    ensures FromLe(Le(n, u)) == u
  {
    if n > 0 {
      LeRoundTrip(n - 1, u / 256);
      assert Le(n, u)[1..] == Le(n - 1, u / 256);
    }
  }

  lemma {:induction false} FromLeRoundTrip(b: Bytes)
    ensures FromLe(b) < Span(|b|) && Le(|b|, FromLe(b)) == b
  {
    if b != [] {
      var rest := FromLe(b[1..]);
      FromLeRoundTrip(b[1..]);
      assert (b[0] + 256 * rest) % 256 == b[0] && (b[0] + 256 * rest) / 256 == rest;
    }
  }

  lemma Spans()
    ensures Span(4) == UINT32_SPAN && Span(8) == UINT64_SPAN
  {
    assert Span(4) == 256 * (256 * (256 * (256 * Span(0))));
    assert Span(8) == 256 * (256 * (256 * (256 * Span(4))));
  }

  /** The cast of an int64 to uint64, and back. */
  function Unsigned(i: int): nat
    requires IsInt64(i)
  {
    if i < 0 then i + UINT64_SPAN else i
  }

  function Signed(u: nat): int
    requires u < UINT64_SPAN
  {
    if u < INT64_HALF then u else u - UINT64_SPAN
  }

  method PutU32(p: array<Octet>, off: nat, v: nat)
    requires off + 4 <= p.Length && v < UINT32_SPAN
    modifies p
    ensures p[..] == old(p[..off]) + Le(4, v) + old(p[off + 4..])
  {
    p[off] := v % 256;
    p[off + 1] := v / 256 % 256;
    p[off + 2] := v / 256 / 256 % 256;
    p[off + 3] := v / 256 / 256 / 256 % 256;
    assert Le(1, v / 256 / 256 / 256) == [v / 256 / 256 / 256 % 256] + Le(0, v / 256 / 256 / 256 / 256);
    assert Le(2, v / 256 / 256) == [v / 256 / 256 % 256] + Le(1, v / 256 / 256 / 256);
    assert Le(3, v / 256) == [v / 256 % 256] + Le(2, v / 256 / 256);
    assert Le(4, v) == [v % 256] + Le(3, v / 256);
  }

  // ----- Encoding and decoding -----

  /** The value column of a scalar; the length field keeps only 32 bits of the payload size. */
  function Encode(x: Scalar): Bytes
    requires x.Int? ==> IsInt64(x.i)
  {
    match x
    case Str(s) => [TAG_STRING] + Le(4, |s| % UINT32_SPAN) + s
    case Int(i) => [TAG_INT] + Le(4, 8) + Le(8, Unsigned(i))
  }

  /** `u` shifted right by `i` octets. */
  function Shifted(u: nat, i: nat): nat
    decreases i
  {
    if i == 0 then u else Shifted(u / 256, i - 1)
  }

  lemma {:induction false} LeOctet(n: nat, u: nat, i: nat)
    requires i < n
    ensures Le(n, u)[i] == Shifted(u, i) % 256
  {
    if i > 0 {
      LeOctet(n - 1, u / 256, i - 1);
    }
  }

  lemma LengthOctets(raw: Bytes, n: nat)
    requires 5 <= |raw| && raw[1..5] == Le(4, n)
    ensures raw[1] == n % 256 && raw[2] == n / 256 % 256 && raw[3] == n / 256 / 256 % 256 && raw[4] == n / 256 / 256 / 256 % 256
  {
    var b := raw[1..5];
    assert raw[1] == b[0] && raw[2] == b[1] && raw[3] == b[2] && raw[4] == b[3];
    assert Le(4, n)[1..] == Le(3, n / 256) && Le(3, n / 256)[1..] == Le(2, n / 256 / 256);
    assert Le(2, n / 256 / 256)[1..] == Le(1, n / 256 / 256 / 256);
    assert b[1] == b[1..][0] && b[2] == b[1..][1..][0] && b[3] == b[1..][1..][1..][0];
  }

  /** The bytes of a column: tag 1 or 2, four octets of length with the low one first, then the payload. */
  lemma EncodedLayout(x: Scalar)
    requires x.Int? ==> IsInt64(x.i)
    ensures var raw, n := Encode(x), if x.Str? then |x.bytes| % 0x1_0000_0000 else 8;
            && |raw| == 5 + (if x.Str? then |x.bytes| else 8)
            && raw[0] == (if x.Str? then 1 else 2)
            && raw[1] == n % 256 && raw[2] == n / 256 % 256 && raw[3] == n / 256 / 256 % 256 && raw[4] == n / 256 / 256 / 256 % 256
            && (x.Str? ==> raw[5..] == x.bytes)
  {
    var n := if x.Str? then |x.bytes| % UINT32_SPAN else 8;
    assert Encode(x)[1..5] == Le(4, n);
    LengthOctets(Encode(x), n);
  }

  /** The payload of an integer: the eight octets of its two's complement, the low one first. */
  lemma EncodedInt(i: int, j: nat)
    requires IsInt64(i) && j < 8
    ensures |Encode(Int(i))| == 13 && Encode(Int(i))[5 + j] == Shifted(if i < 0 then i + 0x1_0000_0000_0000_0000 else i, j) % 256
  {
    var raw := Encode(Int(i));
    assert raw[5..] == Le(8, Unsigned(i));
    LeOctet(8, Unsigned(i), j);
    assert raw[5 + j] == raw[5..][j];
  }

  /** Common header validation: tag and exact declared length. */
  function DecodeHeader(raw: Bytes, tag: Octet): Option<Bytes> {
    if |raw| < HEADER_SIZE then None
    else if raw[0] != tag then None
    else if FromLe(raw[1..HEADER_SIZE]) + HEADER_SIZE != |raw| then None
    else Some(raw[HEADER_SIZE..])
  }

  function DecodeString(raw: Bytes): Option<Bytes> {
    DecodeHeader(raw, TAG_STRING)
  }

  function DecodeInt(raw: Bytes): Option<int> {
    match DecodeHeader(raw, TAG_INT)
    case None => None
    case Some(payload) =>
      if |payload| != 8 then None
      else
        FromLeRoundTrip(payload); Spans();
        Some(Signed(FromLe(payload)))
  }

  /** Decoding undoes encoding exactly for the strings whose length fits the header. */
  lemma StringRoundTrip(s: Bytes)
    ensures DecodeString(Encode(Str(s))) == Some(s) <==> |s| < UINT32_SPAN
    ensures DecodeInt(Encode(Str(s))).None?
  {
    var raw, len := Encode(Str(s)), |s| % UINT32_SPAN;
    assert raw[1..HEADER_SIZE] == Le(4, len) && raw[HEADER_SIZE..] == s;
    Spans();
    LeRoundTrip(4, len);
  }

  lemma IntRoundTrip(i: int)
    requires IsInt64(i)
    ensures DecodeInt(Encode(Int(i))) == Some(i)
    ensures DecodeString(Encode(Int(i))).None?
  {
    var raw := Encode(Int(i));
    assert raw[1..HEADER_SIZE] == Le(4, 8) && raw[HEADER_SIZE..] == Le(8, Unsigned(i));
    Spans();
    LeRoundTrip(4, 8);
    LeRoundTrip(8, Unsigned(i));
  }

  lemma HeaderIsCanonical(raw: Bytes, tag: Octet)
    requires DecodeHeader(raw, tag).Some?
    ensures var payload := DecodeHeader(raw, tag).value;
            |payload| < UINT32_SPAN && raw == [tag] + Le(4, |payload|) + payload
  {
    FromLeRoundTrip(raw[1..HEADER_SIZE]);
    Spans();
    assert raw == [raw[0]] + raw[1..HEADER_SIZE] + raw[HEADER_SIZE..];
  }

  /** Every accepted byte string is the encoding of its result: no two columns mean the same value. */
  lemma AcceptedIsEncoding(raw: Bytes)
    ensures DecodeString(raw).Some? ==> raw == Encode(Str(DecodeString(raw).value))
    ensures DecodeInt(raw).Some? ==> IsInt64(DecodeInt(raw).value) && raw == Encode(Int(DecodeInt(raw).value))
  {
    if DecodeString(raw).Some? {
      HeaderIsCanonical(raw, TAG_STRING);
    }
    if DecodeInt(raw).Some? {
      HeaderIsCanonical(raw, TAG_INT);
      var payload := DecodeHeader(raw, TAG_INT).value;
      FromLeRoundTrip(payload);
      Spans();
      assert Unsigned(Signed(FromLe(payload))) == FromLe(payload);
    }
  }

  /** pg_redis_encode_value for a string: header written in place, then the payload copied. */
  method EncodeString(s: Bytes) returns (out: array<Octet>)
    ensures fresh(out) && out[..] == Encode(Str(s))
  {
    out := new Octet[HEADER_SIZE + |s|](_ => 0);
    out[0] := TAG_STRING;
    PutU32(out, 1, |s| % UINT32_SPAN);
    ghost var header := [TAG_STRING] + Le(4, |s| % UINT32_SPAN);
    assert out[..HEADER_SIZE] == header;
    for i := 0 to |s|
      invariant out[..HEADER_SIZE] == header
      invariant out[HEADER_SIZE..HEADER_SIZE + i] == s[..i]
    {
      out[HEADER_SIZE + i] := s[i];
    }
    assert out[..] == out[..HEADER_SIZE] + out[HEADER_SIZE..HEADER_SIZE + |s|];
  }
}

/** Ring events on the wire (src/dirty_ring.c): [key][field][value], inline or spilled to one DSA chunk. */
module WireEvents {
  import opened Base
  import opened Dsa

  const INLINE_BYTES := 256
  const UINT16_SPAN := 0x1_0000

  datatype EventType = KEY_UPSERT | KEY_DELETE | HASH_FIELD_UPSERT | HASH_FIELD_DELETE | LIST_ITEM_INSERT | LIST_ITEM_DELETE

  class WireEvent {
    var kind: EventType
    var keyLen: nat
    var fieldLen: nat
    var valueLen: nat
    var ord: int
    var overflow: bool
    var payload: Ptr
    const inline: array<Octet>

    constructor ()
      ensures inline.Length == INLINE_BYTES && fresh(inline)
    {
      kind, keyLen, fieldLen, valueLen, ord := KEY_DELETE, 0, 0, 0, 0;
      overflow, payload := false, INVALID;
      inline := new Octet[INLINE_BYTES](_ => 0);
    }

    /** What the decoders read: the spilled chunk or the inline buffer. */
    function Base(chunks: map<Ptr, Chunk>): Bytes
      reads this, inline
    {
      if overflow
      then if payload in chunks && chunks[payload].Data? then chunks[payload].bytes else []
      else inline[..]
    }

    /**
     All six encoders: truncate the lengths to 16 bits, then lay the parts out
     inline, or in one chunk when they exceed the inline budget. Inline bytes
     past the payload keep whatever was there.
     */
    method Encode(arena: Arena, kind: EventType, key: Bytes, field: Bytes, value: Bytes, ord: int) returns (ok: bool)
      requires arena.Valid() && inline.Length == INLINE_BYTES
      modifies this, inline, arena
      ensures arena.Valid()
      ensures ok ==>
        && this.kind == kind && this.ord == ord
        && keyLen == |key| % UINT16_SPAN && fieldLen == |field| % UINT16_SPAN && valueLen == |value| % UINT16_SPAN
        && key + field + value <= Base(arena.chunks)
        && (overflow <==> |key| + |field| + |value| > 256)
        && (overflow ==> payload !in old(arena.chunks) && arena.chunks == old(arena.chunks)[payload := Data(key + field + value)])
      ensures !ok || !overflow ==> arena.chunks == old(arena.chunks)
      ensures arena.failures == old(arena.failures) + if ok then 0 else 1
    {
      this.kind, this.ord := kind, ord;
      keyLen, fieldLen, valueLen := |key| % UINT16_SPAN, |field| % UINT16_SPAN, |value| % UINT16_SPAN;
      overflow, payload := false, INVALID;
      if |key| + |field| + |value| > INLINE_BYTES {
        payload := arena.Alloc(Data(key + field + value));
        overflow := payload != INVALID;
        return overflow;
      }
      CopyAll(key, field, value);
      return true;
    }

    /** The three copies, one behind the other. */
    method CopyAll(key: Bytes, field: Bytes, value: Bytes)
      requires |key| + |field| + |value| <= inline.Length
      modifies inline
      ensures key + field + value <= inline[..]
    {
      Copy(0, key);
      Copy(|key|, field);
      Copy(|key| + |field|, value);
      var all := key + field + value;
      assert all == inline[..|all|] == inline[..][..|all|];
    }

    /** memcpy into the inline buffer. */
    method Copy(off: nat, part: Bytes)
      requires off + |part| <= inline.Length
      modifies inline
      ensures inline[..off + |part|] == old(inline[..off]) + part
    {
      for i := 0 to |part|
        invariant inline[..off] == old(inline[..off])
        invariant inline[off..off + i] == part[..i]
      {
        inline[off + i] := part[i];
      }
      assert inline[..off + |part|] == inline[..off] + inline[off..off + |part|];
    }
  }

  // ----- Decoders: slices of the payload at the recorded lengths -----

  function DecodeKey(base: Bytes, keyLen: nat): Bytes
    requires keyLen <= |base|
  {
    base[..keyLen]
  }

  function DecodeField(base: Bytes, keyLen: nat, fieldLen: nat): Bytes
    requires keyLen + fieldLen <= |base|
  {
    base[keyLen..keyLen + fieldLen]
  }

  function DecodeValue(base: Bytes, keyLen: nat, fieldLen: nat, valueLen: nat): Bytes
    requires keyLen + fieldLen + valueLen <= |base|
  {
    base[keyLen + fieldLen..keyLen + fieldLen + valueLen]
  }

  /** The decoders recover all three parts exactly when each length fits 16 bits. */
  lemma EventRoundTrip(key: Bytes, field: Bytes, value: Bytes, base: Bytes)
    requires key + field + value <= base
    ensures var kl, fl, vl := |key| % UINT16_SPAN, |field| % UINT16_SPAN, |value| % UINT16_SPAN;
            && kl + fl + vl <= |base|
            && ((DecodeKey(base, kl) == key && DecodeField(base, kl, fl) == field && DecodeValue(base, kl, fl, vl) == value)
                <==> |key| <= UINT16_MAX && |field| <= UINT16_MAX && |value| <= UINT16_MAX)
  {
    var all := key + field + value;
    assert base[..|all|] == all;
    if |key| <= UINT16_MAX && |field| <= UINT16_MAX && |value| <= UINT16_MAX {
      assert base[..|key|] == all[..|key|] == key;
      assert base[|key|..|key| + |field|] == all[|key|..|key| + |field|] == field;
      assert base[|key| + |field|..|all|] == all[|key| + |field|..] == value;
    }
  }
}
