/** The message envelope (section 12.2 of the HORD specification): eight big-endian
    bytes in front of every RDMA send. */
module EnvelopeCodec {
  import opened Basics

  const ENVELOPE_LEN := 8
  const CREDIT_ONLY := 1

  datatype Envelope = Envelope(length: nat, credits: nat, flags: nat) {
    /** The field widths of the wire form: `u32`, `u16`, `u16`. */
    predicate Valid() { length <= U32_MAX && credits <= U16_MAX && flags <= U16_MAX }

    /** `flags & CREDIT_ONLY != 0`: bit zero of the flags. */
    predicate IsCreditOnly() { flags % 2 == 1 }
  }

  /** `u16::to_be_bytes`. */
  function Be16(x: nat): (b: seq<byte>)
    requires x <= U16_MAX
    ensures |b| == 2
  {
    [x / 256, x % 256]
  }

  /** `u32::to_be_bytes`. */
  function Be32(x: nat): (b: seq<byte>)
    requires x <= U32_MAX
    ensures |b| == 4
  {
    [x / 16777216, x / 65536 % 256, x / 256 % 256, x % 256]
  }

  function FromBe16(b: seq<byte>): (x: nat)
    requires |b| == 2
    ensures x <= U16_MAX
  {
    b[0] as int * 256 + b[1]
  }

  function FromBe32(b: seq<byte>): (x: nat)
    requires |b| == 4
    ensures x <= U32_MAX
  {
    ((b[0] as int * 256 + b[1]) * 256 + b[2]) * 256 + b[3]
  }

  lemma BigEndian16(x: nat, b: seq<byte>)
    requires x <= U16_MAX && |b| == 2
    ensures FromBe16(Be16(x)) == x
    ensures Be16(FromBe16(b)) == b
  {
  }

  lemma BigEndian32(x: nat, b: seq<byte>)
    requires x <= U32_MAX && |b| == 4
    ensures FromBe32(Be32(x)) == x
    ensures Be32(FromBe32(b)) == b
  {
    assert x / 65536 == x / 256 / 256 && x / 16777216 == x / 65536 / 256;
    var y := FromBe32(b);
    assert y / 256 == (b[0] as int * 256 + b[1]) * 256 + b[2];
    assert y / 65536 == y / 256 / 256 == b[0] as int * 256 + b[1];
    assert y / 16777216 == y / 65536 / 256 == b[0];
  }

  function Encode(e: Envelope): (b: seq<byte>)
    requires e.Valid()
    ensures |b| == ENVELOPE_LEN
  {
    Be32(e.length) + Be16(e.credits) + Be16(e.flags)
  }

  function Decode(b: seq<byte>): (e: Envelope)
    requires |b| >= ENVELOPE_LEN
    ensures e.Valid()
  {
    Envelope(FromBe32(b[0..4]), FromBe16(b[4..6]), FromBe16(b[6..8]))
  }

  /** The wire form by position, most significant byte first. */
  lemma EnvelopeLayout(e: Envelope)
    requires e.Valid()
    ensures var b := Encode(e);
      && b[0] as int * 0x1000000 + b[1] as int * 0x10000 + b[2] as int * 0x100 + b[3] as int == e.length
      && b[4] as int * 0x100 + b[5] as int == e.credits && b[6] as int * 0x100 + b[7] as int == e.flags
  {
    BytesOf32(e.length);
    BytesOf16(e.credits);
    BytesOf16(e.flags);
    hide Be32, Be16;
  }

  lemma BytesOf16(x: nat)
    requires x <= U16_MAX
    ensures var b := Be16(x); b[0] as int * 0x100 + b[1] as int == x
  {
    BigEndian16(x, Be16(x));
  }

  lemma BytesOf32(x: nat)
    requires x <= U32_MAX
    ensures var b := Be32(x); b[0] as int * 0x1000000 + b[1] as int * 0x10000 + b[2] as int * 0x100 + b[3] as int == x
  {
    BigEndian32(x, Be32(x));
    var b := Be32(x);
    hide Be32;
    assert FromBe32(b) == ((b[0] as int * 256 + b[1] as int) * 256 + b[2] as int) * 256 + b[3] as int;
  }

  /** `Envelope::encode` writes the header into the front of the caller's buffer and
      leaves the rest of the buffer alone. */
  method EncodeInto(e: Envelope, out: array<byte>)
    requires e.Valid() && out.Length >= ENVELOPE_LEN
    modifies out
    ensures Decode(out[..]) == e
    ensures out[ENVELOPE_LEN..] == old(out[ENVELOPE_LEN..])
  {
    var bytes := Encode(e);
    for i := 0 to ENVELOPE_LEN
      invariant out[..i] == bytes[..i]
      invariant out[ENVELOPE_LEN..] == old(out[ENVELOPE_LEN..])
    {
      out[i] := bytes[i];
    }
    FrameRoundTrip(e, out[ENVELOPE_LEN..]);
    assert out[..] == bytes + out[ENVELOPE_LEN..];
  }

  /** Header and payload survive the trip through a slot of registered memory,
      whatever the payload is, and the header is the only eight bytes that decode
      to that envelope. */
  lemma FrameRoundTrip(e: Envelope, payload: seq<byte>)
    requires e.Valid()
    ensures Decode(Encode(e) + payload) == e
    ensures (Encode(e) + payload)[ENVELOPE_LEN..] == payload
  {
    var b := Encode(e) + payload;
    assert b[0..4] == Be32(e.length) && b[4..6] == Be16(e.credits) && b[6..8] == Be16(e.flags);
    BigEndian32(e.length, b[0..4]);
    BigEndian16(e.credits, b[4..6]);
    BigEndian16(e.flags, b[6..8]);
  }

  /** The other direction: no two headers share a wire form. */
  lemma DecodeRoundTrip(b: seq<byte>)
    requires |b| >= ENVELOPE_LEN
    ensures Encode(Decode(b)) == b[..ENVELOPE_LEN]
  {
    BigEndian32(0, b[0..4]);
    BigEndian16(0, b[4..6]);
    BigEndian16(0, b[6..8]);
    assert b[0..4] + b[4..6] + b[6..8] == b[..ENVELOPE_LEN];
  }
}
