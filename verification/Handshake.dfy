/** The first-message handshake: its wire form and its capability flags. */
module HandshakeCodec {
  import opened Basics
  import opened EnvelopeCodec

  const MAGIC := 0x484F5244
  const VERSION := 1
  const HANDSHAKE_LEN := 16
  const LEGACY_LEN := 14

  datatype HandshakeError = TooShort | BadMagic | BadVersion

  /** `flags` as a `u16`: bit zero is zero-copy, bit one is split mode. */
  datatype Handshake = Handshake(version: nat, flags: nat, maxMessageSize: nat, maxRecvBuffers: nat, splitCredits: nat) {
    predicate Valid() {
      && version <= U16_MAX && flags <= U16_MAX && maxMessageSize <= U32_MAX && maxRecvBuffers <= U16_MAX
      && splitCredits <= U16_MAX
    }

    predicate ZeroCopyCapable() { flags % 2 == 1 }

    predicate SplitModeCapable() { flags / 2 % 2 == 1 }

    /** Sets or clears bit zero; the others stay. */
    function WithZeroCopy(on: bool): (h: Handshake)
      ensures h.ZeroCopyCapable() == on && h.SplitModeCapable() == SplitModeCapable()
      ensures h.flags / 4 == flags / 4 && h == this.(flags := h.flags) && (Valid() ==> h.Valid())
    {
      Bits(flags / 4, flags / 2 % 2, flags % 2);
      Bits(flags / 4, flags / 2 % 2, if on then 1 else 0);
      this.(flags := flags / 4 * 4 + flags / 2 % 2 * 2 + if on then 1 else 0)
    }

    /** Sets or clears bit one; the others stay. */
    function WithSplitMode(on: bool): (h: Handshake)
      ensures h.SplitModeCapable() == on && h.ZeroCopyCapable() == ZeroCopyCapable()
      ensures h.flags / 4 == flags / 4 && h == this.(flags := h.flags) && (Valid() ==> h.Valid())
    {
      Bits(flags / 4, flags / 2 % 2, flags % 2);
      Bits(flags / 4, if on then 1 else 0, flags % 2);
      this.(flags := flags / 4 * 4 + (if on then 2 else 0) + flags % 2)
    }
  }

  lemma Bits(high: nat, one: nat, zero: nat)
    requires one <= 1 && zero <= 1
    ensures var f := high * 4 + one * 2 + zero; f % 2 == zero && f / 2 % 2 == one && f / 4 == high
  {
    var f := high * 4 + one * 2 + zero;
    assert f / 2 == high * 2 + one;
  }

  function New(maxMessageSize: nat, maxRecvBuffers: nat): Handshake {
    Handshake(VERSION, 0, maxMessageSize, maxRecvBuffers, 0)
  }

  function Encode(h: Handshake): (b: seq<byte>)
    requires h.Valid()
    ensures |b| == HANDSHAKE_LEN
  {
    Be32(MAGIC) + Be16(h.version) + Be16(h.flags) + Be32(h.maxMessageSize) + Be16(h.maxRecvBuffers) + Be16(h.splitCredits)
  }

  /** `Handshake::decode`: shorter than fourteen bytes, a foreign magic and another
      version are refused; a fourteen-byte frame has no transfer credits. */
  function Decode(b: seq<byte>): (r: Result<Handshake, HandshakeError>)
    ensures r.Ok? <==> |b| >= LEGACY_LEN && b[0..4] == Be32(MAGIC) && b[4..6] == Be16(VERSION)
    ensures r == Err(TooShort) <==> |b| < LEGACY_LEN
    ensures r == Err(BadMagic) <==> |b| >= LEGACY_LEN && b[0..4] != Be32(MAGIC)
    ensures r.Ok? ==> r.value.Valid() && r.value.version == VERSION
  {
    if |b| < LEGACY_LEN then Err(TooShort)
    else if FromBe32(b[0..4]) != MAGIC then NotEqual32(b[0..4]); Err(BadMagic)
    else if FromBe16(b[4..6]) != VERSION then Err(BadVersion)
    else
      BigEndian32(MAGIC, b[0..4]);
      BigEndian16(VERSION, b[4..6]);
      Ok(Handshake(FromBe16(b[4..6]), FromBe16(b[6..8]), FromBe32(b[8..12]), FromBe16(b[12..14]),
                   if |b| >= HANDSHAKE_LEN then FromBe16(b[14..16]) else 0))
  }

  lemma NotEqual32(b: seq<byte>)
    requires |b| == 4 && FromBe32(b) != MAGIC
    ensures b != Be32(MAGIC)
  {
    BigEndian32(MAGIC, b);
  }

  /** `encode` fills its sixteen bytes in place. */
  method EncodeArray(h: Handshake) returns (b: array<byte>)
    requires h.Valid()
    ensures fresh(b) && b.Length == HANDSHAKE_LEN && b[..] == Encode(h)
  {
    b := new byte[HANDSHAKE_LEN](_ => 0);
    CopyInto(b, 0, Be32(MAGIC));
    CopyInto(b, 4, Be16(h.version));
    CopyInto(b, 6, Be16(h.flags));
    CopyInto(b, 8, Be32(h.maxMessageSize));
    CopyInto(b, 12, Be16(h.maxRecvBuffers));
    CopyInto(b, 14, Be16(h.splitCredits));
  }

  /** The fields of any frame that starts with an encoded handshake. */
  lemma EncodedFields(h: Handshake)
    requires h.Valid()
    ensures var b := Encode(h);
      && b[0..4] == Be32(MAGIC) && b[4..6] == Be16(h.version) && b[6..8] == Be16(h.flags)
      && b[8..12] == Be32(h.maxMessageSize) && b[12..14] == Be16(h.maxRecvBuffers) && b[14..16] == Be16(h.splitCredits)
  {
  }

  /** The wire form by position, most significant byte first; it starts with the letters
      HORD. */
  lemma HandshakeLayout(h: Handshake)
    requires h.Valid()
    ensures var b := Encode(h);
      && b[0..4] == [0x48, 0x4F, 0x52, 0x44] && b[0..4] == ['H' as byte, 'O' as byte, 'R' as byte, 'D' as byte]
      && b[4] as int * 0x100 + b[5] as int == h.version && b[6] as int * 0x100 + b[7] as int == h.flags
      && b[8] as int * 0x1000000 + b[9] as int * 0x10000 + b[10] as int * 0x100 + b[11] as int == h.maxMessageSize
      && b[12] as int * 0x100 + b[13] as int == h.maxRecvBuffers && b[14] as int * 0x100 + b[15] as int == h.splitCredits
  {
    assert Be32(MAGIC) == [0x48, 0x4F, 0x52, 0x44];
    BytesOf16(h.version);
    BytesOf16(h.flags);
    BytesOf32(h.maxMessageSize);
    BytesOf16(h.maxRecvBuffers);
    BytesOf16(h.splitCredits);
    hide Be32, Be16;
  }

  /** A handshake survives the wire, and a frame cut to fourteen bytes decodes to the same
      handshake without transfer credits. */
  lemma HandshakeRoundTrip(h: Handshake)
    requires h.Valid() && h.version == VERSION
    ensures Decode(Encode(h)) == Ok(h)
    ensures Decode(Encode(h)[..LEGACY_LEN]) == Ok(h.(splitCredits := 0))
  {
    hide Encode, FromBe32, FromBe16, Be32, Be16;
    var b := Encode(h);
    var legacy := b[..LEGACY_LEN];
    EncodedFields(h);
    BigEndian32(h.maxMessageSize, b[8..12]);
    BigEndian32(MAGIC, b[0..4]);
    BigEndian16(h.version, b[4..6]);
    BigEndian16(h.flags, b[6..8]);
    BigEndian16(h.maxRecvBuffers, b[12..14]);
    BigEndian16(h.splitCredits, b[14..16]);
    assert legacy[0..4] == b[0..4] && legacy[4..6] == b[4..6] && legacy[6..8] == b[6..8];
    assert legacy[8..12] == b[8..12] && legacy[12..14] == b[12..14];
  }

  /** The other direction: what decodes is what was encoded. */
  lemma HandshakeInverse(b: seq<byte>)
    requires |b| >= HANDSHAKE_LEN && Decode(b).Ok?
    ensures Encode(Decode(b).value) == b[..HANDSHAKE_LEN]
  {
    hide FromBe32, FromBe16, Be32, Be16;
    BigEndian32(MAGIC, b[0..4]);
    BigEndian32(0, b[8..12]);
    BigEndian16(0, b[4..6]);
    BigEndian16(0, b[6..8]);
    BigEndian16(0, b[12..14]);
    BigEndian16(0, b[14..16]);
    assert b[0..4] + b[4..6] + b[6..8] + b[8..12] + b[12..14] + b[14..16] == b[..HANDSHAKE_LEN];
  }
}
