/** What two ends agree on by exchanging handshakes. */
module Negotiation {
  import opened Basics
  import opened EnvelopeCodec
  import opened HandshakeCodec
  import opened StreamState
  import opened StreamRuns

  const U32_RANGE := 4294967296
  const U16_RANGE := 65536

  datatype HordConfig = HordConfig(maxMessageSize: nat, recvPool: nat, sendPool: nat,
                                   zeroCopy: bool, splitMode: bool, splitCredits: nat) {
    /** A configuration inside the widths of the wire form. */
    predicate Valid() {
      && ENVELOPE_LEN < maxMessageSize < U32_RANGE && 1 <= recvPool < U16_RANGE && 1 <= sendPool
      && (splitMode ==> splitCredits >= 1)
    }

    /** `split_slack`: the receive slots kept for split transfers. */
    function SplitSlack(): nat { if splitMode then splitCredits else 0 }
  }

  /** `my_handshake`. The two sizes are cast to their wire widths, which drops high bits;
      the transfer window saturates. */
  function MyHandshake(c: HordConfig): (h: Handshake)
    ensures h.Valid() && h.version == VERSION && h.ZeroCopyCapable() == c.zeroCopy
    ensures h.SplitModeCapable() == (c.splitMode && c.zeroCopy && c.splitCredits > 0)
    ensures h.splitCredits == if !h.SplitModeCapable() then 0 else if c.splitCredits < U16_RANGE then c.splitCredits else U16_RANGE - 1
    ensures if c.maxMessageSize < U32_RANGE then h.maxMessageSize == c.maxMessageSize else h.maxMessageSize < U32_RANGE
    ensures h.maxRecvBuffers <= c.recvPool && (h.maxRecvBuffers == c.recvPool <==> c.recvPool < U16_RANGE)
  {
    var credits := Min(c.splitCredits, U16_MAX);
    var split := c.splitMode && c.zeroCopy && credits > 0;
    New(c.maxMessageSize % U32_RANGE, c.recvPool % U16_RANGE).WithZeroCopy(c.zeroCopy).WithSplitMode(split)
    .(splitCredits := if split then credits else 0)
  }

  /** `negotiate_split`. */
  predicate NegotiateSplit(local: bool, zeroCopy: bool, peer: Handshake) {
    local && zeroCopy && peer.SplitModeCapable() && peer.splitCredits > 0
  }

  /** What `apply_peer` fixes. */
  datatype Negotiated = Negotiated(cap: nat, sendCredits: nat, zeroCopy: bool, split: bool, peerSplit: nat, headroom: nat)

  function ApplyPeer(c: HordConfig, peer: Handshake): Option<Negotiated> {
    var effective := Min(c.maxMessageSize, peer.maxMessageSize);
    if effective <= ENVELOPE_LEN then None
    else
      var zeroCopy := c.zeroCopy && peer.ZeroCopyCapable();
      var split := NegotiateSplit(c.splitMode, zeroCopy, peer);
      Some(Negotiated(effective - ENVELOPE_LEN, peer.maxRecvBuffers, zeroCopy, split, peer.splitCredits,
                      if split then c.SplitSlack() else 0))
  }

  /** The result at the end configured `c` of receiving the other end's bytes. */
  function Receives(c: HordConfig, wire: seq<byte>): Option<Negotiated> {
    var peer := HandshakeCodec.Decode(wire);
    if peer.Ok? then ApplyPeer(c, peer.value) else None
  }

  function Exchange(a: HordConfig, b: HordConfig): Option<Negotiated> {
    Receives(a, HandshakeCodec.Encode(MyHandshake(b)))
  }

  lemma ExchangeIs(a: HordConfig, b: HordConfig)
    ensures Exchange(a, b) == ApplyPeer(a, MyHandshake(b))
  {
    hide MyHandshake, HandshakeCodec.Encode, HandshakeCodec.Decode, ApplyPeer;
    HandshakeRoundTrip(MyHandshake(b));
  }

  /** The sizes both ends arrive at, as the casts make them. */
  predicate SizesAgree(a: nat, b: nat) {
    if a < U32_RANGE then b < U32_RANGE || a <= b % U32_RANGE
    else if b < U32_RANGE then b <= a % U32_RANGE
    else a % U32_RANGE == b % U32_RANGE
  }

  /** For any two configurations at all: an end succeeds exactly when a byte fits behind
      the envelope of what it and the other end, after the cast, can hold; and the ends use
      the same message size exactly when no cast gets in the way. */
  lemma SameMessageSize(a: HordConfig, b: HordConfig)
    ensures var x, y := Exchange(a, b), Exchange(b, a);
      && (x.Some? <==> a.maxMessageSize > ENVELOPE_LEN && b.maxMessageSize % U32_RANGE > ENVELOPE_LEN)
      && (x.Some? && y.Some? ==> (x.value.cap == y.value.cap <==> SizesAgree(a.maxMessageSize, b.maxMessageSize)))
  {
    hide Exchange, MyHandshake;
    ExchangeIs(a, b);
    ExchangeIs(b, a);
    SizeCast(a);
    SizeCast(b);
  }

  lemma SizeCast(c: HordConfig)
    ensures MyHandshake(c).maxMessageSize == c.maxMessageSize % U32_RANGE < U32_RANGE
  {
  }

  /** Two configurations beyond the cast, whose ends use different message sizes. */
  lemma SizeDisagreement()
    ensures var a, b := HordConfig(4294967396, 32, 16, true, false, 0), HordConfig(4294967496, 32, 16, true, false, 0);
      && Exchange(a, b).Some? && Exchange(b, a).Some?
      && Exchange(a, b).value.cap == 192 && Exchange(b, a).value.cap == 92
  {
    hide Exchange, MyHandshake, ApplyPeer;
    var a, b := HordConfig(4294967396, 32, 16, true, false, 0), HordConfig(4294967496, 32, 16, true, false, 0);
    ExchangeIs(a, b);
    ExchangeIs(b, a);
    SizeCast(a);
    SizeCast(b);
    ApplyIs(a, MyHandshake(b));
    ApplyIs(b, MyHandshake(a));
  }

  lemma ApplyIs(c: HordConfig, peer: Handshake)
    ensures var n := Min(c.maxMessageSize, peer.maxMessageSize);
      n > ENVELOPE_LEN ==>
        ApplyPeer(c, peer).Some? && ApplyPeer(c, peer).value.cap == n - ENVELOPE_LEN
        && ApplyPeer(c, peer).value.sendCredits == peer.maxRecvBuffers
  {
    hide NegotiateSplit;
  }

  /** For any two configurations: zero-copy is agreed always; split mode is agreed unless
      both ends ask for it, both do zero-copy, and exactly one has no transfer credits. */
  lemma SameModes(a: HordConfig, b: HordConfig)
    ensures var x, y := Exchange(a, b), Exchange(b, a);
      x.Some? && y.Some? ==>
        && x.value.zeroCopy == y.value.zeroCopy
        && (x.value.split ==> x.value.zeroCopy && x.value.peerSplit > 0)
        && (x.value.split == y.value.split <==>
              !(a.splitMode && b.splitMode && a.zeroCopy && b.zeroCopy) || (a.splitCredits > 0 <==> b.splitCredits > 0))
  {
    hide Exchange, MyHandshake;
    ExchangeIs(a, b);
    ExchangeIs(b, a);
  }

  /** Without credits of its own, an end can believe in split mode alone. */
  lemma SplitDisagreement()
    ensures var a, b := HordConfig(65536, 32, 16, true, true, 0), HordConfig(65536, 32, 16, true, true, 8);
      Exchange(a, b).Some? && Exchange(b, a).Some? && Exchange(a, b).value.split && !Exchange(b, a).value.split
  {
    hide Exchange;
    ExchangeIs(HordConfig(65536, 32, 16, true, true, 0), HordConfig(65536, 32, 16, true, true, 8));
    ExchangeIs(HordConfig(65536, 32, 16, true, true, 8), HordConfig(65536, 32, 16, true, true, 0));
  }

  /** The credits a sender starts with are the pool the receiver posted, exactly when the
      pool fits the wire field; otherwise they are fewer. */
  lemma AdvertisedWindow(a: HordConfig, b: HordConfig)
    ensures Exchange(a, b).Some? ==>
      && Exchange(a, b).value.sendCredits <= b.recvPool
      && (Exchange(a, b).value.sendCredits == b.recvPool <==> b.recvPool < U16_RANGE)
  {
    hide Exchange, MyHandshake;
    ExchangeIs(a, b);
  }

  /** A pool of 65536 buffers is advertised as none: the sender can never send. */
  lemma WindowLost()
    ensures var a, b := HordConfig(65536, 32, 16, true, false, 0), HordConfig(65536, 65536, 16, true, false, 0);
      Exchange(a, b).Some? && Exchange(b, a).Some? && Exchange(a, b).value.sendCredits == 0
  {
    hide Exchange, MyHandshake, ApplyPeer;
    var a, b := HordConfig(65536, 32, 16, true, false, 0), HordConfig(65536, 65536, 16, true, false, 0);
    ExchangeIs(a, b);
    ExchangeIs(b, a);
    PoolCast(b);
    ApplyIs(a, MyHandshake(b));
    ApplyIs(b, MyHandshake(a));
  }

  lemma PoolCast(c: HordConfig)
    ensures MyHandshake(c).maxRecvBuffers == c.recvPool % U16_RANGE
  {
  }

  function ParamsOf(c: HordConfig, n: Negotiated): Params {
    Params(c.maxMessageSize, n.cap, c.recvPool, c.sendPool, n.split, n.headroom, n.peerSplit)
  }

  /** Negotiation agreement: any two valid configurations succeed at both ends with the
      same message size and modes; split mode comes with zero-copy and with windows both
      ways that the other end's headroom covers; every message fits the receiver's
      slots; and what they end up with is where the stream protocol starts. */
  lemma HandshakeCompatible(a: HordConfig, b: HordConfig)
    requires a.Valid() && b.Valid()
    ensures var x, y := Exchange(a, b), Exchange(b, a);
      && x.Some? && y.Some?
      && Compatible(ParamsOf(a, x.value), ParamsOf(b, y.value))
      && x.value.sendCredits == b.recvPool && y.value.sendCredits == a.recvPool
      && x.value.cap == y.value.cap
      && x.value.cap + 8 == (if a.maxMessageSize <= b.maxMessageSize then a.maxMessageSize else b.maxMessageSize)
      && x.value.zeroCopy == y.value.zeroCopy == (a.zeroCopy && b.zeroCopy)
      && x.value.split == y.value.split == (a.splitMode && b.splitMode && a.zeroCopy && b.zeroCopy)
      && (x.value.split ==>
            && x.value.headroom == a.splitCredits && 1 <= x.value.peerSplit <= y.value.headroom
            && y.value.headroom == b.splitCredits && 1 <= y.value.peerSplit <= x.value.headroom
            && (b.splitCredits < U16_RANGE ==> x.value.peerSplit == b.splitCredits)
            && (a.splitCredits < U16_RANGE ==> y.value.peerSplit == a.splitCredits))
  {
    hide Exchange, MyHandshake;
    ExchangeIs(a, b);
    ExchangeIs(b, a);
  }
}
