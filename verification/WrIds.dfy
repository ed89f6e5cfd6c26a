/** Work-request identifiers in their 64-bit form, and where receive slots lie. */
module WrIds {
  import opened Basics
  import opened StreamState

  /** 2^60: the four bits above an index are flags. */
  const INDEX_RANGE := 1152921504606846976
  const SEND_FLAG := 8 * INDEX_RANGE
  const CTRL_FLAG := 4 * INDEX_RANGE
  const WRITE_FLAG := 2 * INDEX_RANGE
  const IMM_FLAG := INDEX_RANGE
  const HS_RECV_WR_ID := U64_MAX
  const HS_SEND_WR_ID := U64_MAX - 1

  function Index(id: WrId): nat {
    match id
    case RecvId(s) => s
    case SendId(s) => s
    case CtrlId(s) => s
    case WriteId(c) => c
    case ImmWriteId(c) => c
  }

  /** The constructors `recv_wr_id` to `imm_write_wr_id`. The flags and the index have no
      bit in common, so the bitwise or is a sum. */
  function Wire(id: WrId): nat {
    match id
    case RecvId(s) => s
    case SendId(s) => SEND_FLAG + s
    case CtrlId(s) => SEND_FLAG + CTRL_FLAG + s
    case WriteId(c) => WRITE_FLAG + c
    case ImmWriteId(c) => WRITE_FLAG + IMM_FLAG + c
  }

  /** The four flag bits. */
  function Flags(w: nat): nat { w / INDEX_RANGE }

  predicate IsSend(w: nat) { Flags(w) / 8 % 2 == 1 }

  predicate IsCtrlSend(w: nat) { Flags(w) / 4 % 2 == 1 }

  predicate IsWrite(w: nat) { Flags(w) / 2 % 2 == 1 }

  predicate IsImmWrite(w: nat) { Flags(w) % 2 == 1 }

  function SlotOf(w: nat): nat { w % INDEX_RANGE }

  /** How `handle_completion` and `reclaim_send` tell the classes apart. */
  function Classify(w: nat): WrId {
    if IsWrite(w) then (if IsImmWrite(w) then ImmWriteId(SlotOf(w)) else WriteId(SlotOf(w)))
    else if IsSend(w) then (if IsCtrlSend(w) then CtrlId(SlotOf(w)) else SendId(SlotOf(w)))
    else RecvId(SlotOf(w))
  }

  lemma FlagsAndIndex(flags: nat, x: nat)
    requires flags < 16 && x < INDEX_RANGE
    ensures Flags(flags * INDEX_RANGE + x) == flags && SlotOf(flags * INDEX_RANGE + x) == x
    ensures flags * INDEX_RANGE + x <= U64_MAX
  {
  }

  /** The classes are disjoint and invert: every identifier whose index leaves the flag
      bits free is taken for what it is, so no two share a wire form, and none is a
      handshake's. */
  lemma WrIdRoundTrip(id: WrId)
    requires Index(id) < INDEX_RANGE
    ensures Classify(Wire(id)) == id && Wire(id) <= U64_MAX
    ensures Wire(id) != HS_RECV_WR_ID && Wire(id) != HS_SEND_WR_ID
  {
    hide Flags, SlotOf;
    match id {
      case RecvId(s) => FlagsAndIndex(0, s);
      case SendId(s) => FlagsAndIndex(8, s);
      case CtrlId(s) => FlagsAndIndex(12, s);
      case WriteId(c) => FlagsAndIndex(2, c);
      case ImmWriteId(c) => FlagsAndIndex(3, c);
    }
  }

  // ---- receive slots --------------------------------------------------------------

  datatype Region = Base | Split

  /** Part of a registered region. */
  datatype Range = Range(region: Region, start: nat, len: nat)

  /** `recv_slot`: slots below `base` lie in the eager region, the others in the split
      region. */
  function RecvRange(base: nat, msgSize: nat, slot: nat): Range {
    if slot < base then Range(Base, slot * msgSize, msgSize) else Range(Split, (slot - base) * msgSize, msgSize)
  }

  predicate Apart(r: Range, s: Range) {
    r.region != s.region || r.start + r.len <= s.start || s.start + s.len <= r.start
  }

  lemma {:induction false} Below(i: nat, n: nat, size: nat)
    requires i < n
    ensures i * size + size <= n * size
  {
    assert n * size == (n - 1) * size + size;
    if i < n - 1 {
      Below(i, n - 1, size);
    }
  }

  /** Every slot lies inside its region, and no two overlap. */
  lemma RecvRangesDisjoint(p: Params, slot: nat, other: nat)
    requires slot < p.Slots() && other < p.Slots()
    ensures var base := p.pool + CTRL_RECV_SLACK;
      var r := RecvRange(base, p.msgSize, slot);
      && r.start + r.len <= (if r.region.Base? then base else p.split) * p.msgSize
      && (slot != other ==> Apart(r, RecvRange(base, p.msgSize, other)))
  {
    var base := p.pool + CTRL_RECV_SLACK;
    var i, j := if slot < base then slot else slot - base, if other < base then other else other - base;
    Below(i, if slot < base then base else p.split, p.msgSize);
    if i < j {
      Below(i, j, p.msgSize);
    } else if j < i {
      Below(j, i, p.msgSize);
    }
  }
}
