/** Two ends joined by a reliable FIFO connection, as a state machine. */
module StreamSystem {
  import opened Basics
  import opened EnvelopeCodec
  import opened StreamState

  /** The moves of one end `p` against the other end `o`. The first group is the
      stream's own code; the second is the NIC. A send, or a write-with-immediate,
      waits at the head of the send queue until the receiver has a receive posted
      (infinite receiver-not-ready retry), takes the oldest one and completes there;
      the acknowledgement reaches the sender later. The NIC reads the send slot when
      it delivers, not when the work request is posted. */
  datatype Action =
    | Stage(bs: seq<byte>) | Post(bs: seq<byte>) | Credit | PollOne | Read(k: nat) | TakeId
    | BeginWrite(puts: seq<Put>, good: nat) | MarkClosed
    | Deliver | Ack | Kill | Accept(on: bool) | FlushSend | FlushUnacked | FlushRecv

  predicate NeedsRecv(w: WorkRequest) { w.OneSided? ==> w.put.imm.Some? }

  predicate CanBegin(p: Peer, puts: seq<Put>) {
    && !p.closed && puts != [] && ImmLast(puts)
    && CheckCapacity(p, |puts|, HasImm(puts)) == Admit
  }

  predicate CanDeliver(p: Peer, o: Peer) {
    p.alive && o.alive && p.sq != [] && (NeedsRecv(p.sq[0]) ==> o.posted != [])
  }

  predicate CanRead(p: Peer, k: nat) {
    && p.rxReady != [] && ReadyOk(p.recvMem, p.rxReady[0])
    && 1 <= k <= p.rxReady[0].end - p.rxReady[0].start
  }

  predicate Enabled(p: Peer, o: Peer, a: Action) {
    match a
    case Stage(bs) => !p.closed && bs != [] && |p.txStage| + |bs| < p.params.cap
    case Post(bs) => CanSend(p) && 1 <= |p.txStage| + |bs| <= p.params.cap
    case Credit => CanReturn(p)
    case PollOne => p.cq != []
    case Read(k) => CanRead(p, k)
    case TakeId => p.done != []
    case BeginWrite(puts, good) => CanBegin(p, puts) && good <= |puts| && (!Posts(p) ==> good == 0)
    case MarkClosed => true
    case Deliver => CanDeliver(p, o)
    case Ack => p.alive && p.unacked != []
    case Kill => true
    case Accept(_) => true
    case FlushSend => !p.alive && p.sq != []
    case FlushUnacked => !p.alive && p.unacked != []
    case FlushRecv => !p.alive && p.posted != []
  }

  /** The sender's completion of a work request. */
  function Done(w: WorkRequest, ok: bool): Completion {
    match w
    case DataSend(slot) => Completion(SendId(slot), ok, OpSend, 0, 0)
    case CtrlSend(slot) => Completion(CtrlId(slot), ok, OpSend, 0, 0)
    case OneSided(chunk, put) =>
      Completion(if put.imm.Some? then ImmWriteId(chunk) else WriteId(chunk), ok, OpRdmaWrite, 0, 0)
  }

  /** What delivering `w` out of memory `mem` does at the receiving end. */
  function Land(o: Peer, w: WorkRequest, mem: seq<Frame>): (r: Peer)
    requires NeedsRecv(w) ==> o.posted != []
    ensures r.params == o.params
  {
    match w
    case OneSided(_, put) =>
      var q := o.(landed := o.landed + [put]);
      if put.imm.None? then q
      else q.(posted := o.posted[1..],
              cq := o.cq + [Completion(RecvId(o.posted[0]), true, OpRecvRdmaWithImm, |put.data|, put.imm.value)])
    case _ =>
      var f := Cell(mem, w.slot);
      o.(posted := o.posted[1..], recvMem := Store(o.recvMem, o.posted[0], f),
         cq := o.cq + [Completion(RecvId(o.posted[0]), true, OpRecv, ENVELOPE_LEN + |f.body|, 0)])
  }

  /** One move: the new states of both ends. */
  function Do(p: Peer, o: Peer, a: Action): (r: (Peer, Peer))
    requires Enabled(p, o, a)
    ensures r.0.params == p.params && r.1.params == o.params
  {
    match a
    case Stage(bs) => (p.(txStage := p.txStage + bs, wrote := p.wrote + bs), o)
    case Post(bs) => (PostStaged(p, bs), o)
    case Credit => (CreditReturn(p), o)
    case PollOne => (Poll(p), o)
    case Read(k) => (ReadSome(p, k), o)
    case TakeId => (p.(done := p.done[1..], outIds := p.outIds + [p.done[0]]), o)
    case BeginWrite(puts, good) => (PostPuts(p, puts, good), o)
    case MarkClosed => (p.(closed := true), o)
    case Deliver => (p.(sq := p.sq[1..], unacked := p.unacked + [p.sq[0]]), Land(o, p.sq[0], p.sendMem))
    case Ack => (p.(unacked := p.unacked[1..], cq := p.cq + [Done(p.unacked[0], true)]), o)
    case Kill => (p.(alive := false), o)
    case Accept(on) => (p.(accepts := on), o)
    case FlushSend => (p.(sq := p.sq[1..], cq := p.cq + [Done(p.sq[0], false)]), o)
    case FlushUnacked => (p.(unacked := p.unacked[1..], cq := p.cq + [Done(p.unacked[0], false)]), o)
    case FlushRecv =>
      (p.(posted := p.posted[1..], cq := p.cq + [Completion(RecvId(p.posted[0]), false, OpRecv, 0, 0)]), o)
  }

  // ---- what is in each queue -------------------------------------------------

  function DataSlot(w: WorkRequest): seq<nat> { if w.DataSend? then [w.slot] else [] }

  function CtrlOf(w: WorkRequest): seq<nat> { if w.CtrlSend? then [w.slot] else [] }

  function PutOf(w: WorkRequest): seq<Put> { if w.OneSided? then [w.put] else [] }

  function ImmOf(t: Put): seq<nat> { if t.imm.Some? then [t.imm.value] else [] }

  function WrImm(w: WorkRequest): seq<nat> { if w.OneSided? then ImmOf(w.put) else [] }

  function SendDone(c: Completion): seq<nat> { if c.id.SendId? then [c.id.slot] else [] }

  function CtrlDone(c: Completion): seq<nat> { if c.id.CtrlId? then [c.id.slot] else [] }

  function WriteDone(c: Completion): seq<nat> {
    if c.id.WriteId? || c.id.ImmWriteId? then [c.id.chunk] else []
  }

  function ImmDone(c: Completion): seq<nat> { if c.id.ImmWriteId? then [c.id.chunk] else [] }

  function RecvSlot(c: Completion): seq<nat> { if c.id.RecvId? then [c.id.slot] else [] }

  predicate IsImmArrival(c: Completion) { c.ok && c.opcode.OpRecvRdmaWithImm? }

  function ImmArrived(c: Completion): seq<nat> { if IsImmArrival(c) then [c.imm] else [] }

  predicate IsMessage(c: Completion) { c.ok && c.opcode.OpRecv? && c.id.RecvId? }

  function HeldSlot(r: ReadyMsg): seq<nat> { [r.slot] }

  /** The frames waiting in a send queue, oldest first, as the NIC will read them. */
  function FramesOut(mem: seq<Frame>, sq: seq<WorkRequest>): seq<Frame> {
    if sq == [] then []
    else (if sq[0].OneSided? then [] else [Cell(mem, sq[0].slot)]) + FramesOut(mem, sq[1..])
  }

  /** The frames delivered but not yet polled, oldest first, as `read` will see them. */
  function FramesIn(mem: seq<Frame>, cq: seq<Completion>): seq<Frame> {
    if cq == [] then []
    else (if IsMessage(cq[0]) then [Cell(mem, cq[0].id.slot)] else []) + FramesIn(mem, cq[1..])
  }

  /** Everything on its way from `p` to `q`, oldest first. */
  function Transit(p: Peer, q: Peer): seq<Frame> {
    FramesIn(q.recvMem, q.cq) + FramesOut(p.sendMem, p.sq)
  }

  function HeldBytes(mem: seq<Frame>, rx: seq<ReadyMsg>): seq<byte> {
    if rx == [] then []
    else (if ReadyOk(mem, rx[0]) then Cell(mem, rx[0].slot).body[rx[0].start..rx[0].end] else [])
         + HeldBytes(mem, rx[1..])
  }

  function Held(q: Peer): seq<byte> { HeldBytes(q.recvMem, q.rxReady) }

  function Payload(f: Frame): seq<byte> { f.body }

  function Bytes(fs: seq<Frame>): seq<byte> { Flat(Payload, fs) }

  function Grants(fs: seq<Frame>): nat {
    if fs == [] then 0 else fs[0].env.credits + Grants(fs[1..])
  }

  function DataCount(fs: seq<Frame>): nat {
    if fs == [] then 0 else (if fs[0].env.IsCreditOnly() then 0 else 1) + DataCount(fs[1..])
  }

  /** A frame as the protocol sends it: a non-empty data message or a bare grant. */
  predicate FrameOk(cap: nat, f: Frame) {
    && f.env.length == |f.body| && f.env.credits <= U16_MAX
    && (if f.env.flags == CREDIT_ONLY then f.body == [] else f.env.flags == 0 && 1 <= |f.body| <= cap)
  }

  predicate FramesOk(cap: nat, fs: seq<Frame>) { forall f <- fs :: FrameOk(cap, f) }

  /** A completion the NIC can produce: the opcode fits the work request, and a
      delivered message reports the length of what is in its slot. */
  predicate CompletionOk(mem: seq<Frame>, c: Completion) {
    match c.opcode
    case OpRecv => c.id.RecvId? && (c.ok ==> c.byteLen == ENVELOPE_LEN + |Cell(mem, c.id.slot).body|)
    case OpRecvRdmaWithImm => c.id.RecvId? && c.ok
    case OpSend => c.id.SendId? || c.id.CtrlId?
    case OpRdmaWrite => c.id.WriteId? || c.id.ImmWriteId?
  }

  predicate CqOk(mem: seq<Frame>, cq: seq<Completion>) {
    cq == [] || (CompletionOk(mem, cq[0]) && CqOk(mem, cq[1..]))
  }

  predicate RxOk(mem: seq<Frame>, rx: seq<ReadyMsg>) {
    rx == [] || (ReadyOk(mem, rx[0]) && RxOk(mem, rx[1..]))
  }

  // ---- the invariant ---------------------------------------------------------

  /** Who owns each data send slot: the free list, the NIC, or an unread completion. */
  function SendOwners(p: Peer): multiset<nat> {
    multiset(p.sendFree) + multiset(Flat(DataSlot, p.sq)) + multiset(Flat(DataSlot, p.unacked))
    + multiset(Flat(SendDone, p.cq))
  }

  function CtrlInFlight(p: Peer): nat {
    |Flat(CtrlOf, p.sq)| + |Flat(CtrlOf, p.unacked)| + |Flat(CtrlDone, p.cq)|
  }

  /** At most one control message is anywhere on its way, and always on its own slot. */
  predicate CtrlOk(p: Peer) {
    && CtrlInFlight(p) == (if p.ctrlBusy then 1 else 0)
    && (forall s <- Flat(CtrlOf, p.sq) :: s == p.params.CtrlSlot())
  }

  predicate SendOk(p: Peer) {
    && |p.sendMem| == p.params.sendPool + 1
    && SendOwners(p) == All(p.params.sendPool)
    && CtrlOk(p)
    && Cell(p.sendMem, p.params.CtrlSlot()).body == []
    && FramesOk(p.params.cap, FramesOut(p.sendMem, p.sq))
    && |p.txStage| < p.params.cap
  }

  /** Who owns each receive slot: the NIC, an unread completion, or a held message. */
  function RecvOwners(p: Peer): multiset<nat> {
    multiset(p.posted) + multiset(Flat(RecvSlot, p.cq)) + multiset(Flat(HeldSlot, p.rxReady))
  }

  /** No receive slot has been given up: no post was refused, and no flushed receive was
      polled. */
  predicate Whole(p: Peer) { !p.refused && (p.alive || !p.closed) }

  predicate RecvOk(p: Peer) {
    && |p.recvMem| == p.params.Slots()
    && RecvOwners(p) <= All(p.params.Slots())
    && (Whole(p) ==> RecvOwners(p) == All(p.params.Slots()))
    && (p.alive ==> forall c <- p.cq :: c.ok)
    && CqOk(p.recvMem, p.cq)
    && RxOk(p.recvMem, p.rxReady)
    && FramesOk(p.params.cap, FramesIn(p.recvMem, p.cq))
  }

  /** The two write counters count exactly the unreaped one-sided work requests. */
  predicate WriteOk(p: Peer) {
    && p.writesOut == |Flat(PutOf, p.sq)| + |Flat(PutOf, p.unacked)| + |Flat(WriteDone, p.cq)|
    && p.immOut == |Flat(WrImm, p.sq)| + |Flat(WrImm, p.unacked)| + |Flat(ImmDone, p.cq)|
    && p.immOut <= p.params.peerSplit
  }

  predicate Local(p: Peer) {
    p.params.Valid() && SendOk(p) && RecvOk(p) && WriteOk(p) && (p.refused ==> p.closed)
  }

  /** Both ends agreed on the message size, and each posted the split window the
      other may fill (`Negotiation` proves this of every successful handshake). */
  predicate Agreed(p: Peer, q: Peer) {
    && p.params.cap == q.params.cap && p.params.splitOn == q.params.splitOn
    && (p.params.splitOn ==> p.params.peerSplit <= q.params.split)
  }

  /** What holds of the direction from `p` to `q` even after failures. */
  predicate Safe(p: Peer, q: Peer) {
    && Agreed(p, q)
    && q.got + Held(q) + Bytes(FramesIn(q.recvMem, q.cq)) <= p.wrote
    && p.sendCredits + Grants(FramesIn(p.recvMem, p.cq)) <= q.params.pool
    && q.outIds + q.done + Flat(ImmArrived, q.cq) == Flat(ImmOf, q.landed)
    && q.landed <= p.puts
    && |q.rxReady| + DataCount(FramesIn(q.recvMem, q.cq)) + q.grantPending <= q.params.pool
  }

  /** Where every unit of `q`'s advertised pool is. */
  function CreditLedger(p: Peer, q: Peer): nat {
    p.sendCredits + DataCount(Transit(p, q)) + |q.rxReady| + q.grantPending + Grants(Transit(q, p))
  }

  /** No completion has told this end, or is about to tell it, that a send failed. */
  predicate Unharmed(p: Peer) { !p.closed && forall c <- p.cq :: c.id.SendId? ==> c.ok }

  /** The bytes `p` accepted, in order: read by `q`, held by `q`, in transit, staged. */
  predicate InOrder(p: Peer, q: Peer) {
    p.wrote == q.got + Held(q) + Bytes(Transit(p, q)) + p.txStage
  }

  /** What holds while both queue pairs work. Nothing delivered or on its way is lost; a
      credit is lost only with a receive slot that could not be posted again. */
  predicate Lossless(p: Peer, q: Peer) {
    && CreditLedger(p, q) <= q.params.pool && (!q.refused ==> CreditLedger(p, q) == q.params.pool)
    && p.puts == q.landed + Flat(PutOf, p.sq)
    && q.got + Held(q) + Bytes(Transit(p, q)) <= p.wrote
  }

  predicate Linked(p: Peer, q: Peer) { p.alive && q.alive }

  /** Nothing `p` accepted has been dropped: no post of it was refused over a working
      connection, or no completion speaks of a failed send. */
  predicate Intact(p: Peer, q: Peer) { (Linked(p, q) && !p.refused) || Unharmed(p) }

  predicate Inv(p: Peer, q: Peer) {
    && Local(p) && Local(q) && Safe(p, q) && Safe(q, p)
    && (Linked(p, q) ==> Lossless(p, q) && Lossless(q, p))
    && (Intact(p, q) ==> InOrder(p, q))
    && (Intact(q, p) ==> InOrder(q, p))
  }
}
