/** One end of a HORD stream as a value: the fields of `HordStream`, the queues of
    its RC connection, and the operations that change them. Everything here is
    deterministic; the choices (which end moves, what the NIC does) are `Action`s of
    module `StreamSystem`. */
module StreamState {
  import opened Basics
  import opened EnvelopeCodec

  const CTRL_RECV_SLACK := 2

  /** What construction and the handshake fix for one end. `split` is the number of
      receive slots posted for split-mode transfers, `peerSplit` the window the peer
      advertised. */
  datatype Params = Params(msgSize: nat, cap: nat, pool: nat, sendPool: nat,
                           splitOn: bool, split: nat, peerSplit: nat) {
    predicate Valid() {
      && 1 <= cap && cap + ENVELOPE_LEN <= msgSize <= U32_MAX
      && 1 <= pool <= U16_MAX && 1 <= sendPool
      && (!splitOn ==> split == 0)
    }

    /** Receive slots: the data pool, the control slack, the split headroom. */
    function Slots(): nat { pool + CTRL_RECV_SLACK + split }

    /** A quarter of the data pool, at least one. */
    function Threshold(): (t: nat)
      ensures forall owed: nat :: owed >= t <==> owed >= 1 && 4 * owed + 3 >= pool
    {
      Max(pool / 4, 1)
    }

    /** The reserved control send slot is the one behind the data pool. */
    function CtrlSlot(): nat { sendPool }
  }

  /** The contents of one slot of registered memory: a header and its payload. */
  datatype Frame = Frame(env: Envelope, body: seq<byte>)

  /** A one-sided write: the bytes, where they go, and the transfer ID if the work
      request is a write-with-immediate. */
  datatype Put = Put(addr: nat, data: seq<byte>, imm: Option<nat>)

  datatype WorkRequest = DataSend(slot: nat) | CtrlSend(slot: nat) | OneSided(chunk: nat, put: Put)

  /** The work-request identifiers; `WrIds.Wire` gives their 64-bit form. */
  datatype WrId = RecvId(slot: nat) | SendId(slot: nat) | CtrlId(slot: nat)
                | WriteId(chunk: nat) | ImmWriteId(chunk: nat)

  datatype Opcode = OpSend | OpRecv | OpRdmaWrite | OpRecvRdmaWithImm

  datatype Completion = Completion(id: WrId, ok: bool, opcode: Opcode, byteLen: nat, imm: nat)

  /** A received payload still in its slot; `start..end` are offsets into the payload. */
  datatype ReadyMsg = ReadyMsg(slot: nat, start: nat, end: nat)

  datatype Peer = Peer(
    params: Params,
    // registered memory
    sendMem: seq<Frame>, recvMem: seq<Frame>,
    // the stream's own fields
    sendFree: seq<nat>, sendCredits: nat, grantPending: nat, ctrlBusy: bool,
    txStage: seq<byte>, rxReady: seq<ReadyMsg>, closed: bool,
    writesOut: nat, immOut: nat, done: seq<nat>,
    // the connection: posted sends, delivered but unacknowledged sends, posted
    // receives, completions, whether the queue pair still works, and whether it takes
    // posts at the moment (a full or exhausted queue refuses them)
    sq: seq<WorkRequest>, unacked: seq<WorkRequest>, posted: seq<nat>, cq: seq<Completion>,
    alive: bool, accepts: bool,
    // history, read by no operation: bytes accepted by writes, bytes handed to
    // readers, transfer IDs handed out, one-sided writes posted by this end,
    // one-sided writes that landed in this end's memory, in order, and whether a post
    // of this end was ever refused
    wrote: seq<byte>, got: seq<byte>, outIds: seq<nat>, puts: seq<Put>, landed: seq<Put>, refused: bool)

  /** A post works: the queue pair is alive and takes it. */
  predicate Posts(p: Peer) { p.alive && p.accepts }

  function Cell(mem: seq<Frame>, slot: nat): Frame {
    if slot < |mem| then mem[slot] else Frame(Envelope(0, 0, 0), [])
  }

  function Store(mem: seq<Frame>, slot: nat, f: Frame): seq<Frame> {
    if slot < |mem| then mem[slot := f] else mem
  }

  function BlankMem(n: nat): seq<Frame> { seq(n, _ => Frame(Envelope(0, 0, 0), [])) }

  function UpTo(n: nat): seq<nat> { seq(n, i => i) }

  function DownFrom(n: nat): seq<nat> { seq(n, i requires 0 <= i < n => n - 1 - i) }

  /** A freshly established end: every send slot free, every receive slot posted, the
      peer's advertised pool as credit. */
  function Fresh(params: Params, peerPool: nat): Peer {
    Peer(params, BlankMem(params.sendPool + 1), BlankMem(params.Slots()),
         DownFrom(params.sendPool), peerPool, 0, false, [], [], false, 0, 0, [],
         [], [], UpTo(params.Slots()), [], true, true, [], [], [], [], [], false)
  }

  // ---- sending -------------------------------------------------------------

  predicate CanSend(p: Peer) { !p.closed && p.sendFree != [] && p.sendCredits > 0 }

  function Grant(p: Peer): nat { Min(p.grantPending, U16_MAX) }

  /** `post_data_message`: the last free slot takes the message and all owed credit.
      A failed post gives the slot back and closes the stream. */
  function PostData(p: Peer, payload: seq<byte>): (q: Peer)
    requires CanSend(p)
    ensures q.params == p.params
  {
    var n := |p.sendFree| - 1;
    var slot := p.sendFree[n];
    var frame := Frame(Envelope(|payload|, Grant(p), 0), payload);
    var q := p.(sendMem := Store(p.sendMem, slot, frame));
    if Posts(p) then
      q.(sendFree := p.sendFree[..n], sq := p.sq + [DataSend(slot)],
         sendCredits := p.sendCredits - 1, grantPending := p.grantPending - Grant(p))
    else
      q.(closed := true, refused := true)
  }

  /** The tail of a `try_write` or `try_flush_stage`: send the stage followed by `bs`
      as one message. */
  function PostStaged(p: Peer, bs: seq<byte>): (q: Peer)
    requires CanSend(p)
    ensures q.params == p.params
  {
    var q := PostData(p.(txStage := []), p.txStage + bs);
    if Posts(p) then q.(wrote := p.wrote + bs) else q
  }

  predicate CanReturn(p: Peer) { !p.ctrlBusy && !p.closed && p.grantPending > 0 }

  /** `send_credit_return`: all owed credit on the control slot, unless there is
      nothing to return or the slot is busy. */
  function CreditReturn(p: Peer): (r: Peer)
    ensures r.params == p.params
  {
    if !CanReturn(p) then p
    else
      var slot := p.params.CtrlSlot();
      var frame := Frame(Envelope(0, Grant(p), CREDIT_ONLY), []);
      var q := p.(sendMem := Store(p.sendMem, slot, frame));
      if Posts(p) then
        q.(sq := p.sq + [CtrlSend(slot)], ctrlBusy := true,
           grantPending := p.grantPending - Grant(p))
      else
        q.(closed := true, refused := true)
  }

  // ---- receiving -----------------------------------------------------------

  /** `post_recv_slot`. */
  function Repost(p: Peer, slot: nat): (r: Peer)
    ensures r.params == p.params
  {
    if Posts(p) then p.(posted := p.posted + [slot]) else p.(closed := true, refused := true)
  }

  function Reclaim(p: Peer, id: WrId): (r: Peer)
    ensures r.params == p.params
  {
    match id
    case CtrlId(_) => p.(ctrlBusy := false)
    case SendId(slot) => p.(sendFree := p.sendFree + [slot])
    case _ => p
  }

  /** How much payload a received message has; a credit-only message has none. */
  function PayloadLen(p: Peer, slot: nat, byteLen: nat): nat {
    var n := Min(byteLen, p.params.msgSize);
    var env := Cell(p.recvMem, slot).env;
    if env.IsCreditOnly() then 0 else Min(env.length, SaturatingSub(n, ENVELOPE_LEN))
  }

  /** The receive branch of `handle_completion`. A runt message is an error that
      leaves everything but the slot alone. */
  function Receive(p: Peer, slot: nat, byteLen: nat): (r: Peer)
    ensures r.params == p.params
  {
    var n := Min(byteLen, p.params.msgSize);
    if n < ENVELOPE_LEN then p
    else
      var f := Cell(p.recvMem, slot);
      var q := p.(sendCredits := SaturatingAdd32(p.sendCredits, f.env.credits));
      var plen := PayloadLen(p, slot, byteLen);
      if plen > 0 then q.(rxReady := p.rxReady + [ReadyMsg(slot, 0, plen)])
      else if f.env.IsCreditOnly() || !Posts(p) then Repost(q, slot)
      else Repost(q, slot).(grantPending := p.grantPending + 1)
  }

  function Handle(p: Peer, c: Completion): (r: Peer)
    ensures r.params == p.params
  {
    if c.opcode.OpRecvRdmaWithImm? then
      if !c.ok then p.(closed := true)
      else if c.id.RecvId? then Repost(p.(done := p.done + [c.imm]), c.id.slot)
      else p.(done := p.done + [c.imm])
    else match c.id
      case WriteId(_) =>
        p.(writesOut := SaturatingSub(p.writesOut, 1), closed := p.closed || !c.ok)
      case ImmWriteId(_) =>
        p.(writesOut := SaturatingSub(p.writesOut, 1), immOut := SaturatingSub(p.immOut, 1),
           closed := p.closed || !c.ok)
      case RecvId(slot) => if c.ok then Receive(p, slot, c.byteLen) else p.(closed := true)
      case _ => Reclaim(p.(closed := p.closed || !c.ok), c.id)
  }

  /** Poll one completion. */
  function Poll(p: Peer): (q: Peer)
    requires p.cq != []
    ensures q.params == p.params
  {
    Handle(p.(cq := p.cq[1..]), p.cq[0])
  }

  predicate ReadyOk(mem: seq<Frame>, r: ReadyMsg) {
    r.start < r.end <= |Cell(mem, r.slot).body|
  }

  /** One turn of the loop in `try_read`: copy `k` bytes out of the oldest held
      message; a message read to its end frees its slot and owes the peer a credit. */
  function ReadSome(p: Peer, k: nat): (q: Peer)
    requires p.rxReady != [] && ReadyOk(p.recvMem, p.rxReady[0])
    requires 1 <= k <= p.rxReady[0].end - p.rxReady[0].start
    ensures q.params == p.params
  {
    var r := p.rxReady[0];
    var q := p.(got := p.got + Cell(p.recvMem, r.slot).body[r.start..r.start + k]);
    if r.start + k < r.end then
      q.(rxReady := [r.(start := r.start + k)] + p.rxReady[1..])
    else
      var s := Repost(q.(rxReady := p.rxReady[1..]), r.slot);
      if Posts(p) then s.(grantPending := p.grantPending + 1) else s
  }

  // ---- one-sided writes ----------------------------------------------------

  predicate HasImm(puts: seq<Put>) { puts != [] && puts[|puts| - 1].imm.Some? }

  /** Only the last work request of a gather may carry an immediate. */
  predicate ImmLast(puts: seq<Put>) {
    forall i :: 0 <= i < |puts| - 1 ==> puts[i].imm.None?
  }

  datatype Admission = Admit | TooManyWrs | WouldBlock

  /** `check_write_capacity`. */
  function CheckCapacity(p: Peer, n: nat, hasImm: bool): Admission {
    if n > p.params.sendPool then TooManyWrs
    else if n > SaturatingSub(|p.sendFree|, p.writesOut) then WouldBlock
    else if hasImm && p.immOut >= p.params.peerSplit then WouldBlock
    else Admit
  }

  function Wrs(puts: seq<Put>, base: nat): seq<WorkRequest> {
    if puts == [] then [] else [OneSided(base, puts[0])] + Wrs(puts[1..], base + 1)
  }

  /** `begin_rdma_write_gather_inner` once the writes are planned and admitted: the first
      `good` posts work; a failed one stops the gather and closes the stream. */
  function PostPuts(p: Peer, puts: seq<Put>, good: nat): (r: Peer)
    requires good <= |puts|
    ensures r.params == p.params
  {
    var done := puts[..good];
    var q := p.(sq := p.sq + Wrs(done, 0), writesOut := p.writesOut + good, puts := p.puts + done);
    if good == |puts| then q.(immOut := p.immOut + (if HasImm(puts) then 1 else 0))
    else q.(closed := true, refused := true)
  }

  // ---- errors --------------------------------------------------------------

  /** `handle_completion` reports an error: a message too short to have a header, or a
      receive that could not be posted again. */
  predicate HandleFails(p: Peer, c: Completion) {
    c.ok && c.id.RecvId?
    && if c.opcode.OpRecvRdmaWithImm? then !Posts(p)
       else Min(c.byteLen, p.params.msgSize) < ENVELOPE_LEN
            || (!Posts(p) && PayloadLen(p, c.id.slot, c.byteLen) == 0)
  }
}
