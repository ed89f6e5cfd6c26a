/** `HordStream` itself: the object whose methods update the fields in place. Each
    method is tied to the operations of `StreamState`, and each call is shown to be a
    sequence of moves of `StreamSystem`, so what is proved of every run holds between
    calls. */
module HordStreams {
  import opened Basics
  import opened EnvelopeCodec
  import opened StreamState
  import opened StreamSystem
  import opened StreamSteps
  import opened StreamRuns

  datatype StreamError = BrokenPipe | PostFailed | Runt

  // ---- calls are runs ------------------------------------------------------------

  /** The moves an end makes without its NIC. */
  predicate IsCall(a: Action) {
    a.Stage? || a.Post? || a.Credit? || a.PollOne? || a.Read? || a.TakeId? || a.BeginWrite? || a.MarkClosed?
  }

  /** The other end plays no part in a call. */
  function CallStep(p: Peer, a: Action): Peer {
    if IsCall(a) && Enabled(p, p, a) then Do(p, p, a).0 else p
  }

  function Call(p: Peer, acts: seq<Action>): Peer {
    if acts == [] then p else CallStep(Call(p, acts[..|acts| - 1]), acts[|acts| - 1])
  }

  function Moves(byA: bool, acts: seq<Action>): seq<Move> {
    if acts == [] then [] else Moves(byA, acts[..|acts| - 1]) + (if IsCall(acts[|acts| - 1]) then [Move(byA, acts[|acts| - 1])] else [])
  }

  lemma CallSnoc(p: Peer, acts: seq<Action>, a: Action)
    ensures Call(p, acts + [a]) == CallStep(Call(p, acts), a)
  {
    assert (acts + [a])[..|acts|] == acts;
  }

  /** Whatever an end's code does in one call, some schedule of the system does. */
  lemma {:induction false} CallIsRun(s: Sys, acts: seq<Action>)
    ensures Exec(s, Moves(true, acts)) == Sys(Call(s.a, acts), s.b)
    ensures Exec(s, Moves(false, acts)) == Sys(s.a, Call(s.b, acts))
  {
    hide Do, Enabled;
    if acts != [] {
      var a := acts[|acts| - 1];
      var front := acts[..|acts| - 1];
      CallIsRun(s, front);
      if IsCall(a) {
        CallAlone(Call(s.a, front), s.b, a);
        CallAlone(Call(s.b, front), s.a, a);
        var ma, mb := Moves(true, front), Moves(false, front);
        assert (ma + [Move(true, a)])[..|ma|] == ma && (mb + [Move(false, a)])[..|mb|] == mb;
      } else {
        assert Moves(true, front) + [] == Moves(true, front) && Moves(false, front) + [] == Moves(false, front);
      }
    }
  }

  lemma CallAlone(p: Peer, o: Peer, a: Action)
    requires IsCall(a)
    ensures Enabled(p, o, a) == Enabled(p, p, a)
    ensures Enabled(p, o, a) ==> Do(p, o, a) == (Do(p, p, a).0, o)
  {
  }

  /** So between calls every end is in a state some run reaches, with the invariant. */
  lemma CallKeepsInv(pa: Params, pb: Params, moves: seq<Move>, acts: seq<Action>)
    requires Compatible(pa, pb)
    ensures var s := Exec(Start(pa, pb), moves); Inv(Call(s.a, acts), s.b)
  {
    hide Inv, Start;
    CallIsRun(Exec(Start(pa, pb), moves), acts);
    ExecAppend(Start(pa, pb), moves, Moves(true, acts));
    RunInv(pa, pb, moves + Moves(true, acts));
  }

  /** The last of these polls could not be handled. */
  predicate LastFails(p: Peer, acts: seq<Action>) {
    acts != [] && var q := Call(p, acts[..|acts| - 1]); q.cq != [] && HandleFails(q, q.cq[0])
  }

  /** The moves a read makes, and the moves a write or flush makes. */
  predicate ReadsOnly(acts: seq<Action>) { forall a <- acts :: a.Read? || a.Credit? }

  predicate WritesOnly(acts: seq<Action>) { forall a <- acts :: a.Post? || a.Stage? || a.Credit? }

  /** Reading leaves the sending side alone, and closes nothing while posts succeed. */
  lemma {:induction false} ReadsKeep(p: Peer, acts: seq<Action>)
    requires ReadsOnly(acts)
    ensures var q := Call(p, acts);
      && q.txStage == p.txStage && q.sendFree == p.sendFree && q.sendCredits == p.sendCredits && q.params == p.params
      && q.writesOut == p.writesOut && q.done == p.done && Posts(q) == Posts(p)
      && (p.closed ==> q.closed) && (Posts(p) ==> q.closed == p.closed)
      && p.posted <= q.posted && q.cq == p.cq && (p.refused ==> q.refused) && (q.closed && !p.closed ==> q.refused)
  {
    hide CallStep;
    if acts != [] {
      ReadsKeep(p, acts[..|acts| - 1]);
      assert acts[|acts| - 1] in acts;
      ReadKeeps(Call(p, acts[..|acts| - 1]), acts[|acts| - 1]);
    }
  }

  lemma ReadKeeps(p: Peer, a: Action)
    requires a.Read? || a.Credit?
    ensures var q := CallStep(p, a);
      && q.txStage == p.txStage && q.sendFree == p.sendFree && q.sendCredits == p.sendCredits && q.params == p.params
      && q.writesOut == p.writesOut && q.done == p.done && Posts(q) == Posts(p)
      && (p.closed ==> q.closed) && (Posts(p) ==> q.closed == p.closed)
      && p.posted <= q.posted && q.cq == p.cq && (p.refused ==> q.refused) && (q.closed && !p.closed ==> q.refused)
  {
    hide ReadSome, CreditReturn;
    if a.Read? && CanRead(p, a.k) {
      ReadShape(p, a.k, ReadSome(p, a.k));
      ReadShuts(p, a.k);
    }
    CreditUsable(p);
  }

  /** A message read to its end is a credit owed, once its slot is posted again. */
  lemma ReadOwes(p: Peer, k: nat)
    requires CanRead(p, k)
    ensures var q := ReadSome(p, k);
      && q.ctrlBusy == p.ctrlBusy && |q.rxReady| <= |p.rxReady|
      && (Posts(p) || k < p.rxReady[0].end - p.rxReady[0].start ==>
            q.grantPending + |q.rxReady| == p.grantPending + |p.rxReady|)
      && (!Posts(p) ==> q.grantPending == p.grantPending)
  {
    hide ReadSome, Repost, Cell;
    ReadIs(p, k);
    RepostFrame(AfterCopy(p, k), p.rxReady[0].slot);
  }

  /** Only a post that is refused closes the stream. */
  lemma ReadShuts(p: Peer, k: nat)
    requires CanRead(p, k)
    ensures var q := ReadSome(p, k);
      && q.closed == (p.closed || (!Posts(p) && k == p.rxReady[0].end - p.rxReady[0].start))
      && p.posted <= q.posted && (q.closed && !p.closed ==> q.refused)
  {
    hide ReadSome;
    ReadMoves(p, k, ReadSome(p, k));
  }

  /** Writing leaves the receiving side alone, and closes nothing while posts succeed. */
  lemma {:induction false} WritesKeep(p: Peer, acts: seq<Action>)
    requires WritesOnly(acts)
    ensures var q := Call(p, acts);
      && q.rxReady == p.rxReady && q.done == p.done && q.params == p.params && q.writesOut == p.writesOut
      && Posts(q) == Posts(p) && q.alive == p.alive && (p.closed ==> q.closed) && (Posts(p) ==> q.closed == p.closed)
      && p.posted <= q.posted && q.cq == p.cq && (p.refused ==> q.refused) && (q.closed && !p.closed ==> q.refused)
  {
    hide CallStep;
    if acts != [] {
      WritesKeep(p, acts[..|acts| - 1]);
      assert acts[|acts| - 1] in acts;
      WriteKeeps(Call(p, acts[..|acts| - 1]), acts[|acts| - 1]);
    }
  }

  lemma WriteKeeps(p: Peer, a: Action)
    requires a.Post? || a.Stage? || a.Credit?
    ensures var q := CallStep(p, a);
      && q.rxReady == p.rxReady && q.done == p.done && q.params == p.params && q.writesOut == p.writesOut
      && Posts(q) == Posts(p) && q.alive == p.alive && (p.closed ==> q.closed) && (Posts(p) ==> q.closed == p.closed)
      && p.posted <= q.posted && q.cq == p.cq && (p.refused ==> q.refused) && (q.closed && !p.closed ==> q.refused)
  {
    hide PostStaged, CreditReturn;
    if a.Post? && CanSend(p) {
      PostStagedFrame(p, a.bs);
    }
    CreditUsable(p);
  }

  lemma PostStagedFrame(p: Peer, bs: seq<byte>)
    requires CanSend(p)
    ensures var q := PostStaged(p, bs);
      && q.rxReady == p.rxReady && q.done == p.done && q.params == p.params && q.writesOut == p.writesOut
      && q.alive == p.alive && q.accepts == p.accepts && q.posted == p.posted && q.cq == p.cq
      && (p.closed ==> q.closed) && (Posts(p) ==> q.closed == p.closed) && (p.refused ==> q.refused)
      && (q.closed && !p.closed ==> q.refused)
  {
    hide Store;
  }

  // ---- what try_write accepts -------------------------------------------------------

  /** The messages this end could send right now. */
  function Sendable(p: Peer): nat { Min(|p.sendFree|, p.sendCredits) }

  /** When a call closes the stream, from the state before it: posts are refused and the
      call comes to a post. A write does when it fills a message, and a flush when there
      is something staged; each then sends, or returns credit if it cannot send. */
  predicate WriteCloses(p: Peer, len: nat) {
    !Posts(p) && !p.closed && |p.txStage| + len >= p.params.cap && (CanSend(p) || CanReturn(p))
  }

  predicate FlushCloses(p: Peer) { !Posts(p) && !p.closed && p.txStage != [] && (CanSend(p) || CanReturn(p)) }

  /** A read does when it finishes a held message, or has to return credit afterwards. */
  predicate ReadCloses(p: Peer, n: nat) {
    && !Posts(p) && !p.closed && n > 0 && p.rxReady != []
    && (n >= p.rxReady[0].end - p.rxReady[0].start || (p.grantPending >= p.params.Threshold() && CanReturn(p)))
  }

  /** How much of a buffer `try_write` takes: all of it if every full message it makes
      with the stage can be sent, and otherwise exactly the messages that can. */
  function Accepted(p: Peer, len: nat): nat {
    var k := Sendable(p);
    if |p.txStage| + len < (k + 1) * p.params.cap then len
    else SaturatingSub(k * p.params.cap, |p.txStage|)
  }

  lemma MulGrows(m: nat, k: nat, cap: nat)
    requires m <= k
    ensures m * cap <= k * cap && (m + 1) * cap == m * cap + cap
  {
    assert k * cap == m * cap + (k - m) * cap;
  }

  /** What each method needs of its own object; every run keeps it (`RunInv`). */
  predicate Usable(p: Peer) {
    && p.params.Valid() && |p.txStage| < p.params.cap
    && CqOk(p.recvMem, p.cq) && RxOk(p.recvMem, p.rxReady)
  }

  lemma ReceiveUsable(p: Peer, slot: nat, byteLen: nat)
    requires Usable(p) && byteLen <= ENVELOPE_LEN + |Cell(p.recvMem, slot).body|
    ensures Usable(Receive(p, slot, byteLen))
  {
    hide CqOk, RxOk;
    var f := Cell(p.recvMem, slot);
    var n := Min(byteLen, p.params.msgSize);
    if n >= ENVELOPE_LEN && !f.env.IsCreditOnly() && Min(f.env.length, n - ENVELOPE_LEN) > 0 {
      RxSnoc(p.recvMem, p.rxReady, ReadyMsg(slot, 0, Min(f.env.length, n - ENVELOPE_LEN)));
    }
  }

  lemma HandleUsable(p: Peer, c: Completion)
    requires Usable(p) && CompletionOk(p.recvMem, c)
    ensures Usable(Handle(p, c))
  {
    hide CqOk, RxOk, Receive;
    if c.id.RecvId? && c.opcode.OpRecv? && c.ok {
      ReceiveUsable(p, c.id.slot, c.byteLen);
    }
  }

  lemma PopUsable(p: Peer)
    requires Usable(p) && p.cq != []
    ensures Usable(p.(cq := p.cq[1..])) && CompletionOk(p.recvMem, p.cq[0])
  {
  }

  /** What sending one message leaves of the sender. */
  lemma PostStagedIs(p: Peer, bs: seq<byte>)
    requires CanSend(p)
    ensures var q := PostStaged(p, bs);
      && q.txStage == [] && q.params == p.params && Posts(q) == Posts(p) && (Usable(p) ==> Usable(q))
      && if Posts(p) then
           && |q.sendFree| == |p.sendFree| - 1 && q.sendCredits == p.sendCredits - 1
           && !q.closed && q.wrote == p.wrote + bs
         else
           q.closed && q.wrote == p.wrote
  {
    hide CqOk, RxOk, Store;
  }

  lemma CallPost(p: Peer, acts: seq<Action>, bs: seq<byte>)
    requires CanSend(Call(p, acts)) && 1 <= |Call(p, acts).txStage| + |bs| <= Call(p, acts).params.cap
    ensures Call(p, acts + [Post(bs)]) == PostStaged(Call(p, acts), bs)
  {
    hide Call, PostStaged;
    CallSnoc(p, acts, Post(bs));
  }

  lemma CallStage(p: Peer, acts: seq<Action>, bs: seq<byte>)
    requires var q := Call(p, acts); !q.closed && bs != [] && |q.txStage| + |bs| < q.params.cap
    ensures var q := Call(p, acts);
      Call(p, acts + [Stage(bs)]) == q.(txStage := q.txStage + bs, wrote := q.wrote + bs)
  {
    hide Call;
    CallSnoc(p, acts, Stage(bs));
  }

  /** A credit return that cannot happen is no move at all. */
  lemma CallCredit(p: Peer, acts: seq<Action>)
    ensures Call(p, acts + [Credit]) == CreditReturn(Call(p, acts))
  {
    hide Call;
    CallSnoc(p, acts, Credit);
  }

  lemma CallRead(p: Peer, acts: seq<Action>, k: nat)
    requires CanRead(Call(p, acts), k)
    ensures Call(p, acts + [Read(k)]) == ReadSome(Call(p, acts), k)
  {
    hide Call, ReadSome;
    CallSnoc(p, acts, Read(k));
  }

  lemma CallPoll(p: Peer, acts: seq<Action>)
    requires Call(p, acts).cq != []
    ensures Call(p, acts + [PollOne]) == Poll(Call(p, acts))
  {
    hide Call, Poll;
    CallSnoc(p, acts, PollOne);
  }

  lemma CallTake(p: Peer, acts: seq<Action>)
    requires Call(p, acts).done != []
    ensures var q := Call(p, acts);
      Call(p, acts + [TakeId]) == q.(done := q.done[1..], outIds := q.outIds + [q.done[0]])
  {
    hide Call;
    CallSnoc(p, acts, TakeId);
  }

  lemma PollShrinks(p: Peer)
    requires p.cq != []
    ensures Poll(p).cq == p.cq[1..]
  {
    hide Poll;
    PollFrame(p);
  }

  lemma CreditUsable(p: Peer)
    ensures Usable(p) ==> Usable(CreditReturn(p))
    ensures var q := CreditReturn(p);
      && q.wrote == p.wrote && q.sendFree == p.sendFree && q.sendCredits == p.sendCredits && (p.closed ==> q.closed)
      && q.got == p.got && q.rxReady == p.rxReady && q.recvMem == p.recvMem && q.txStage == p.txStage && q.params == p.params
      && q.writesOut == p.writesOut && q.done == p.done && q.alive == p.alive && Posts(q) == Posts(p)
      && (Posts(p) ==> q.closed == p.closed)
      && q.posted == p.posted && q.cq == p.cq && (p.refused ==> q.refused) && (q.closed && !p.closed ==> q.refused)
  {
    hide CqOk, RxOk;
  }

  // ---- the object ---------------------------------------------------------------------

  /** The queues of the RC connection. */
  datatype Connection = Connection(sq: seq<WorkRequest>, unacked: seq<WorkRequest>, posted: seq<nat>,
                                   cq: seq<Completion>, alive: bool, accepts: bool)
  {
    predicate Posts() { alive && accepts }
  }

  /** The history variables of `Peer`; no method reads them. */
  datatype Log = Log(wrote: seq<byte>, got: seq<byte>, outIds: seq<nat>, puts: seq<Put>, landed: seq<Put>, refused: bool)

  class HordStream {
    const params: Params
    var sendMem: seq<Frame>
    var recvMem: seq<Frame>
    var sendFree: seq<nat>
    var sendCredits: nat
    var grantPending: nat
    var ctrlBusy: bool
    var txStage: seq<byte>
    var rxReady: seq<ReadyMsg>
    var closed: bool
    var writesOut: nat
    var immOut: nat
    var done: seq<nat>
    var conn: Connection
    var log: Log

    function View(): Peer
      reads this
    {
      Peer(params, sendMem, recvMem, sendFree, sendCredits, grantPending, ctrlBusy, txStage, rxReady, closed,
           writesOut, immOut, done, conn.sq, conn.unacked, conn.posted, conn.cq, conn.alive, conn.accepts,
           log.wrote, log.got, log.outIds, log.puts, log.landed, log.refused)
    }

    ghost predicate Valid()
      reads this
    {
      Usable(View())
    }

    constructor (params: Params, peerPool: nat)
      requires params.Valid()
      ensures Valid() && View() == Fresh(params, peerPool)
    {
      this.params := params;
      sendMem, recvMem := BlankMem(params.sendPool + 1), BlankMem(params.Slots());
      sendFree, sendCredits, grantPending, ctrlBusy := DownFrom(params.sendPool), peerPool, 0, false;
      txStage, rxReady, closed := [], [], false;
      writesOut, immOut, done := 0, 0, [];
      conn := Connection([], [], UpTo(params.Slots()), [], true, true);
      log := Log([], [], [], [], [], false);
    }

    /** `post_recv_slot`: the slot is the NIC's again, or the stream is closed and the
        slot belongs to nobody. */
    method PostRecvSlot(slot: nat) returns (ok: bool)
      modifies `conn, `closed, `log
      ensures View() == Repost(old(View()), slot) && ok == conn.Posts() == old(conn.Posts())
      ensures RecvOwners(View()) == old(RecvOwners(View())) + (if ok then multiset{slot} else multiset{})
      ensures closed == (old(closed) || !ok)
    {
      hide Flat;
      ok := conn.Posts();
      if !ok {
        closed := true;
        log := log.(refused := true);
        return;
      }
      conn := conn.(posted := conn.posted + [slot]);
    }

    /** `reclaim_send`: a control send frees the control slot, any other its data slot, so
        the data slots in anyone's hands grow by that one. */
    method ReclaimSend(id: WrId)
      modifies `ctrlBusy, `sendFree
      ensures View() == Reclaim(old(View()), id)
      ensures SendOwners(View()) == old(SendOwners(View())) + (if id.SendId? then multiset{id.slot} else multiset{})
    {
      hide Flat;
      if id.CtrlId? {
        ctrlBusy := false;
      } else if id.SendId? {
        sendFree := sendFree + [id.slot];
      }
    }

    /** `handle_completion`, the dispatcher: by opcode first, then by the class of the
        work request. */
    method HandleCompletion(c: Completion) returns (r: Result<bool, StreamError>)
      requires c.opcode.OpRecvRdmaWithImm? ==> c.id.RecvId?
      modifies this
      ensures View() == Handle(old(View()), c)
      ensures r.Err? <==> HandleFails(old(View()), c)
    {
      hide StreamState.Receive, Repost, Reclaim, PayloadLen, RecvOwners, SendOwners;
      r := Ok(true);
      if c.opcode.OpRecvRdmaWithImm? {
        if !c.ok {
          closed := true;
          return;
        }
        done := done + [c.imm];
        var ok := PostRecvSlot(c.id.slot);
        if !ok { r := Err(PostFailed); }
        return;
      }
      if c.id.WriteId? || c.id.ImmWriteId? {
        writesOut := SaturatingSub(writesOut, 1);
        if c.id.ImmWriteId? { immOut := SaturatingSub(immOut, 1); }
        if !c.ok { closed := true; }
        return;
      }
      if c.id.SendId? || c.id.CtrlId? {
        if !c.ok { closed := true; }
        ReclaimSend(c.id);
        return;
      }
      if !c.ok {
        closed := true;
        return;
      }
      r := Receive(c.id.slot, c.byteLen);
    }

    /** The receive branch of `handle_completion`. */
    method Receive(slot: nat, byteLen: nat) returns (r: Result<bool, StreamError>)
      modifies `sendCredits, `rxReady, `conn, `closed, `grantPending, `log
      ensures View() == StreamState.Receive(old(View()), slot, byteLen)
      ensures r.Err? <==>
        Min(byteLen, params.msgSize) < ENVELOPE_LEN || (!conn.Posts() && PayloadLen(old(View()), slot, byteLen) == 0)
      ensures conn.Posts() == old(conn.Posts())
      ensures Min(byteLen, params.msgSize) >= ENVELOPE_LEN ==>
        sendCredits == (if old(sendCredits) + Cell(recvMem, slot).env.credits <= U32_MAX
                        then old(sendCredits) + Cell(recvMem, slot).env.credits else U32_MAX)
      ensures r.Ok? && rxReady == old(rxReady) ==>
        grantPending == old(grantPending) + (if Cell(recvMem, slot).env.IsCreditOnly() then 0 else 1)
    {
      hide Repost, RecvOwners, Cell;
      r := Ok(true);
      var n := Min(byteLen, params.msgSize);
      if n < ENVELOPE_LEN {
        return Err(Runt);
      }
      var f := Cell(recvMem, slot);
      sendCredits := SaturatingAdd32(sendCredits, f.env.credits);
      var plen := if f.env.IsCreditOnly() then 0 else Min(f.env.length, n - ENVELOPE_LEN);
      if plen > 0 {
        rxReady := rxReady + [ReadyMsg(slot, 0, plen)];
        return;
      }
      var ok := Settle(slot, f.env.IsCreditOnly());
      return if ok then Ok(true) else Err(PostFailed);
    }

    /** A message without payload is done with at once. */
    method Settle(slot: nat, creditOnly: bool) returns (ok: bool)
      modifies `conn, `closed, `grantPending, `log
      ensures View() == if creditOnly || !ok then Repost(old(View()), slot)
        else Repost(old(View()), slot).(grantPending := old(grantPending) + 1)
      ensures ok == conn.Posts() == old(conn.Posts()) && (ok ==> grantPending == old(grantPending) + (if creditOnly then 0 else 1))
    {
      hide Repost, RecvOwners;
      if creditOnly {
        ok := PostRecvSlot(slot);
      } else {
        ok := FreeSlot(slot);
      }
    }

    /** `pump(false)`: handle one completion if there is one. */
    method Pump() returns (handled: bool, r: Result<bool, StreamError>)
      requires Valid()
      modifies this
      ensures Valid() && handled == (old(conn.cq) != [])
      ensures View() == if handled then Poll(old(View())) else old(View())
      ensures r.Err? <==> handled && HandleFails(old(View()), old(conn.cq)[0])
    {
      if conn.cq == [] {
        return false, Ok(true);
      }
      hide Usable, Handle, PayloadLen;
      PopUsable(View());
      var c := conn.cq[0];
      conn := conn.(cq := conn.cq[1..]);
      HandleUsable(View(), c);
      r := HandleCompletion(c);
      handled := true;
    }

    /** `post_data_message`. The message goes out behind everything posted before it, with
        all owed credit; a refused post spends nothing. */
    method PostDataMessage(payload: seq<byte>) returns (ok: bool)
      requires CanSend(View())
      modifies `sendMem, `sendFree, `conn, `sendCredits, `grantPending, `closed, `log
      ensures View() == PostData(old(View()), payload) && ok == conn.Posts() == old(conn.Posts())
      ensures ok && old(SendOk(View())) ==>
        FramesOut(sendMem, conn.sq) == old(FramesOut(sendMem, conn.sq)) +
          [Frame(Envelope(|payload|, if old(grantPending) <= U16_MAX then old(grantPending) else U16_MAX, 0), payload)]
      ensures ok ==> grantPending == (if old(grantPending) <= U16_MAX then 0 else old(grantPending) - U16_MAX)
      ensures ok ==> sendCredits == old(sendCredits) - 1 && |sendFree| == |old(sendFree)| - 1
      ensures !ok ==> sendFree == old(sendFree) && sendCredits == old(sendCredits) && grantPending == old(grantPending)
    {
      hide SendOk, FramesOut, PostData;
      ghost var v := View();
      ok := StampAndPost(payload);
      if ok && SendOk(v) {
        PostDataFrames(v, payload, View());
      }
    }

    /** The last free slot takes the message and goes to the NIC (`post_into`). */
    method StampAndPost(payload: seq<byte>) returns (ok: bool)
      requires CanSend(View())
      modifies `sendMem, `sendFree, `conn, `sendCredits, `grantPending, `closed, `log
      ensures View() == PostData(old(View()), payload) && ok == conn.Posts() == old(conn.Posts())
      ensures !ok ==> sendFree == old(sendFree) && sendCredits == old(sendCredits) && grantPending == old(grantPending)
      ensures ok ==> grantPending == (if old(grantPending) <= U16_MAX then 0 else old(grantPending) - U16_MAX)
      ensures ok ==> sendCredits == old(sendCredits) - 1 && |sendFree| == |old(sendFree)| - 1
    {
      hide Store;
      var n := |sendFree| - 1;
      var slot := sendFree[n];
      var grant := Min(grantPending, U16_MAX);
      sendMem := Store(sendMem, slot, Frame(Envelope(|payload|, grant, 0), payload));
      ok := conn.Posts();
      if !ok {
        closed := true;
        log := log.(refused := true);
        return;
      }
      conn := conn.(sq := conn.sq + [DataSend(slot)]);
      sendFree := sendFree[..n];
      sendCredits := sendCredits - 1;
      grantPending := grantPending - grant;
    }

    /** `maybe_return_credits` over `send_credit_return`. */
    method MaybeReturnCredits(threshold: nat) returns (ok: bool)
      modifies `sendMem, `conn, `ctrlBusy, `grantPending, `closed, `log
      ensures View() == if old(grantPending) >= threshold then CreditReturn(old(View())) else old(View())
      ensures conn.Posts() == old(conn.Posts())
      ensures !ok <==> !conn.Posts() && old(grantPending) >= threshold && old(CanReturn(View()))
      ensures closed == (old(closed) || !ok)
      ensures ok && old(grantPending) >= threshold ==> !CanReturn(View())
      ensures if ok && old(grantPending) >= threshold && old(CanReturn(View()))
        then ctrlBusy && grantPending == (if old(grantPending) <= U16_MAX then 0 else old(grantPending) - U16_MAX)
        else ctrlBusy == old(ctrlBusy) && grantPending == old(grantPending)
    {
      ok := true;
      if grantPending >= threshold && !ctrlBusy && !closed && grantPending > 0 {
        ok := SendCreditReturn();
      }
    }

    /** `send_credit_return` past its guard. */
    method SendCreditReturn() returns (ok: bool)
      requires CanReturn(View())
      modifies `sendMem, `conn, `ctrlBusy, `grantPending, `closed, `log
      ensures View() == CreditReturn(old(View())) && ok == conn.Posts() == old(conn.Posts())
      ensures !CanReturn(View()) && closed == (old(closed) || !ok)
      ensures ok ==> ctrlBusy && grantPending == (if old(grantPending) <= U16_MAX then 0 else old(grantPending) - U16_MAX)
      ensures !ok ==> ctrlBusy == old(ctrlBusy) && grantPending == old(grantPending)
    {
      var grant := Min(grantPending, U16_MAX);
      var slot := params.CtrlSlot();
      sendMem := Store(sendMem, slot, Frame(Envelope(0, grant, CREDIT_ONLY), []));
      ok := conn.Posts();
      if !ok {
        closed := true;
        log := log.(refused := true);
        return;
      }
      conn := conn.(sq := conn.sq + [CtrlSend(slot)]);
      ctrlBusy := true;
      grantPending := grantPending - grant;
    }

    /** Send the stage followed by `bs` as one message (`post_data_message` as both
        writers use it). */
    method SendStaged(bs: seq<byte>) returns (ok: bool)
      requires CanSend(View())
      modifies this
      ensures View() == PostStaged(old(View()), bs) && ok == conn.Posts() == old(conn.Posts()) && ctrlBusy == old(ctrlBusy)
    {
      var payload := txStage + bs;
      txStage := [];
      ghost var v := View();
      PostDataKeeps(v, payload);
      hide PostData;
      ok := PostDataMessage(payload);
      if ok {
        log := log.(wrote := log.wrote + bs);
      }
    }

    /** The last step of `try_write`: keep what does not fill a message. */
    method Absorb(input: seq<byte>, ghost v0: Peer, ghost before: seq<Action>)
      returns (r: Result<nat, StreamError>, ghost acts: seq<Action>)
      requires Valid() && !closed && |txStage| + |input| < params.cap && View() == Call(v0, before) && WritesOnly(before)
      modifies `txStage, `log
      ensures Valid() && View() == Call(v0, acts) && WritesOnly(acts) && r == Ok(|input|) && log.wrote == old(log.wrote) + input
    {
      hide Call, CqOk, RxOk;
      acts := before;
      r := Ok(|input|);
      if input != [] {
        CallStage(v0, before, input);
        acts := before + [Stage(input)];
        txStage := txStage + input;
        log := log.(wrote := log.wrote + input);
      }
    }

    /** A writer that cannot send returns owed credit before it gives up. */
    method Blocked(consumed: nat, ghost v0: Peer, ghost before: seq<Action>)
      returns (r: Result<nat, StreamError>, ghost acts: seq<Action>)
      requires Valid() && !closed && !CanSend(View()) && View() == Call(v0, before) && WritesOnly(before)
      modifies `sendMem, `conn, `ctrlBusy, `grantPending, `closed, `log
      ensures Valid() && View() == Call(v0, acts) && WritesOnly(acts) && log.wrote == old(log.wrote)
      ensures if r.Ok? then r.value == consumed && !closed && !CanSend(View()) && !CanReturn(View()) else closed && !conn.Posts()
      ensures r.Err? <==> !old(conn.Posts()) && old(CanReturn(View()))
    {
      hide Call, CreditReturn, Usable;
      ghost var v := View();
      CallCredit(v0, before);
      CreditUsable(v);
      acts := before + [Credit];
      var ok := MaybeReturnCredits(1);
      if grantPending == 0 && v.grantPending == 0 {
        assert CreditReturn(v) == v by { NoCredit(v); }
      }
      r := if ok then Ok(consumed) else Err(PostFailed);
    }

    /** One full message out of `try_write`'s buffer: the stage and what tops it up, or
        `cap` bytes of the buffer alone. */
    method SendNext(buf: seq<byte>, consumed: nat, ghost v0: Peer, ghost before: seq<Action>, ghost m: nat)
      returns (ok: bool, next: nat, ghost acts: seq<Action>)
      requires Valid() && CanSend(View()) && View() == Call(v0, before) && Writing(v0, View(), buf, consumed, m)
      requires |txStage| + |buf| - consumed >= params.cap && WritesOnly(before)
      modifies this
      ensures Valid() && View() == Call(v0, acts) && WritesOnly(acts)
      ensures ok ==> Writing(v0, View(), buf, next, m + 1) && txStage == [] && consumed < next
      ensures ok == old(conn.Posts()) == conn.Posts() && (!ok ==> closed) && ctrlBusy == old(ctrlBusy)
    {
      hide Call, PostStaged, Writing, CqOk, RxOk;
      ghost var v := View();
      next := consumed + (params.cap - |txStage|);
      CallPost(v0, before, buf[consumed..next]);
      PostStagedIs(v, buf[consumed..next]);
      if conn.Posts() {
        WritingOn(v0, v, buf, consumed, m);
      }
      acts := before + [Post(buf[consumed..next])];
      ok := SendStaged(buf[consumed..next]);
    }

    /** `try_write` ends: short of a full message, or with one that cannot be sent. */
    method EndWrite(buf: seq<byte>, consumed: nat, ghost v0: Peer, ghost before: seq<Action>, ghost m: nat)
      returns (r: Result<nat, StreamError>, ghost acts: seq<Action>)
      requires Valid() && View() == Call(v0, before) && WritesOnly(before) && Writing(v0, View(), buf, consumed, m)
      requires CanSend(View()) ==> |txStage| + |buf| - consumed < params.cap
      requires conn.Posts() == Posts(v0) && ctrlBusy == v0.ctrlBusy
      requires if consumed == 0 then View() == v0 else txStage == [] && Posts(v0)
      modifies this
      ensures Valid() && View() == Call(v0, acts) && WritesOnly(acts) && WriteEnds(v0, View(), buf, r)
    {
      hide Call, Usable, Writing, Accepted, WritesOnly, CreditReturn;
      WritingFacts(v0, View(), buf, consumed, m);
      WritingStops(v0, View(), buf, consumed, m);
      UsableFacts(View());
      if |txStage| + |buf| - consumed < params.cap {
        assert buf[..consumed] + buf[consumed..] == buf;
        r, acts := Absorb(buf[consumed..], v0, before);
        r := Ok(|buf|);
        return;
      }
      r, acts := Blocked(consumed, v0, before);
    }

    /** Whole messages straight from the buffer, and then the rest into the stage. */
    method WriteRest(buf: seq<byte>, from: nat, ghost v0: Peer, ghost before: seq<Action>, ghost sent: nat)
      returns (r: Result<nat, StreamError>, ghost acts: seq<Action>)
      requires Valid() && View() == Call(v0, before) && WritesOnly(before) && Writing(v0, View(), buf, from, sent)
      requires txStage == [] && conn.Posts() == Posts(v0) && ctrlBusy == v0.ctrlBusy && (if from == 0 then View() == v0 else Posts(v0))
      modifies this
      ensures Valid() && View() == Call(v0, acts) && WritesOnly(acts) && WriteEnds(v0, View(), buf, r)
    {
      hide Call, CreditReturn, Usable, Writing, Accepted, WritesOnly, WriteEnds;
      acts := before;
      var consumed := from;
      ghost var m := sent;
      WritingFacts(v0, View(), buf, consumed, m);
      while |buf| - consumed >= params.cap
        invariant Usable(View()) && View() == Call(v0, acts) && Writing(v0, View(), buf, consumed, m)
        invariant txStage == [] && consumed <= |buf| && !closed && WritesOnly(acts)
        invariant if consumed == 0 then View() == v0 else Posts(v0)
        invariant conn.Posts() == Posts(v0) && ctrlBusy == v0.ctrlBusy
        decreases |buf| - consumed
      {
        if sendFree == [] || sendCredits == 0 {
          break;
        }
        var ok;
        ok, consumed, acts := SendNext(buf, consumed, v0, acts, m);
        if !ok {
          RefusedEnds(v0, View(), buf);
          return Err(PostFailed), acts;
        }
        m := m + 1;
        WritingFacts(v0, View(), buf, consumed, m);
      }
      r, acts := EndWrite(buf, consumed, v0, acts, m);
    }

    /** `try_write`. It accepts exactly what `Accepted` says, in order; it stops short
        only when no message can be sent, and then it has returned what credit it
        could; and it closes the stream exactly when it comes to a post that is refused. */
    method TryWrite(buf: seq<byte>) returns (r: Result<nat, StreamError>, ghost acts: seq<Action>)
      requires Valid()
      modifies this
      ensures Valid() && View() == Call(old(View()), acts) && WritesOnly(acts)
      ensures old(closed) ==> r == Err(BrokenPipe) && acts == []
      ensures r.Ok? ==> !closed
      ensures r == Ok(0) && buf != [] ==> txStage == old(txStage)
      ensures r.Ok? ==> r.value == Accepted(old(View()), |buf|) <= |buf|
      ensures r.Ok? ==> log.wrote == old(log.wrote) + buf[..r.value]
      ensures r.Ok? && r.value < |buf| ==> !CanSend(View()) && !CanReturn(View())
      ensures r.Ok? && r.value == |buf| ==> ctrlBusy == old(ctrlBusy)
      ensures r.Err? && !old(closed) ==> closed && !conn.Posts()
      ensures closed == (old(closed) || WriteCloses(old(View()), |buf|))
    {
      hide Call, CreditReturn, Usable, Writing, Accepted, WritesOnly;
      ghost var v0 := View();
      acts := [];
      CallNone(v0);
      if closed {
        return Err(BrokenPipe), [];
      }
      UsableFacts(v0);
      WritingStarts(v0, buf);
      var consumed := 0;
      ghost var m: nat := 0;
      if txStage != [] {
        if |buf| < params.cap - |txStage| || sendFree == [] || sendCredits == 0 {
          r, acts := EndWrite(buf, 0, v0, acts, 0);
          return;
        }
        var ok;
        ok, consumed, acts := SendNext(buf, 0, v0, acts, 0);
        if !ok {
          return Err(PostFailed), acts;
        }
        m := 1;
      }
      r, acts := WriteRest(buf, consumed, v0, acts, m);
    }

    /** `try_flush_stage`. It says no only when no message can be sent, after returning
        what credit it could. */
    method TryFlushStage() returns (r: Result<bool, StreamError>, ghost acts: seq<Action>)
      requires Valid()
      modifies this
      ensures Valid() && View() == Call(old(View()), acts) && WritesOnly(acts)
      ensures r.Ok? ==> log.wrote == old(log.wrote)
      ensures r == Ok(true) ==> txStage == []
      ensures r == Ok(false) ==> txStage == old(txStage) != [] && !CanSend(View()) && (closed || !CanReturn(View()))
      ensures r.Err? ==> closed && !conn.Posts()
      ensures closed == (old(closed) || FlushCloses(old(View())))
    {
      hide Call, PostStaged, CreditReturn, Usable;
      ghost var v0 := View();
      CallNone(v0);
      if txStage == [] {
        return Ok(true), [];
      }
      UsableFacts(v0);
      if closed || sendFree == [] || sendCredits == 0 {
        CallCredit(v0, []);
        assert [] + [Credit] == [Credit];
        CreditUsable(v0);
        var ok := MaybeReturnCredits(1);
        if v0.grantPending == 0 { NoCredit(v0); }
        return if ok then Ok(false) else Err(PostFailed), [Credit];
      }
      CallPost(v0, [], []);
      PostStagedIs(v0, []);
      var ok := SendStaged([]);
      assert [] + [Post([])] == [Post([])];
      return if ok then Ok(true) else Err(PostFailed), [Post([])];
    }

    /** One turn of the loop in `try_read`. */
    method ReadTurn(out: array<byte>, written: nat, ghost v0: Peer, ghost out0: seq<byte>, ghost before: seq<Action>)
      returns (ok: bool, next: nat, ghost acts: seq<Action>)
      requires Valid() && View() == Call(v0, before) && ReadsOnly(before) && written < out.Length
      requires rxReady != [] && Reading(v0, View(), out0, out[..], written)
      modifies this, out
      ensures Valid() && View() == Call(v0, acts) && ReadsOnly(acts) && Reading(v0, View(), out0, out[..], next)
      ensures written < next <= out.Length && conn.Posts() == old(conn.Posts()) && closed == (old(closed) || !ok)
      ensures !ok <==> !conn.Posts() && out.Length - written >= old(rxReady)[0].end - old(rxReady)[0].start
      ensures ok && !conn.Posts() ==> next == out.Length && grantPending == old(grantPending)
      ensures ok ==> grantPending + |rxReady| == old(grantPending) + |old(rxReady)| && |rxReady| <= |old(rxReady)|
      ensures ctrlBusy == old(ctrlBusy)
    {
      hide Call, Usable, Reading, ReadSome;
      ghost var v := View();
      ReadingFacts(v0, v, out0, out[..], written);
      var r := rxReady[0];
      var take := Min(r.end - r.start, out.Length - written);
      next := written + take;
      ReadingOn(v0, v, out0, out[..], written, take);
      CallRead(v0, before, take);
      ReadUsable(v, take);
      ReadOwes(v, take);
      CopyOut(Cell(recvMem, r.slot).body, r.start, take, out, written);
      acts := before + [Read(take)];
      ok := Consume(take);
    }

    /** `take` bytes of the oldest held message are read. */
    method Consume(take: nat) returns (ok: bool)
      requires CanRead(View(), take)
      modifies `rxReady, `conn, `closed, `grantPending, `log
      ensures View() == ReadSome(old(View()), take)
      ensures conn.Posts() == old(conn.Posts())
      ensures !ok <==> !conn.Posts() && take == old(rxReady)[0].end - old(rxReady)[0].start
      ensures closed == (old(closed) || !ok)
    {
      hide Repost, RecvOwners, Cell;
      ok := true;
      var r := rxReady[0];
      log := log.(got := log.got + Cell(recvMem, r.slot).body[r.start..r.start + take]);
      if r.start + take < r.end {
        rxReady := [r.(start := r.start + take)] + rxReady[1..];
        return;
      }
      rxReady := rxReady[1..];
      ok := FreeSlot(r.slot);
    }

    /** A message is done with: its slot is posted again, and only then is a credit
        owed for it. */
    method FreeSlot(slot: nat) returns (ok: bool)
      modifies `conn, `closed, `grantPending, `log
      ensures View() == if ok then Repost(old(View()), slot).(grantPending := old(grantPending) + 1) else Repost(old(View()), slot)
      ensures ok == conn.Posts() == old(conn.Posts()) && closed == (old(closed) || !ok)
    {
      hide Repost, RecvOwners;
      ok := PostRecvSlot(slot);
      if ok {
        grantPending := grantPending + 1;
      }
    }

    /** `try_read`. It hands over as many of the held bytes as fit, in order, and
        nothing else in the buffer changes. */
    method TryRead(out: array<byte>) returns (r: Result<Option<nat>, StreamError>, ghost acts: seq<Action>)
      requires Valid()
      modifies this, out
      ensures Valid() && View() == Call(old(View()), acts) && ReadsOnly(acts)
      ensures out.Length == 0 ==> r == Ok(Some(0)) && View() == old(View())
      ensures out.Length > 0 && old(rxReady) == [] ==>
        r == Ok(if old(closed) then Some(0) else None) && View() == old(View()) && out[..] == old(out[..])
      ensures out.Length > 0 && old(rxReady) != [] && r.Ok? ==>
        var held := Held(old(View()));
        var n := Min(out.Length, |held|);
        && r.value == Some(n) && n > 0 && log.got == old(log.got) + held[..n] && Held(View()) == held[n..]
        && out[..] == held[..n] + old(out[..])[n..]
        && (grantPending >= params.Threshold() ==> !CanReturn(View()))
      ensures out.Length > 0 && old(rxReady) != [] && r.Ok? && |rxReady| <= |old(rxReady)| ==>
        var owed := old(grantPending) + |old(rxReady)| - |rxReady|;
        if owed >= 1 && 4 * owed + 3 >= params.pool && !old(ctrlBusy) && !old(closed)
        then ctrlBusy && grantPending == (if owed <= U16_MAX then 0 else owed - U16_MAX)
        else ctrlBusy == old(ctrlBusy) && grantPending == owed
      ensures r.Ok? ==> |rxReady| <= |old(rxReady)|
      ensures r.Err? ==> closed && !conn.Posts()
      ensures closed == (old(closed) || ReadCloses(old(View()), out.Length))
    {
      hide Call, Usable, Reading, CreditReturn, HeldBytes, RxOk, CqOk;
      ghost var v0, out0 := View(), out[..];
      acts := [];
      CallNone(v0);
      if out.Length == 0 {
        return Ok(Some(0)), [];
      }
      if rxReady == [] {
        return Ok(if closed then Some(0) else None), [];
      }
      ReadingStarts(v0, out0);
      var written := 0;
      while written < out.Length && rxReady != []
        invariant Usable(View()) && View() == Call(v0, acts) && Reading(v0, View(), out0, out[..], written) && ReadsOnly(acts)
        invariant written <= out.Length && (written == 0 ==> rxReady != [] && View() == v0)
        invariant closed == v0.closed && conn.Posts() == Posts(v0) && ctrlBusy == v0.ctrlBusy
        invariant |rxReady| <= |v0.rxReady| && grantPending + |rxReady| == v0.grantPending + |v0.rxReady|
        invariant written > 0 && !Posts(v0) ==>
          && written == out.Length < v0.rxReady[0].end - v0.rxReady[0].start
          && grantPending == v0.grantPending
      {
        var ok;
        ok, written, acts := ReadTurn(out, written, v0, out0, acts);
        if !ok {
          return Err(PostFailed), acts;
        }
      }
      ReadingFacts(v0, View(), out0, out[..], written);
      var ok;
      ok, acts := EndRead(v0, acts);
      r := if ok then Ok(Some(written)) else Err(PostFailed);
    }

    /** The tail of `try_read`: owed credit goes back once it is a quarter of the pool. */
    method EndRead(ghost v0: Peer, ghost before: seq<Action>) returns (ok: bool, ghost acts: seq<Action>)
      requires Valid() && View() == Call(v0, before) && ReadsOnly(before)
      modifies `sendMem, `conn, `ctrlBusy, `grantPending, `closed, `log
      ensures Valid() && View() == Call(v0, acts) && ReadsOnly(acts) && log.got == old(log.got)
      ensures conn.Posts() == old(conn.Posts()) && closed == (old(closed) || !ok)
      ensures !ok <==> !conn.Posts() && old(grantPending) >= params.Threshold() && old(CanReturn(View()))
      ensures grantPending >= params.Threshold() && ok ==> !CanReturn(View())
      ensures ok ==>
        if old(grantPending) >= 1 && 4 * old(grantPending) + 3 >= params.pool && !old(ctrlBusy) && !old(closed)
        then ctrlBusy && grantPending == (if old(grantPending) <= U16_MAX then 0 else old(grantPending) - U16_MAX)
        else ctrlBusy == old(ctrlBusy) && grantPending == old(grantPending)
    {
      hide Call, Usable, CreditReturn;
      ghost var v := View();
      CallCredit(v0, before);
      CreditUsable(v);
      ok := MaybeReturnCredits(params.Threshold());
      acts := if v.grantPending >= params.Threshold() then before + [Credit] else before;
    }

    /** `drain_completions`: everything in the queue is handled, in order. */
    method DrainCompletions() returns (r: Result<nat, StreamError>, ghost acts: seq<Action>)
      requires Valid()
      modifies this
      ensures Valid() && View() == Call(old(View()), acts)
      ensures r.Ok? ==> conn.cq == [] && r.value == |old(conn.cq)| == |acts|
      ensures r.Err? <==> LastFails(old(View()), acts)
      ensures |acts| <= |old(conn.cq)| && (acts == [] <==> old(conn.cq) == [])
      ensures forall a <- acts :: a == PollOne
    {
      hide Call, Usable, Poll;
      ghost var v0 := View();
      acts := [];
      CallNone(v0);
      var n := 0;
      while conn.cq != []
        invariant Usable(View()) && View() == Call(v0, acts) && n + |conn.cq| == |v0.cq| && n == |acts|
        invariant (forall a <- acts :: a == PollOne) && !LastFails(v0, acts)
        decreases |conn.cq|
      {
        CallPoll(v0, acts);
        PollShrinks(View());
        assert (acts + [PollOne])[..|acts|] == acts;
        var _, e := Pump();
        acts := acts + [PollOne];
        if e.Err? {
          return Err(e.error), acts;
        }
        n := n + 1;
      }
      r := Ok(n);
    }

    /** `return_owed_credits`. */
    method ReturnOwedCredits(urgent: bool) returns (ok: bool, ghost acts: seq<Action>)
      requires Valid()
      modifies this
      ensures Valid() && View() == Call(old(View()), acts) && ReadsOnly(acts)
      ensures rxReady == old(rxReady) && closed == (old(closed) || !ok)
      ensures !ok <==> !old(conn.Posts()) && old(CanReturn(View())) && (urgent || 4 * old(grantPending) + 3 >= params.pool)
      ensures if ok && old(CanReturn(View())) && (urgent || 4 * old(grantPending) + 3 >= params.pool)
        then ctrlBusy && grantPending == (if old(grantPending) <= U16_MAX then 0 else old(grantPending) - U16_MAX)
        else ctrlBusy == old(ctrlBusy) && grantPending == old(grantPending)
      ensures ok && (urgent || grantPending >= params.Threshold()) ==> !CanReturn(View())
      ensures !ok ==> closed && !conn.Posts()
    {
      hide Call, Usable, CreditReturn;
      ghost var v := View();
      CallNone(v);
      CallCredit(v, []);
      assert [] + [Credit] == [Credit];
      CreditUsable(v);
      if v.grantPending == 0 { NoCredit(v); }
      var threshold := if urgent then 1 else params.Threshold();
      acts := if grantPending >= threshold then [Credit] else [];
      ok := MaybeReturnCredits(threshold);
    }

    /** `next_completed_transfer`: the oldest landed transfer ID. */
    method NextCompletedTransfer() returns (id: Option<nat>, ghost acts: seq<Action>)
      requires Valid()
      modifies `done, `log
      ensures Valid() && View() == Call(old(View()), acts)
      ensures id == if old(done) == [] then None else Some(old(done)[0])
      ensures View() == if old(done) == [] then old(View())
        else old(View()).(done := old(done)[1..], outIds := old(log.outIds) + [old(done)[0]])
    {
      hide Call, RxOk, CqOk;
      ghost var v := View();
      CallNone(v);
      if done == [] {
        return None, [];
      }
      CallTake(v, []);
      id := Some(done[0]);
      log := log.(outIds := log.outIds + [done[0]]);
      done := done[1..];
      acts := [] + [TakeId];
    }
  }

  /** `n` bytes into a `try_read` that started in `v0` with `out0` in its buffer. */
  ghost predicate Reading(v0: Peer, v: Peer, out0: seq<byte>, out: seq<byte>, n: nat) {
    && n <= |Held(v0)| && n <= |out0| && v.params == v0.params
    && v.got == v0.got + Held(v0)[..n] && Held(v) == Held(v0)[n..]
    && out == Held(v0)[..n] + out0[n..]
  }

  lemma ReadingStarts(v0: Peer, out0: seq<byte>)
    ensures Reading(v0, v0, out0, out0, 0)
  {
    hide Held;
  }

  lemma ReadingFacts(v0: Peer, v: Peer, out0: seq<byte>, out: seq<byte>, n: nat)
    requires Reading(v0, v, out0, out, n) && Usable(v)
    ensures n <= |Held(v0)| && n <= |out0| == |out|
    ensures v.got == v0.got + Held(v0)[..n] && Held(v) == Held(v0)[n..] && out == Held(v0)[..n] + out0[n..]
    ensures v.rxReady != [] ==> ReadyOk(v.recvMem, v.rxReady[0])
    ensures v.rxReady == [] ==> n == |Held(v0)|
  {
  }

  /** Copying `k` bytes of the oldest held message to the buffer takes the next `k`
      bytes of what was held. */
  lemma ReadingOn(v0: Peer, v: Peer, out0: seq<byte>, out: seq<byte>, n: nat, k: nat)
    requires Reading(v0, v, out0, out, n) && CanRead(v, k) && n + k <= |out0|
    ensures var r, q := v.rxReady[0], ReadSome(v, k);
      Reading(v0, q, out0, out[..n] + Cell(v.recvMem, r.slot).body[r.start..r.start + k] + out[n + k..], n + k)
  {
    hide Held, ReadSome;
    var r, q := v.rxReady[0], ReadSome(v, k);
    var taken := Cell(v.recvMem, r.slot).body[r.start..r.start + k];
    ReadTakes(v, k);
    NextBytes(Held(v0), taken, Held(q), out0, out, n);
  }

  lemma ReadTakes(v: Peer, k: nat)
    requires CanRead(v, k)
    ensures var r, q := v.rxReady[0], ReadSome(v, k);
      var taken := Cell(v.recvMem, r.slot).body[r.start..r.start + k];
      q.got == v.got + taken && Held(v) == taken + Held(q) && |taken| == k && q.params == v.params
  {
    hide HeldBytes, Held, ReadSome;
    var r, q := v.rxReady[0], ReadSome(v, k);
    ReadMoves(v, k, q);
    var taken := Cell(v.recvMem, r.slot).body[r.start..r.start + k];
    ReadBytes(v, k, q);
    assert v.got + (taken + Held(q)) == (v.got + taken) + Held(q);
    SameTail(v.got, Held(v), taken + Held(q));
  }

  lemma NextBytes(held: seq<byte>, taken: seq<byte>, rest: seq<byte>, out0: seq<byte>, out: seq<byte>, n: nat)
    requires n <= |held| && held[n..] == taken + rest && n + |taken| <= |out0| && out == held[..n] + out0[n..]
    ensures n + |taken| <= |held| && held[..n + |taken|] == held[..n] + taken && held[n + |taken|..] == rest
    ensures out[..n] + taken + out[n + |taken|..] == held[..n + |taken|] + out0[n + |taken|..]
  {
    assert held == held[..n] + (taken + rest);
    assert out[n + |taken|..] == out0[n + |taken|..];
  }

  lemma SameTail(a: seq<byte>, b: seq<byte>, c: seq<byte>)
    requires a + b == a + c
    ensures b == c
  {
    assert (a + b)[|a|..] == b && (a + c)[|a|..] == c;
  }

  lemma ReadUsable(p: Peer, k: nat)
    requires Usable(p) && CanRead(p, k)
    ensures Usable(ReadSome(p, k)) && ReadSome(p, k).params == p.params
  {
    hide CqOk, RxOk, HeldBytes;
    ReadBytes(p, k, ReadSome(p, k));
  }

  /** `copy_out`: part of a slot into part of the caller's buffer. */
  method CopyOut(body: seq<byte>, start: nat, k: nat, out: array<byte>, at: nat)
    requires start + k <= |body| && at + k <= out.Length
    modifies out
    ensures out[..] == old(out[..])[..at] + body[start..start + k] + old(out[..])[at + k..]
  {
    CopyInto(out, at, body[start..start + k]);
  }

  /** `m` messages into a `try_write` that started in `v0` and has taken `consumed` bytes. */
  predicate Writing(v0: Peer, v: Peer, buf: seq<byte>, consumed: nat, m: nat) {
    && !v.closed && v.params == v0.params && consumed <= |buf|
    && v.wrote == v0.wrote + buf[..consumed]
    && |v0.txStage| + consumed == m * v0.params.cap + |v.txStage|
    && m <= Sendable(v0) && Sendable(v) == Sendable(v0) - m
  }

  /** Where a `try_write` that started in `v0`, open, may end. */
  predicate WriteEnds(v0: Peer, v: Peer, buf: seq<byte>, r: Result<nat, StreamError>) {
    && v.closed == WriteCloses(v0, |buf|)
    && if r.Ok? then
         && !v.closed && r.value == Accepted(v0, |buf|) <= |buf| && v.wrote == v0.wrote + buf[..r.value]
         && (if r.value < |buf| then !CanSend(v) && !CanReturn(v) else v.ctrlBusy == v0.ctrlBusy)
         && (r.value == 0 && buf != [] ==> v.txStage == v0.txStage)
       else v.closed && !Posts(v)
  }

  lemma RefusedEnds(v0: Peer, v: Peer, buf: seq<byte>)
    requires v.closed && !Posts(v) && WriteCloses(v0, |buf|)
    ensures WriteEnds(v0, v, buf, Err(PostFailed))
  {
  }

  lemma WritingStarts(v0: Peer, buf: seq<byte>)
    ensures !v0.closed ==> Writing(v0, v0, buf, 0, 0)
  {
  }

  lemma WritingFacts(v0: Peer, v: Peer, buf: seq<byte>, consumed: nat, m: nat)
    requires Writing(v0, v, buf, consumed, m)
    ensures !v.closed && v.params == v0.params && consumed <= |buf| && v.wrote == v0.wrote + buf[..consumed]
  {
  }

  lemma WritingOn(v0: Peer, v: Peer, buf: seq<byte>, consumed: nat, m: nat)
    requires Writing(v0, v, buf, consumed, m) && CanSend(v) && Posts(v)
    requires |v.txStage| < v.params.cap <= |v.txStage| + |buf| - consumed
    ensures var next := consumed + v.params.cap - |v.txStage|;
      Writing(v0, PostStaged(v, buf[consumed..next]), buf, next, m + 1)
  {
    hide PostStaged, Usable;
    var next := consumed + v.params.cap - |v.txStage|;
    PostStagedIs(v, buf[consumed..next]);
    assert buf[..next] == buf[..consumed] + buf[consumed..next];
    MulGrows(m, m, v.params.cap);
  }

  /** A write ends when what is left does not fill a message, or no message can go. */
  lemma WritingStops(v0: Peer, v: Peer, buf: seq<byte>, consumed: nat, m: nat)
    requires Writing(v0, v, buf, consumed, m)
    ensures |v.txStage| + |buf| - consumed < v.params.cap ==> Accepted(v0, |buf|) == |buf|
    ensures |v.txStage| + |buf| - consumed >= v.params.cap && !CanSend(v) && (v.txStage == [] || consumed == 0) ==>
      Accepted(v0, |buf|) == consumed
  {
    var k := Sendable(v0);
    MulGrows(m, k, v0.params.cap);
    MulGrows(m + 1, k + 1, v0.params.cap);
  }

  /** Sending leaves the history alone, so it can be written down afterwards. */
  lemma PostDataKeeps(p: Peer, payload: seq<byte>)
    requires CanSend(p)
    ensures PostData(p, payload).wrote == p.wrote && Posts(PostData(p, payload)) == Posts(p)
  {
  }

  lemma NoCredit(p: Peer)
    requires p.grantPending == 0
    ensures CreditReturn(p) == p && !CanReturn(p)
  {
  }

  lemma CallNone(p: Peer)
    ensures Call(p, []) == p && WritesOnly([]) && ReadsOnly([])
  {
  }

  lemma UsableFacts(p: Peer)
    requires Usable(p)
    ensures p.params.Valid() && |p.txStage| < p.params.cap
  {
  }
}
