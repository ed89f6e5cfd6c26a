/** What every run of two ends guarantees: the byte stream, the credits, the slots. */
module StreamTheorems {
  import opened Basics
  import opened EnvelopeCodec
  import opened StreamState
  import opened StreamSystem
  import opened StreamSteps
  import opened StreamRuns

  /** The byte stream refines a queue. In every run, failures included, what `b` has
      read and holds is a prefix of what `a` wrote, and while both queue pairs work so is
      everything on its way. Unless a post of `a` was refused, or one of its sends
      failed, the bytes `a` accepted are, in order, the bytes read at `b`, the bytes held
      there, the bytes unpolled or in flight, and the staged bytes, of which there are
      never enough for a message. */
  lemma ByteStream(pa: Params, pb: Params, moves: seq<Move>)
    requires Compatible(pa, pb)
    ensures var s := Exec(Start(pa, pb), moves);
      && s.b.got + Held(s.b) <= s.a.wrote
      && s.a.got + Held(s.a) <= s.b.wrote
      && |s.a.txStage| < pa.cap && |s.b.txStage| < pb.cap
      && (Linked(s.a, s.b) ==>
            && s.b.got + Held(s.b) + Bytes(Transit(s.a, s.b)) <= s.a.wrote
            && s.a.got + Held(s.a) + Bytes(Transit(s.b, s.a)) <= s.b.wrote)
      && ((Linked(s.a, s.b) && !s.a.refused) || Unharmed(s.a) ==>
            s.a.wrote == s.b.got + Held(s.b) + Bytes(Transit(s.a, s.b)) + s.a.txStage)
      && ((Linked(s.a, s.b) && !s.b.refused) || Unharmed(s.b) ==>
            s.b.wrote == s.a.got + Held(s.a) + Bytes(Transit(s.b, s.a)) + s.b.txStage)
  {
    hide Exec, SendOk, RecvOk, WriteOk, Flat, FramesIn, HeldBytes, Unharmed;
    var s := Exec(Start(pa, pb), moves);
    RunInv(pa, pb, moves);
    StageBound(s.a);
    StageBound(s.b);
    PrefixOfPrefix(s.b.got + Held(s.b), Bytes(FramesIn(s.b.recvMem, s.b.cq)), s.a.wrote);
    PrefixOfPrefix(s.a.got + Held(s.a), Bytes(FramesIn(s.a.recvMem, s.a.cq)), s.b.wrote);
  }

  lemma PrefixOfPrefix(x: seq<byte>, y: seq<byte>, z: seq<byte>)
    requires x + y <= z
    ensures x <= z
  {
    assert x == (x + y)[..|x|];
  }

  /** No credit is created, and none is lost but with a receive slot that could not be
      posted again. While both queue pairs work, the sender's credits, the data messages
      on their way or held, the credits owed and the credits riding back add up to the
      pool the receiver advertised, or to less if one of the receiver's posts was refused.
      In every run a sender's credits, with every grant it has yet to poll, stay within
      that pool, so the addition at a completion never saturates; and so do the messages
      a receiver has yet to hand over or to give credit for. */
  lemma CreditConservation(pa: Params, pb: Params, moves: seq<Move>)
    requires Compatible(pa, pb)
    ensures var s := Exec(Start(pa, pb), moves);
      && (Linked(s.a, s.b) ==> CreditLedger(s.a, s.b) <= pb.pool && CreditLedger(s.b, s.a) <= pa.pool)
      && (Linked(s.a, s.b) && !s.b.refused ==> CreditLedger(s.a, s.b) == pb.pool)
      && (Linked(s.a, s.b) && !s.a.refused ==> CreditLedger(s.b, s.a) == pa.pool)
      && s.a.sendCredits + Grants(FramesIn(s.a.recvMem, s.a.cq)) <= pb.pool < U32_MAX
      && s.b.sendCredits + Grants(FramesIn(s.b.recvMem, s.b.cq)) <= pa.pool < U32_MAX
      && |s.a.rxReady| + DataCount(FramesIn(s.a.recvMem, s.a.cq)) + s.a.grantPending <= pa.pool <= U16_MAX
      && |s.b.rxReady| + DataCount(FramesIn(s.b.recvMem, s.b.cq)) + s.b.grantPending <= pb.pool <= U16_MAX
  {
    hide Exec, SendOk, RecvOk, WriteOk, Flat, FramesIn, FramesOut, HeldBytes, Grants, DataCount;
    RunInv(pa, pb, moves);
  }

  /** Every message carries all the credit owed: in every run, a credit return or a data
      message that is posted leaves nothing owed, and the frame that joins the send queue
      has exactly what was. */
  lemma AllOwedCreditGoes(pa: Params, pb: Params, moves: seq<Move>, atA: bool, bs: seq<byte>)
    requires Compatible(pa, pb)
    ensures var s := Exec(Start(pa, pb), moves);
      var p := if atA then s.a else s.b;
      && (CanReturn(p) && Posts(p) ==>
            var q := CreditReturn(p);
            && q.grantPending == 0
            && FramesOut(q.sendMem, q.sq) == FramesOut(p.sendMem, p.sq) + [Frame(Envelope(0, p.grantPending, CREDIT_ONLY), [])])
      && (CanSend(p) && Posts(p) ==>
            var q, data := PostStaged(p, bs), p.txStage + bs;
            && q.grantPending == 0
            && FramesOut(q.sendMem, q.sq) == FramesOut(p.sendMem, p.sq) + [Frame(Envelope(|data|, p.grantPending, 0), data)])
  {
    hide Exec, Inv, SendOk, FramesOut;
    var s := Exec(Start(pa, pb), moves);
    RunInv(pa, pb, moves);
    OwedFits(s.a, s.b);
    var p := if atA then s.a else s.b;
    if CanReturn(p) && Posts(p) {
      CreditFrames(p, CreditReturn(p));
    }
    if CanSend(p) && Posts(p) {
      StageSent(p, bs);
    }
  }

  lemma OwedFits(p: Peer, o: Peer)
    requires Inv(p, o)
    ensures p.grantPending <= U16_MAX && SendOk(p) && |p.txStage| < p.params.cap
    ensures o.grantPending <= U16_MAX && SendOk(o) && |o.txStage| < o.params.cap
  {
    hide RecvOk, WriteOk, Lossless, InOrder, FramesIn, HeldBytes, DataCount, Grants, Flat;
  }

  lemma StageSent(p: Peer, bs: seq<byte>)
    requires SendOk(p) && CanSend(p) && Posts(p) && p.grantPending <= U16_MAX && |p.txStage| < p.params.cap
    ensures var q, data := PostStaged(p, bs), p.txStage + bs;
      && q.grantPending == 0
      && FramesOut(q.sendMem, q.sq) == FramesOut(p.sendMem, p.sq) + [Frame(Envelope(|data|, p.grantPending, 0), data)]
  {
    hide SendOk, FramesOut, Store;
    var p0 := p.(txStage := []);
    SendSame(p, p0);
    PostDataFrames(p0, p.txStage + bs, PostData(p0, p.txStage + bs));
  }

  ghost predicate Distinct(s: seq<nat>) { forall i, j :: 0 <= i < j < |s| ==> s[i] != s[j] }

  lemma OnceEach(s: seq<nat>, n: nat)
    requires multiset(s) <= All(n)
    ensures Distinct(s) && forall x <- s :: x < n
  {
    forall i, j | 0 <= i < j < |s|
      ensures s[i] != s[j]
    {
      assert s == s[..j] + [s[j]] + s[j + 1..];
      assert s[i] in s[..j];
      assert multiset(s)[s[j]] >= multiset(s[..j])[s[j]] + 1;
      assert All(n)[s[j]] <= 1;
    }
    forall x | x in s
      ensures x < n
    {
      assert x in multiset(s);
      assert All(n)[x] >= 1;
    }
  }

  /** Slot ownership in every run, failures included: each data send slot is in exactly
      one of the free list, the send queue, the unacknowledged sends and the unread
      completions; no receive slot is in two of the posted receives, the unread
      completions and the held messages, and until a post is refused or a flushed receive
      is polled each is in one; there is never more than one control message anywhere. */
  lemma SlotOwnership(pa: Params, pb: Params, moves: seq<Move>)
    requires Compatible(pa, pb)
    ensures var p := Exec(Start(pa, pb), moves).a;
      && SendOwners(p) == All(pa.sendPool)
      && Distinct(p.sendFree) && (forall x <- p.sendFree :: x < pa.sendPool)
      && RecvOwners(p) <= All(pa.Slots()) && (Whole(p) ==> RecvOwners(p) == All(pa.Slots()))
      && Distinct(p.posted) && (forall x <- p.posted :: x < pa.Slots())
      && CtrlInFlight(p) == if p.ctrlBusy then 1 else 0
  {
    hide Exec, Safe, Lossless, WriteOk, Flat, FramesIn, FramesOut, All, CqOk, RxOk;
    RunInv(pa, pb, moves);
    var p := Exec(Start(pa, pb), moves).a;
    assert multiset(p.sendFree) <= All(pa.sendPool);
    OnceEach(p.sendFree, pa.sendPool);
    assert multiset(p.posted) <= All(pa.Slots());
    OnceEach(p.posted, pa.Slots());
  }

  // ---- receiver-not-ready ------------------------------------------------------

  lemma {:induction false} HeldCount(rx: seq<ReadyMsg>)
    ensures |Flat(HeldSlot, rx)| == |rx|
  {
    if rx != [] {
      HeldCount(rx[1..]);
    }
  }

  /** Every receive slot is posted, unread or held. */
  lemma RecvCount(p: Peer)
    requires RecvOk(p) && Whole(p)
    ensures |p.posted| + |Flat(RecvSlot, p.cq)| + |p.rxReady| == p.params.Slots()
  {
    hide Flat, FramesIn, CqOk, RxOk, All;
    HeldCount(p.rxReady);
    assert |RecvOwners(p)| == |All(p.params.Slots())| == p.params.Slots() by { AllCount(p.params.Slots()); }
    assert |RecvOwners(p)| == |p.posted| + |Flat(RecvSlot, p.cq)| + |Flat(HeldSlot, p.rxReady)|;
  }

  lemma AllCount(n: nat)
    ensures |All(n)| == n
  {
  }

  lemma ImmBound(p: Peer)
    requires WriteOk(p)
    ensures |Flat(WrImm, p.sq)| <= p.immOut <= p.params.peerSplit
  {
    hide Flat;
  }

  lemma {:induction false} NoMessages(mem: seq<Frame>, cq: seq<Completion>)
    requires Flat(RecvSlot, cq) == []
    ensures FramesIn(mem, cq) == []
  {
    if cq != [] {
      FlatHead(RecvSlot, cq);
      NoMessages(mem, cq[1..]);
    }
  }

  /** Credits at home or on their way back to `p`: what it could still send. */
  function Spare(p: Peer, q: Peer): nat { p.sendCredits + q.grantPending + Grants(Transit(q, p)) }

  /** What a receiver that has polled its receive completions has posted, exactly: the
      control slack, the split headroom, one receive for each data message on its way and
      one for each credit that could still be spent. */
  lemma PostedExactly(p: Peer, q: Peer)
    requires Inv(p, q) && Linked(p, q) && !q.refused && Flat(RecvSlot, q.cq) == []
    ensures |q.posted| == CTRL_RECV_SLACK + q.params.split + DataCount(FramesOut(p.sendMem, p.sq)) + Spare(p, q)
  {
    hide SendOk, RecvOk, WriteOk, Flat, FramesIn, FramesOut, HeldBytes, Grants, DataCount;
    RecvCount(q);
    NoMessages(q.recvMem, q.cq);
    assert Transit(p, q) == FramesOut(p.sendMem, p.sq);
  }

  /** A receive posted for everything on its way: two for the control lane, one for each
      data message and one for each write-with-immediate. */
  predicate Ready(p: Peer, q: Peer) {
    |q.posted| >= CTRL_RECV_SLACK + DataCount(FramesOut(p.sendMem, p.sq)) + |Flat(WrImm, p.sq)|
  }

  /** `q` has polled its receive completions over a working connection. */
  predicate Drained(p: Peer, q: Peer) { Linked(p, q) && !q.refused && Flat(RecvSlot, q.cq) == [] }

  /** In every run, at a drained receiver: nothing waits for a receive; there is a receive
      for everything on its way exactly when the immediates on their way are covered by
      the headroom and the spare credits; and with split mode negotiated, or no window,
      they always are. */
  lemma ReceiverReady(pa: Params, pb: Params, moves: seq<Move>)
    requires Compatible(pa, pb)
    ensures var s := Exec(Start(pa, pb), moves);
      Drained(s.a, s.b) ==>
        && (s.a.sq != [] ==> CanDeliver(s.a, s.b))
        && |s.b.posted| >= CTRL_RECV_SLACK + DataCount(FramesOut(s.a.sendMem, s.a.sq))
        && (Ready(s.a, s.b) <==> |Flat(WrImm, s.a.sq)| <= pb.split + Spare(s.a, s.b))
        && (pa.splitOn || pa.peerSplit == 0 ==> Ready(s.a, s.b))
  {
    hide Exec, Inv, Flat, FramesOut, DataCount, Spare;
    var s := Exec(Start(pa, pb), moves);
    RunInv(pa, pb, moves);
    if Drained(s.a, s.b) {
      PostedExactly(s.a, s.b);
      InvImms(s.a, s.b);
    }
  }

  lemma InvImms(p: Peer, q: Peer)
    requires Inv(p, q)
    ensures |Flat(WrImm, p.sq)| <= p.params.peerSplit
    ensures p.params.splitOn ==> p.params.peerSplit <= q.params.split
  {
    hide SendOk, RecvOk, WriteOk, Lossless, Flat, FramesIn, HeldBytes, Grants;
    ImmBound(p);
  }
}
