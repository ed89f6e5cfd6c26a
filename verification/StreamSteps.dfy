/** Every move of either end keeps the invariant. */
module StreamSteps {
  import opened Basics
  import opened EnvelopeCodec
  import opened StreamState
  import opened StreamSystem

  // ---- queues grow at the back -------------------------------------------------

  lemma {:induction false} FramesOutAppend(mem: seq<Frame>, a: seq<WorkRequest>, b: seq<WorkRequest>)
    ensures FramesOut(mem, a + b) == FramesOut(mem, a) + FramesOut(mem, b)
  {
    hide Cell;
    if a == [] {
      assert a + b == b;
      assert [] + FramesOut(mem, b) == FramesOut(mem, b);
    } else {
      assert (a + b)[1..] == a[1..] + b && (a + b)[0] == a[0];
      FramesOutAppend(mem, a[1..], b);
      Associate(if a[0].OneSided? then [] else [Cell(mem, a[0].slot)], FramesOut(mem, a[1..]), FramesOut(mem, b));
    }
  }

  lemma FramesOutSnoc(mem: seq<Frame>, sq: seq<WorkRequest>, w: WorkRequest)
    ensures FramesOut(mem, sq + [w]) ==
            FramesOut(mem, sq) + (if w.OneSided? then [] else [Cell(mem, w.slot)])
  {
    FramesOutAppend(mem, sq, [w]);
    assert [w][1..] == [];
  }

  lemma {:induction false} CqSnoc(mem: seq<Frame>, cq: seq<Completion>, c: Completion)
    ensures FramesIn(mem, cq + [c]) == FramesIn(mem, cq) + (if IsMessage(c) then [Cell(mem, c.id.slot)] else [])
    ensures CqOk(mem, cq + [c]) == (CqOk(mem, cq) && CompletionOk(mem, c))
  {
    hide Cell, CompletionOk;
    var last := if IsMessage(c) then [Cell(mem, c.id.slot)] else [];
    if cq == [] {
      assert [] + [c] == [c];
      assert [c][1..] == [];
      assert last + [] == last && [] + last == last;
    } else {
      assert (cq + [c])[1..] == cq[1..] + [c] && (cq + [c])[0] == cq[0];
      CqSnoc(mem, cq[1..], c);
      Associate(if IsMessage(cq[0]) then [Cell(mem, cq[0].id.slot)] else [], FramesIn(mem, cq[1..]), last);
    }
  }

  lemma {:induction false} RxSnoc(mem: seq<Frame>, rx: seq<ReadyMsg>, r: ReadyMsg)
    requires ReadyOk(mem, r)
    ensures HeldBytes(mem, rx + [r]) == HeldBytes(mem, rx) + Cell(mem, r.slot).body[r.start..r.end]
    ensures RxOk(mem, rx + [r]) == RxOk(mem, rx)
  {
    if rx == [] {
      assert [] + [r] == [r];
      assert [r][1..] == [];
    } else {
      assert (rx + [r])[1..] == rx[1..] + [r];
      RxSnoc(mem, rx[1..], r);
    }
  }

  lemma {:induction false} CountAppend(a: seq<Frame>, b: seq<Frame>)
    ensures Grants(a + b) == Grants(a) + Grants(b)
    ensures DataCount(a + b) == DataCount(a) + DataCount(b)
  {
    if a == [] {
      assert a + b == b;
    } else {
      assert (a + b)[1..] == a[1..] + b;
      CountAppend(a[1..], b);
    }
  }

  lemma CountSnoc(fs: seq<Frame>, f: Frame)
    ensures Grants(fs + [f]) == Grants(fs) + f.env.credits
    ensures DataCount(fs + [f]) == DataCount(fs) + (if f.env.IsCreditOnly() then 0 else 1)
  {
    CountAppend(fs, [f]);
    assert [f][1..] == [];
  }

  // ---- memory the NIC or a reader owns is not touched ----------------------------

  lemma {:induction false} FramesOutStore(mem: seq<Frame>, slot: nat, f: Frame, sq: seq<WorkRequest>)
    requires slot !in Flat(DataSlot, sq) && slot !in Flat(CtrlOf, sq)
    ensures FramesOut(Store(mem, slot, f), sq) == FramesOut(mem, sq)
  {
    if sq != [] {
      assert DataSlot(sq[0]) + Flat(DataSlot, sq[1..]) == Flat(DataSlot, sq);
      assert CtrlOf(sq[0]) + Flat(CtrlOf, sq[1..]) == Flat(CtrlOf, sq);
      FramesOutStore(mem, slot, f, sq[1..]);
      match sq[0] {
        case DataSend(s) => assert s in DataSlot(sq[0]);
        case CtrlSend(s) => assert s in CtrlOf(sq[0]);
        case _ =>
      }
    }
  }

  lemma {:induction false} CqStore(mem: seq<Frame>, slot: nat, f: Frame, cq: seq<Completion>)
    requires slot !in Flat(RecvSlot, cq)
    ensures FramesIn(Store(mem, slot, f), cq) == FramesIn(mem, cq)
    ensures CqOk(Store(mem, slot, f), cq) == CqOk(mem, cq)
  {
    if cq != [] {
      assert RecvSlot(cq[0]) + Flat(RecvSlot, cq[1..]) == Flat(RecvSlot, cq);
      CqStore(mem, slot, f, cq[1..]);
      if cq[0].id.RecvId? {
        assert cq[0].id.slot in RecvSlot(cq[0]);
      }
    }
  }

  lemma {:induction false} RxStore(mem: seq<Frame>, slot: nat, f: Frame, rx: seq<ReadyMsg>)
    requires slot !in Flat(HeldSlot, rx)
    ensures HeldBytes(Store(mem, slot, f), rx) == HeldBytes(mem, rx)
    ensures RxOk(Store(mem, slot, f), rx) == RxOk(mem, rx)
  {
    if rx != [] {
      assert HeldSlot(rx[0]) + Flat(HeldSlot, rx[1..]) == Flat(HeldSlot, rx);
      assert rx[0].slot in HeldSlot(rx[0]);
      RxStore(mem, slot, f, rx[1..]);
    }
  }

  /** Facts about the front of each queue. */
  lemma FlatHead<T, U>(f: T -> seq<U>, s: seq<T>)
    requires s != []
    ensures Flat(f, s) == f(s[0]) + Flat(f, s[1..])
    ensures f(s[0]) == [] ==> Flat(f, s) == Flat(f, s[1..])
  {
  }

  lemma FlatNone<T, U>(f: T -> seq<U>)
    ensures Flat(f, []) == []
  {
  }

  lemma FlatOne<T, U>(f: T -> seq<U>, x: T)
    ensures Flat(f, [x]) == f(x)
  {
    assert [x][1..] == [];
  }

  /** A free data slot is not on its way anywhere, and is not the control slot. */
  lemma FreeSlotIdle(p: Peer, slot: nat)
    requires SendOk(p) && slot in p.sendFree
    ensures slot < p.params.sendPool
    ensures slot !in Flat(DataSlot, p.sq) && slot !in Flat(CtrlOf, p.sq)
  {
    hide Flat, FramesOut;
    assert SendOwners(p)[slot] == All(p.params.sendPool)[slot];
    assert slot in multiset(p.sendFree);
    assert slot !in multiset(Flat(DataSlot, p.sq));
  }

  /** A posted receive slot holds nothing anyone still wants. */
  lemma PostedSlotIdle(p: Peer, slot: nat)
    requires RecvOk(p) && slot in p.posted
    ensures slot < p.params.Slots()
    ensures slot !in Flat(RecvSlot, p.cq) && slot !in Flat(HeldSlot, p.rxReady)
  {
    hide Flat, FramesIn, CqOk, RxOk;
    assert RecvOwners(p)[slot] <= All(p.params.Slots())[slot];
    assert slot in multiset(p.posted);
    assert slot !in multiset(Flat(RecvSlot, p.cq));
    assert slot !in multiset(Flat(HeldSlot, p.rxReady));
  }

  // ---- each part of the invariant reads only its own fields ------------------------

  lemma SendFrame(p: Peer, q: Peer)
    requires SendOk(p)
    requires q.params == p.params && |q.sendMem| == |p.sendMem|
    requires SendOwners(q) == SendOwners(p) && CtrlOk(q)
    requires Cell(q.sendMem, q.params.CtrlSlot()).body == []
    requires forall f <- FramesOut(q.sendMem, q.sq) :: f in FramesOut(p.sendMem, p.sq) || FrameOk(p.params.cap, f)
    requires |q.txStage| < q.params.cap
    ensures SendOk(q)
  {
    hide Flat, FramesOut, All, SendOwners, CtrlOk;
  }

  /** No sender field changed; the completions only lost or gained other classes. */
  lemma SendSame(p: Peer, q: Peer)
    requires SendOk(p)
    requires q.params == p.params && q.sendMem == p.sendMem && q.sendFree == p.sendFree
    requires q.ctrlBusy == p.ctrlBusy && q.sq == p.sq && q.unacked == p.unacked && |q.txStage| < q.params.cap
    requires Flat(SendDone, q.cq) == Flat(SendDone, p.cq) && Flat(CtrlDone, q.cq) == Flat(CtrlDone, p.cq)
    ensures SendOk(q)
  {
    hide Flat, FramesOut, All;
  }

  lemma RecvSame(p: Peer, q: Peer)
    requires RecvOk(p)
    requires q.params == p.params && q.recvMem == p.recvMem && q.posted == p.posted && q.cq == p.cq
    requires q.rxReady == p.rxReady && (q.alive ==> p.alive) && (Whole(q) ==> Whole(p))
    ensures RecvOk(q)
  {
    hide Flat, FramesIn, CqOk, RxOk, All;
  }

  lemma WriteSame(p: Peer, q: Peer)
    requires WriteOk(p)
    requires q.params == p.params && q.writesOut == p.writesOut && q.immOut == p.immOut && q.unacked == p.unacked
    requires Flat(PutOf, q.sq) == Flat(PutOf, p.sq) && Flat(WrImm, q.sq) == Flat(WrImm, p.sq)
    requires Flat(WriteDone, q.cq) == Flat(WriteDone, p.cq) && Flat(ImmDone, q.cq) == Flat(ImmDone, p.cq)
    ensures WriteOk(q)
  {
    hide Flat;
  }

  // ---- moves of one end that post something -----------------------------------------

  lemma KeepStage(p: Peer, o: Peer, bs: seq<byte>, q: Peer)
    requires Inv(p, o) && |p.txStage| + |bs| < p.params.cap
    requires q == p.(txStage := p.txStage + bs, wrote := p.wrote + bs)
    ensures Inv(q, o)
  {
    hide Flat, FramesIn, FramesOut, HeldBytes, Grants, DataCount, SendOk, RecvOk, WriteOk;
    assert |p.txStage| < p.params.cap by { hide *; StageBound(p); }
    SendSame(p, q);
    RecvSame(p, q);
    WriteSame(p, q);
  }

  lemma StageBound(p: Peer)
    requires SendOk(p)
    ensures |p.txStage| < p.params.cap && |p.sendMem| == p.params.sendPool + 1 && CtrlOk(p)
    ensures Cell(p.sendMem, p.params.CtrlSlot()).body == []
  {
    hide Flat, FramesOut, All, SendOwners, CtrlOk;
  }

  lemma KeepFlags(p: Peer, o: Peer, closed: bool, alive: bool, accepts: bool)
    requires Inv(p, o) && (alive ==> p.alive) && (p.closed ==> closed)
    ensures Inv(p.(closed := closed, alive := alive, accepts := accepts), o)
  {
    hide Flat, FramesIn, FramesOut, HeldBytes, Grants, DataCount, SendOk, RecvOk, WriteOk;
    var q := p.(closed := closed, alive := alive, accepts := accepts);
    StageBound(p);
    SendSame(p, q);
    RecvSame(p, q);
    WriteSame(p, q);
  }

  lemma KeepTakeId(p: Peer, o: Peer, q: Peer)
    requires Inv(p, o) && p.done != []
    requires q == p.(done := p.done[1..], outIds := p.outIds + [p.done[0]])
    ensures Inv(q, o)
  {
    hide Flat, FramesIn, FramesOut, HeldBytes, Grants, DataCount, SendOk, RecvOk, WriteOk;
    StageBound(p);
    SendSame(p, q);
    RecvSame(p, q);
    WriteSame(p, q);
    assert q.outIds + q.done == p.outIds + p.done;
  }

  lemma PostDataOwners(p: Peer, payload: seq<byte>, q: Peer)
    requires CanSend(p) && Posts(p) && q == PostData(p, payload)
    ensures SendOwners(q) == SendOwners(p)
  {
    hide Flat;
    var n := |p.sendFree| - 1;
    assert p.sendFree == p.sendFree[..n] + [p.sendFree[n]];
    FlatSnoc(DataSlot, p.sq, DataSend(p.sendFree[n]));
  }

  lemma PostDataCtrl(p: Peer, payload: seq<byte>, q: Peer)
    requires CtrlOk(p) && CanSend(p) && Posts(p) && q == PostData(p, payload)
    ensures CtrlOk(q)
  {
    hide Flat;
    FlatSnoc(CtrlOf, p.sq, DataSend(p.sendFree[|p.sendFree| - 1]));
  }

  lemma PostDataFrames(p: Peer, payload: seq<byte>, q: Peer)
    requires SendOk(p) && CanSend(p) && Posts(p) && q == PostData(p, payload)
    ensures FramesOut(q.sendMem, q.sq) ==
            FramesOut(p.sendMem, p.sq) + [Frame(Envelope(|payload|, Grant(p), 0), payload)]
  {
    hide Flat, FramesOut, All, SendOwners;
    var slot := p.sendFree[|p.sendFree| - 1];
    FreeSlotIdle(p, slot);
    FramesOutStore(p.sendMem, slot, Frame(Envelope(|payload|, Grant(p), 0), payload), p.sq);
    FramesOutSnoc(q.sendMem, p.sq, DataSend(slot));
  }

  lemma KeepPost(p: Peer, o: Peer, bs: seq<byte>, q: Peer)
    requires Inv(p, o) && CanSend(p) && Posts(p) && 1 <= |p.txStage| + |bs| <= p.params.cap
    requires q == PostStaged(p, bs)
    ensures Inv(q, o)
  {
    hide SendOk, RecvOk, WriteOk, Flat, FramesIn, FramesOut, HeldBytes, Grants, DataCount, All, SendOwners, CtrlOk;
    var payload := p.txStage + bs;
    var f := Frame(Envelope(|payload|, Grant(p), 0), payload);
    var p0 := p.(txStage := []);
    var q0 := PostData(p0, payload);
    var w := DataSend(p.sendFree[|p.sendFree| - 1]);
    StageBound(p);
    SendSame(p, p0);
    PostDataOwners(p0, payload, q0);
    StageBound(p0);
    FreeSlotIdle(p0, p.sendFree[|p.sendFree| - 1]);
    PostDataCtrl(p0, payload, q0);
    PostDataFrames(p0, payload, q0);
    SendFrame(p0, q0);
    SendSame(q0, q);
    RecvSame(p, q);
    FlatSnoc(PutOf, p.sq, w);
    FlatSnoc(WrImm, p.sq, w);
    WriteSame(p, q);
    assert Transit(q, o) == Transit(p, o) + [f] && Transit(o, q) == Transit(o, p);
    FlatSnoc(Payload, Transit(p, o), f);
    CountSnoc(Transit(p, o), f);
    if Intact(p, o) {
      PostedInOrder(p, o, bs, q);
      InOrderPrefix(q, o);
    }
  }

  lemma PostedInOrder(p: Peer, o: Peer, bs: seq<byte>, q: Peer)
    requires InOrder(p, o) && q.wrote == p.wrote + bs && q.txStage == []
    requires Bytes(Transit(q, o)) == Bytes(Transit(p, o)) + (p.txStage + bs)
    ensures InOrder(q, o)
  {
    hide Bytes, Transit, Held;
    var arrived := o.got + Held(o) + Bytes(Transit(p, o));
    assert arrived + p.txStage + bs == arrived + (p.txStage + bs) + [];
    assert o.got + Held(o) + (Bytes(Transit(p, o)) + (p.txStage + bs)) == arrived + (p.txStage + bs);
  }

  /** What is read, held and in transit never runs ahead of what was written. */
  lemma InOrderPrefix(p: Peer, q: Peer)
    requires InOrder(p, q)
    ensures q.got + Held(q) + Bytes(Transit(p, q)) <= p.wrote
  {
    hide Bytes, Transit, Held;
  }

  lemma CreditOwners(p: Peer, q: Peer)
    requires CanReturn(p) && Posts(p) && q == CreditReturn(p)
    ensures SendOwners(q) == SendOwners(p)
    ensures Flat(PutOf, q.sq) == Flat(PutOf, p.sq) && Flat(WrImm, q.sq) == Flat(WrImm, p.sq)
  {
    hide Flat;
    var w := CtrlSend(p.params.CtrlSlot());
    FlatSnoc(DataSlot, p.sq, w);
    FlatSnoc(PutOf, p.sq, w);
    FlatSnoc(WrImm, p.sq, w);
  }

  /** The control slot is idle when a credit return may use it. */
  lemma CreditFrames(p: Peer, q: Peer)
    requires SendOk(p) && CanReturn(p) && Posts(p) && q == CreditReturn(p)
    ensures FramesOut(q.sendMem, q.sq) ==
            FramesOut(p.sendMem, p.sq) + [Frame(Envelope(0, Grant(p), CREDIT_ONLY), [])]
    ensures CtrlOk(q)
  {
    hide Flat, FramesOut, All;
    var slot := p.params.CtrlSlot();
    assert slot !in multiset(Flat(DataSlot, p.sq)) by {
      assert SendOwners(p)[slot] == All(p.params.sendPool)[slot];
    }
    FramesOutStore(p.sendMem, slot, Frame(Envelope(0, Grant(p), CREDIT_ONLY), []), p.sq);
    FramesOutSnoc(q.sendMem, p.sq, CtrlSend(slot));
    FlatSnoc(CtrlOf, p.sq, CtrlSend(slot));
  }

  lemma KeepCredit(p: Peer, o: Peer, q: Peer)
    requires Inv(p, o) && CanReturn(p) && Posts(p) && q == CreditReturn(p)
    ensures Inv(q, o)
  {
    hide SendOk, RecvOk, WriteOk, Flat, FramesIn, FramesOut, HeldBytes, Grants, DataCount, All, SendOwners, CtrlOk;
    var f := Frame(Envelope(0, Grant(p), CREDIT_ONLY), []);
    StageBound(p);
    CreditOwners(p, q);
    CreditFrames(p, q);
    SendFrame(p, q);
    RecvSame(p, q);
    WriteSame(p, q);
    assert Transit(q, o) == Transit(p, o) + [f] && Transit(o, q) == Transit(o, p);
    FlatSnoc(Payload, Transit(p, o), f);
    CountSnoc(Transit(p, o), f);
  }

  /** A refused post changes nothing but the slot it could not send. */
  lemma KeepRefused(p: Peer, o: Peer, q: Peer, slot: nat, f: Frame)
    requires Inv(p, o) && !p.closed
    requires slot !in Flat(DataSlot, p.sq) && slot !in Flat(CtrlOf, p.sq)
    requires slot == p.params.CtrlSlot() ==> f.body == []
    requires q == p.(sendMem := Store(p.sendMem, slot, f), closed := true, refused := true) ||
             q == p.(sendMem := Store(p.sendMem, slot, f), txStage := [], closed := true, refused := true)
    ensures Inv(q, o)
  {
    hide SendOk, RecvOk, WriteOk, Flat, FramesIn, FramesOut, HeldBytes, Grants, DataCount, All, SendOwners, CtrlOk;
    StageBound(p);
    FramesOutStore(p.sendMem, slot, f, p.sq);
    assert SendOwners(q) == SendOwners(p) && CtrlOk(q) by { SenderSlots(p, q); }
    SendFrame(p, q);
    RecvSame(p, q);
    WriteSame(p, q);
    assert Transit(q, o) == Transit(p, o) && Transit(o, q) == Transit(o, p);
  }

  lemma SenderSlots(p: Peer, q: Peer)
    requires q.params == p.params && q.sendFree == p.sendFree && q.ctrlBusy == p.ctrlBusy
    requires q.sq == p.sq && q.unacked == p.unacked && q.cq == p.cq
    ensures SendOwners(q) == SendOwners(p)
    ensures CtrlOk(q) == CtrlOk(p)
  {
    hide Flat;
  }

  lemma {:induction false} WrsFlat(mem: seq<Frame>, puts: seq<Put>, base: nat)
    ensures Flat(DataSlot, Wrs(puts, base)) == [] && Flat(CtrlOf, Wrs(puts, base)) == []
    ensures Flat(PutOf, Wrs(puts, base)) == puts
    ensures Flat(WrImm, Wrs(puts, base)) == Flat(ImmOf, puts)
    ensures FramesOut(mem, Wrs(puts, base)) == []
  {
    if puts != [] {
      assert Wrs(puts, base)[1..] == Wrs(puts[1..], base + 1);
      WrsFlat(mem, puts[1..], base + 1);
    }
  }

  lemma {:induction false} ImmCount(puts: seq<Put>)
    requires ImmLast(puts)
    ensures |Flat(ImmOf, puts)| == if HasImm(puts) then 1 else 0
  {
    if puts != [] {
      assert ImmLast(puts[1..]);
      ImmCount(puts[1..]);
      if |puts| > 1 {
        assert puts[1..][|puts| - 2] == puts[|puts| - 1];
      }
    }
  }

  /** `q` is `p` with the writes `puts` posted behind everything else. */
  lemma BegunSlots(p: Peer, puts: seq<Put>, q: Peer)
    requires q.sq == p.sq + Wrs(puts, 0) && q.sendMem == p.sendMem && q.sendFree == p.sendFree && q.params == p.params
    requires q.unacked == p.unacked && q.cq == p.cq && q.ctrlBusy == p.ctrlBusy
    ensures SendOwners(q) == SendOwners(p) && (CtrlOk(p) ==> CtrlOk(q))
    ensures FramesOut(q.sendMem, q.sq) == FramesOut(p.sendMem, p.sq)
    ensures Flat(PutOf, q.sq) == Flat(PutOf, p.sq) + puts
    ensures Flat(WrImm, q.sq) == Flat(WrImm, p.sq) + Flat(ImmOf, puts)
  {
    hide Flat, FramesOut, Wrs;
    WrsFlat(p.sendMem, puts, 0);
    FlatAppend(DataSlot, p.sq, Wrs(puts, 0));
    FlatAppend(CtrlOf, p.sq, Wrs(puts, 0));
    FlatAppend(PutOf, p.sq, Wrs(puts, 0));
    FlatAppend(WrImm, p.sq, Wrs(puts, 0));
    FramesOutAppend(p.sendMem, p.sq, Wrs(puts, 0));
  }

  lemma BegunWrites(p: Peer, puts: seq<Put>, good: nat, q: Peer)
    requires WriteOk(p) && CanBegin(p, puts) && good <= |puts| && q == PostPuts(p, puts, good)
    ensures WriteOk(q)
  {
    hide Flat, Wrs;
    BegunSlots(p, puts[..good], q);
    ImmCount(puts[..good]);
    assert good == |puts| ==> puts[..good] == puts;
  }

  lemma KeepBegin(p: Peer, o: Peer, puts: seq<Put>, good: nat, q: Peer)
    requires Inv(p, o) && CanBegin(p, puts) && good <= |puts| && q == PostPuts(p, puts, good)
    ensures Inv(q, o)
  {
    hide SendOk, RecvOk, WriteOk, Flat, FramesIn, FramesOut, HeldBytes, Grants, DataCount, All, SendOwners, CtrlOk, Wrs;
    StageBound(p);
    BegunSlots(p, puts[..good], q);
    SendFrame(p, q);
    RecvSame(p, q);
    BegunWrites(p, puts, good, q);
    assert Transit(q, o) == Transit(p, o) && Transit(o, q) == Transit(o, p);
    assert o.landed <= q.puts;
  }

  // ---- the application reads ----------------------------------------------------------

  lemma Regroup(g: seq<byte>, body: seq<byte>, i: nat, j: nat, k: nat, rest: seq<byte>)
    requires i <= j <= k <= |body|
    ensures g + body[i..j] + (body[j..k] + rest) == g + (body[i..k] + rest)
  {
    assert body[i..k] == body[i..j] + body[j..k];
  }

  /** Reading part of a held message, or all of it, hands over the oldest held bytes. */
  lemma ReadBytes(p: Peer, k: nat, q: Peer)
    requires CanRead(p, k) && q == ReadSome(p, k)
    ensures q.got + Held(q) == p.got + Held(p)
    ensures RxOk(p.recvMem, p.rxReady) ==> RxOk(q.recvMem, q.rxReady)
  {
    hide HeldBytes, RxOk, ReadSome;
    ReadMoves(p, k, q);
    var r, tail := p.rxReady[0], p.rxReady[1..];
    var body, rest := Cell(p.recvMem, r.slot).body, HeldBytes(p.recvMem, tail);
    HeldHead(p.recvMem, p.rxReady, r, tail);
    Regroup(p.got, body, r.start, r.start + k, r.end, rest);
    if r.start + k < r.end {
      var r' := r.(start := r.start + k);
      HeldHead(p.recvMem, [r'] + tail, r', tail);
    } else {
      assert body[r.end..r.end] + rest == rest;
    }
  }

  lemma HeldHead(mem: seq<Frame>, rx: seq<ReadyMsg>, r: ReadyMsg, rest: seq<ReadyMsg>)
    requires rx == [r] + rest && ReadyOk(mem, r)
    ensures HeldBytes(mem, rx) == Cell(mem, r.slot).body[r.start..r.end] + HeldBytes(mem, rest)
    ensures RxOk(mem, rx) == RxOk(mem, rest)
  {
    assert rx[1..] == rest;
  }

  /** What a read does to the held messages and the posted receives. */
  lemma ReadMoves(p: Peer, k: nat, q: Peer)
    requires CanRead(p, k) && q == ReadSome(p, k)
    ensures var r, tail := p.rxReady[0], p.rxReady[1..];
      if r.start + k < r.end then q.rxReady == [r.(start := r.start + k)] + tail && q.posted == p.posted && q.refused == p.refused
      else q.rxReady == tail && (if Posts(p) then q.posted == p.posted + [r.slot] else q.posted == p.posted && q.refused)
    ensures q.cq == p.cq && q.recvMem == p.recvMem
    ensures q.closed == (p.closed || (!Posts(p) && k == p.rxReady[0].end - p.rxReady[0].start))
    ensures q.got == p.got + Cell(p.recvMem, p.rxReady[0].slot).body[p.rxReady[0].start..p.rxReady[0].start + k]
  {
  }

  lemma ReadSlots(p: Peer, k: nat, q: Peer)
    requires CanRead(p, k) && q == ReadSome(p, k)
    ensures RecvOwners(q) <= RecvOwners(p) && (Whole(q) ==> RecvOwners(q) == RecvOwners(p))
  {
    hide Flat, ReadSome;
    ReadMoves(p, k, q);
    var r := p.rxReady[0];
    FlatHead(HeldSlot, p.rxReady);
    if r.start + k < r.end {
      FlatHead(HeldSlot, q.rxReady);
      assert q.rxReady[1..] == p.rxReady[1..];
    }
  }

  lemma RecvFrame(p: Peer, q: Peer)
    requires RecvOk(p)
    requires q.params == p.params && q.recvMem == p.recvMem && q.cq == p.cq && q.alive == p.alive
    requires RecvOwners(q) <= RecvOwners(p) && (Whole(q) ==> Whole(p) && RecvOwners(q) == RecvOwners(p))
    requires RxOk(p.recvMem, p.rxReady) ==> RxOk(q.recvMem, q.rxReady)
    ensures RecvOk(q)
  {
    hide Flat, FramesIn, CqOk, RxOk, All, RecvOwners;
  }

  lemma KeepRead(p: Peer, o: Peer, k: nat, q: Peer)
    requires Inv(p, o) && CanRead(p, k) && q == ReadSome(p, k)
    ensures Inv(q, o)
  {
    hide SendOk, RecvOk, WriteOk, Flat, FramesIn, FramesOut, Held, Grants, DataCount, All, RecvOwners, RxOk, ReadSome;
    ReadShape(p, k, q);
    StageBound(p);
    SendSame(p, q);
    ReadBytes(p, k, q);
    ReadSlots(p, k, q);
    RecvFrame(p, q);
    WriteSame(p, q);
    assert Transit(q, o) == Transit(p, o) && Transit(o, q) == Transit(o, p);
  }

  lemma ReadShape(p: Peer, k: nat, q: Peer)
    requires CanRead(p, k) && q == ReadSome(p, k)
    ensures q == p.(got := q.got, rxReady := q.rxReady, posted := q.posted, grantPending := q.grantPending,
                    closed := q.closed, refused := q.refused)
    ensures |q.rxReady| + q.grantPending <= |p.rxReady| + p.grantPending && |q.rxReady| <= |p.rxReady|
    ensures !q.refused ==> |q.rxReady| + q.grantPending == |p.rxReady| + p.grantPending
    ensures (p.closed ==> q.closed) && (p.refused ==> q.refused) && (q.refused && !p.refused ==> q.closed)
  {
    hide ReadSome, Repost, Cell;
    ReadIs(p, k);
    RepostFrame(AfterCopy(p, k), p.rxReady[0].slot);
  }

  /** The oldest message handed over and gone. */
  function AfterCopy(p: Peer, k: nat): Peer
    requires CanRead(p, k)
  {
    var r := p.rxReady[0];
    p.(got := p.got + Cell(p.recvMem, r.slot).body[r.start..r.start + k], rxReady := p.rxReady[1..])
  }

  lemma ReadIs(p: Peer, k: nat)
    requires CanRead(p, k)
    ensures var r, q := p.rxReady[0], AfterCopy(p, k);
      if r.start + k < r.end then ReadSome(p, k) == q.(rxReady := [r.(start := r.start + k)] + p.rxReady[1..])
      else ReadSome(p, k) == if Posts(p) then Repost(q, r.slot).(grantPending := p.grantPending + 1) else Repost(q, r.slot)
  {
    hide Repost, Cell;
  }

  // ---- what handling a completion leaves alone --------------------------------------------

  lemma ReceiveFrame(p: Peer, slot: nat, byteLen: nat)
    ensures var q := Receive(p, slot, byteLen);
      && q == p.(sendCredits := q.sendCredits, rxReady := q.rxReady, posted := q.posted, grantPending := q.grantPending,
                 closed := q.closed, refused := q.refused)
      && (p.closed ==> q.closed) && (p.refused ==> q.refused)
      && (Posts(p) ==> q.closed == p.closed && q.refused == p.refused) && (q.refused && !p.refused ==> q.closed)
  {
    hide Cell, PayloadLen, Repost;
    var q := p.(sendCredits := SaturatingAdd32(p.sendCredits, Cell(p.recvMem, slot).env.credits));
    RepostFrame(q, slot);
  }

  lemma RepostFrame(p: Peer, slot: nat)
    ensures var q := Repost(p, slot);
      && q == p.(posted := q.posted, closed := q.closed, refused := q.refused)
      && (if Posts(p) then q.closed == p.closed && q.refused == p.refused else q.closed && q.refused)
      && q.posted == (if Posts(p) then p.posted + [slot] else p.posted)
  {
  }

  /** All that handling a completion may touch. */
  predicate Framed(p: Peer, ok: bool, q: Peer) {
    && q == p.(sendCredits := q.sendCredits, rxReady := q.rxReady, posted := q.posted, grantPending := q.grantPending,
               ctrlBusy := q.ctrlBusy, sendFree := q.sendFree, writesOut := q.writesOut, immOut := q.immOut,
               done := q.done, closed := q.closed, refused := q.refused)
    && (p.closed ==> q.closed) && (p.refused ==> q.refused)
    && (Posts(p) && ok ==> q.closed == p.closed && q.refused == p.refused)
    && (!ok ==> q.closed)
  }

  lemma HandleFrame(p: Peer, c: Completion)
    ensures Framed(p, c.ok, Handle(p, c))
  {
    hide Handle, Receive, Repost, Reclaim, Framed;
    if c.opcode.OpRecvRdmaWithImm? {
      ImmIs(p, c);
      ImmFramed(p, c, Handle(p, c));
    } else {
      HandleIs(p, c);
      if c.id.RecvId? {
        RecvFramed(p, c, Handle(p, c));
      } else if c.id.SendId? || c.id.CtrlId? {
        SendFramed(p, c);
      } else {
        WriteFramed(p, c, Handle(p, c));
      }
    }
  }

  lemma ImmFramed(p: Peer, c: Completion, q: Peer)
    requires q == if !c.ok then p.(closed := true)
      else if c.id.RecvId? then Repost(p.(done := p.done + [c.imm]), c.id.slot)
      else p.(done := p.done + [c.imm])
    ensures Framed(p, c.ok, q)
  {
    hide Repost;
    if c.ok && c.id.RecvId? {
      RepostFrame(p.(done := p.done + [c.imm]), c.id.slot);
    }
  }

  lemma RecvFramed(p: Peer, c: Completion, q: Peer)
    requires c.id.RecvId? && q == if c.ok then Receive(p, c.id.slot, c.byteLen) else p.(closed := true)
    ensures Framed(p, c.ok, q)
  {
    hide Receive;
    if c.ok {
      ReceiveFrame(p, c.id.slot, c.byteLen);
    }
  }

  lemma SendFramed(p: Peer, c: Completion)
    ensures Framed(p, c.ok, Reclaim(p.(closed := p.closed || !c.ok), c.id))
  {
    hide Reclaim;
    ReclaimFrame(p.(closed := p.closed || !c.ok), c.id);
  }

  lemma WriteFramed(p: Peer, c: Completion, q: Peer)
    requires q == p.(writesOut := q.writesOut, immOut := q.immOut, closed := p.closed || !c.ok)
    ensures Framed(p, c.ok, q)
  {
  }

  lemma ReclaimFrame(p: Peer, id: WrId)
    ensures var q := Reclaim(p, id); q == p.(ctrlBusy := q.ctrlBusy, sendFree := q.sendFree)
  {
  }

  /** A completed send, write or flushed receive, field by field. */
  lemma HandleOwn(p: Peer, c: Completion)
    requires !c.opcode.OpRecvRdmaWithImm? && !(c.id.RecvId? && c.ok)
    ensures var q := Handle(p, c);
      && q.rxReady == p.rxReady && q.posted == p.posted && q.grantPending == p.grantPending && q.done == p.done
      && q.sendCredits == p.sendCredits && q.refused == p.refused
      && q.sendFree == (if c.id.SendId? then p.sendFree + [c.id.slot] else p.sendFree)
      && q.writesOut == (if c.id.WriteId? || c.id.ImmWriteId? then SaturatingSub(p.writesOut, 1) else p.writesOut)
  {
    hide Handle;
    HandleIs(p, c);
    if c.id.SendId? || c.id.CtrlId? {
      ReclaimFields(p.(closed := p.closed || !c.ok), c.id);
    }
  }

  lemma HandleIs(p: Peer, c: Completion)
    requires !c.opcode.OpRecvRdmaWithImm?
    ensures c.id.SendId? || c.id.CtrlId? ==> Handle(p, c) == Reclaim(p.(closed := p.closed || !c.ok), c.id)
    ensures c.id.WriteId? ==> Handle(p, c) == p.(writesOut := SaturatingSub(p.writesOut, 1), closed := p.closed || !c.ok)
    ensures c.id.ImmWriteId? ==>
      Handle(p, c) == p.(writesOut := SaturatingSub(p.writesOut, 1), immOut := SaturatingSub(p.immOut, 1), closed := p.closed || !c.ok)
    ensures c.id.RecvId? ==> Handle(p, c) == if c.ok then Receive(p, c.id.slot, c.byteLen) else p.(closed := true)
  {
    hide Reclaim, Receive, Repost;
  }

  lemma ReclaimFields(p: Peer, id: WrId)
    requires id.SendId? || id.CtrlId?
    ensures var q := Reclaim(p, id);
      && q.rxReady == p.rxReady && q.posted == p.posted && q.grantPending == p.grantPending && q.done == p.done
      && q.sendCredits == p.sendCredits && q.refused == p.refused && q.writesOut == p.writesOut && q.immOut == p.immOut
      && q.closed == p.closed
      && q.sendFree == (if id.SendId? then p.sendFree + [id.slot] else p.sendFree)
      && q.ctrlBusy == (p.ctrlBusy && !id.CtrlId?)
  {
  }

  /** What handling `c` in `p` changes, field by field: what each class of work request
      gives back, that a failure always closes and changes nothing on the receiving side,
      and that a success closes only when its receive cannot be posted again. */
  predicate Handled(p: Peer, c: Completion, q: Peer) {
    var imm := c.opcode.OpRecvRdmaWithImm?;
    && q.done == p.done + (if imm && c.ok then [c.imm] else [])
    && q.sendFree == p.sendFree + (if !imm && c.id.SendId? then [c.id.slot] else [])
    && q.ctrlBusy == (p.ctrlBusy && (imm || !c.id.CtrlId?))
    && q.writesOut == p.writesOut - (if !imm && (c.id.WriteId? || c.id.ImmWriteId?) && p.writesOut > 0 then 1 else 0)
    && q.immOut == p.immOut - (if !imm && c.id.ImmWriteId? && p.immOut > 0 then 1 else 0)
    && q.closed == (p.closed || !c.ok || (!Posts(p) && HandleFails(p, c) && (imm || Min(c.byteLen, p.params.msgSize) >= 8)))
    && (imm || !c.ok || !c.id.RecvId? ==> q.rxReady == p.rxReady && q.sendCredits == p.sendCredits && q.grantPending == p.grantPending)
    && (!c.ok || !c.id.RecvId? ==> q.posted == p.posted)
    && (imm && c.ok && c.id.RecvId? && Posts(p) ==> q.posted == p.posted + [c.id.slot])
  }

  /** Every completion, whatever state the end is in. */
  lemma HandleMeans(p: Peer, c: Completion)
    ensures Handled(p, c, Handle(p, c))
  {
    hide Handle, Handled, Receive;
    if c.opcode.OpRecvRdmaWithImm? {
      ImmIs(p, c);
      ImmMeans(p, c, Handle(p, c));
    } else {
      HandleIs(p, c);
      if c.id.SendId? || c.id.CtrlId? {
        SendMeans(p, c);
      } else if c.id.RecvId? {
        RecvMeans(p, c, Handle(p, c));
      } else {
        WriteMeans(p, c, Handle(p, c));
      }
    }
  }

  lemma ImmIs(p: Peer, c: Completion)
    requires c.opcode.OpRecvRdmaWithImm?
    ensures Handle(p, c) ==
      if !c.ok then p.(closed := true)
      else if c.id.RecvId? then Repost(p.(done := p.done + [c.imm]), c.id.slot)
      else p.(done := p.done + [c.imm])
  {
    hide Repost;
  }

  lemma ImmMeans(p: Peer, c: Completion, q: Peer)
    requires c.opcode.OpRecvRdmaWithImm?
    requires q == if !c.ok then p.(closed := true)
      else if c.id.RecvId? then Repost(p.(done := p.done + [c.imm]), c.id.slot)
      else p.(done := p.done + [c.imm])
    ensures Handled(p, c, q)
  {
    hide Repost, PayloadLen;
    if c.ok && c.id.RecvId? {
      RepostFrame(p.(done := p.done + [c.imm]), c.id.slot);
    }
  }

  lemma SendMeans(p: Peer, c: Completion)
    requires !c.opcode.OpRecvRdmaWithImm? && (c.id.SendId? || c.id.CtrlId?)
    ensures Handled(p, c, Reclaim(p.(closed := p.closed || !c.ok), c.id))
  {
    hide Reclaim, PayloadLen;
    ReclaimFields(p.(closed := p.closed || !c.ok), c.id);
  }

  lemma WriteMeans(p: Peer, c: Completion, q: Peer)
    requires !c.opcode.OpRecvRdmaWithImm? && (c.id.WriteId? || c.id.ImmWriteId?)
    requires q == p.(writesOut := SaturatingSub(p.writesOut, 1), closed := p.closed || !c.ok,
                     immOut := if c.id.ImmWriteId? then SaturatingSub(p.immOut, 1) else p.immOut)
    ensures Handled(p, c, q)
  {
    hide PayloadLen;
  }

  lemma RecvMeans(p: Peer, c: Completion, q: Peer)
    requires !c.opcode.OpRecvRdmaWithImm? && c.id.RecvId?
    requires q == if c.ok then Receive(p, c.id.slot, c.byteLen) else p.(closed := true)
    ensures Handled(p, c, q)
  {
    hide Receive, PayloadLen;
    if c.ok {
      ReceiveFrame(p, c.id.slot, c.byteLen);
      ReceiveCloses(p, c.id.slot, c.byteLen);
    }
  }

  lemma ReceiveCloses(p: Peer, slot: nat, byteLen: nat)
    ensures Receive(p, slot, byteLen).closed ==
      (p.closed || (!Posts(p) && Min(byteLen, p.params.msgSize) >= 8 && PayloadLen(p, slot, byteLen) == 0))
  {
    hide PayloadLen, Cell, Repost;
    var q := p.(sendCredits := SaturatingAdd32(p.sendCredits, Cell(p.recvMem, slot).env.credits));
    RepostFrame(q, slot);
  }

  /** Polling touches neither what is posted nor what has landed, and not the bytes
      written or read. */
  lemma PollFrame(p: Peer)
    requires p.cq != []
    ensures var q, c := Poll(p), p.cq[0];
      && q.cq == p.cq[1..] && q.sq == p.sq && q.unacked == p.unacked && q.puts == p.puts && q.landed == p.landed
      && q.wrote == p.wrote && q.got == p.got && q.txStage == p.txStage && q.params == p.params && q.outIds == p.outIds
      && q.alive == p.alive && q.accepts == p.accepts && q.sendMem == p.sendMem && q.recvMem == p.recvMem
      && (p.closed ==> q.closed) && (p.refused ==> q.refused)
      && (Posts(p) && c.ok ==> q.closed == p.closed && q.refused == p.refused)
      && (!c.ok ==> q.closed)
  {
    hide Handle;
    HandleFrame(p.(cq := p.cq[1..]), p.cq[0]);
  }

  // ---- polling a completion ------------------------------------------------------------

  /** What popping the oldest completion takes out of each reading of the queue. */
  lemma Popped(p: Peer, c: Completion, p1: Peer)
    requires p.cq != [] && c == p.cq[0] && p1 == p.(cq := p.cq[1..])
    ensures Flat(SendDone, p.cq) == if SendDone(c) == [] then Flat(SendDone, p1.cq) else SendDone(c) + Flat(SendDone, p1.cq)
    ensures Flat(CtrlDone, p.cq) == if CtrlDone(c) == [] then Flat(CtrlDone, p1.cq) else CtrlDone(c) + Flat(CtrlDone, p1.cq)
    ensures Flat(WriteDone, p.cq) == if WriteDone(c) == [] then Flat(WriteDone, p1.cq) else WriteDone(c) + Flat(WriteDone, p1.cq)
    ensures Flat(ImmDone, p.cq) == if ImmDone(c) == [] then Flat(ImmDone, p1.cq) else ImmDone(c) + Flat(ImmDone, p1.cq)
    ensures Flat(RecvSlot, p.cq) == RecvSlot(c) + Flat(RecvSlot, p1.cq)
    ensures Flat(ImmArrived, p.cq) == if ImmArrived(c) == [] then Flat(ImmArrived, p1.cq) else ImmArrived(c) + Flat(ImmArrived, p1.cq)
    ensures FramesIn(p.recvMem, p.cq) ==
            if IsMessage(c) then [Cell(p.recvMem, c.id.slot)] + FramesIn(p.recvMem, p1.cq)
            else FramesIn(p.recvMem, p1.cq)
    ensures CqOk(p.recvMem, p.cq) ==> CompletionOk(p.recvMem, c) && CqOk(p.recvMem, p1.cq)
  {
    hide Flat;
    FlatHead(SendDone, p.cq);
    FlatHead(CtrlDone, p.cq);
    FlatHead(WriteDone, p.cq);
    FlatHead(ImmDone, p.cq);
    FlatHead(RecvSlot, p.cq);
    FlatHead(ImmArrived, p.cq);
  }

  /** The receive side after popping `c` and settling its slot. */
  lemma PopRecv(p: Peer, c: Completion, q: Peer)
    requires RecvOk(p) && p.cq != [] && c == p.cq[0] && q.cq == p.cq[1..]
    requires q.params == p.params && q.recvMem == p.recvMem && q.alive == p.alive
    requires RecvOwners(q) <= RecvOwners(p) && (Whole(q) ==> Whole(p) && RecvOwners(q) == RecvOwners(p))
    requires RxOk(q.recvMem, q.rxReady)
    ensures RecvOk(q)
  {
    hide Flat, FramesIn, CqOk, RxOk, All, RecvOwners;
    Popped(p, c, p.(cq := p.cq[1..]));
  }

  lemma RecvFacts(p: Peer)
    requires RecvOk(p)
    ensures RxOk(p.recvMem, p.rxReady)
    ensures p.cq != [] ==> CompletionOk(p.recvMem, p.cq[0]) && (p.alive ==> p.cq[0].ok)
    ensures p.cq != [] && IsMessage(p.cq[0]) ==> FrameOk(p.params.cap, Cell(p.recvMem, p.cq[0].id.slot))
  {
    hide Flat, FramesIn, CqOk, RxOk, All, RecvOwners;
    if p.cq != [] {
      Popped(p, p.cq[0], p.(cq := p.cq[1..]));
      if IsMessage(p.cq[0]) {
        assert FramesIn(p.recvMem, p.cq)[0] == Cell(p.recvMem, p.cq[0].id.slot);
      }
    }
  }

  lemma PollSend(p: Peer, o: Peer, c: Completion, q: Peer)
    requires Inv(p, o) && p.cq != [] && c == p.cq[0] && q == Poll(p)
    requires c.id.SendId? || c.id.CtrlId?
    ensures Inv(q, o)
  {
    hide SendOk, RecvOk, WriteOk, Flat, FramesIn, FramesOut, HeldBytes, Grants, DataCount, All, RecvOwners, SendOwners,
      CtrlOk, CqOk, RxOk;
    RecvFacts(p);
    Popped(p, c, p.(cq := p.cq[1..]));
    StageBound(p);
    PollSendSlots(p, c, q);
    PollSendCtrl(p, c, q);
    SendFrame(p, q);
    PopRecv(p, c, q);
    WriteSame(p, q);
    assert Transit(q, o) == Transit(p, o) && Transit(o, q) == Transit(o, p);
  }

  lemma PollSendSlots(p: Peer, c: Completion, q: Peer)
    requires p.cq != [] && c == p.cq[0] && q == Poll(p) && CompletionOk(p.recvMem, c)
    requires c.id.SendId? || c.id.CtrlId?
    ensures SendOwners(q) == SendOwners(p)
    ensures RecvOwners(q) == RecvOwners(p)
  {
    hide Flat, CqOk, FramesIn, FramesOut, SendOwners;
    Popped(p, c, p.(cq := p.cq[1..]));
    assert q.sendFree == if c.id.SendId? then p.sendFree + [c.id.slot] else p.sendFree;
    OwnersMove(p, q);
  }

  lemma OwnersMove(p: Peer, q: Peer)
    requires q.sq == p.sq && q.unacked == p.unacked
    requires || (q.sendFree == p.sendFree && Flat(SendDone, q.cq) == Flat(SendDone, p.cq))
             || (exists x :: q.sendFree == p.sendFree + [x] && Flat(SendDone, p.cq) == [x] + Flat(SendDone, q.cq))
    ensures SendOwners(q) == SendOwners(p)
  {
    hide Flat;
  }

  lemma PollSendCtrl(p: Peer, c: Completion, q: Peer)
    requires p.cq != [] && c == p.cq[0] && q == Poll(p) && CompletionOk(p.recvMem, c)
    requires c.id.SendId? || c.id.CtrlId?
    requires CtrlOk(p)
    ensures CtrlOk(q)
  {
    hide Flat, CqOk, FramesIn, FramesOut, Handle, Reclaim;
    PollFrame(p);
    HandleIs(p.(cq := p.cq[1..]), c);
    ReclaimFields(p.(cq := p.cq[1..], closed := p.closed || !c.ok), c.id);
    Popped(p, c, p.(cq := p.cq[1..]));
  }

  lemma PollWrite(p: Peer, o: Peer, c: Completion, q: Peer)
    requires Inv(p, o) && p.cq != [] && c == p.cq[0] && q == Poll(p)
    requires c.id.WriteId? || c.id.ImmWriteId?
    ensures Inv(q, o)
  {
    hide SendOk, RecvOk, WriteOk, Flat, FramesIn, FramesOut, HeldBytes, Grants, DataCount, All, RecvOwners, SendOwners,
      CtrlOk, CqOk, RxOk;
    RecvFacts(p);
    Popped(p, c, p.(cq := p.cq[1..]));
    StageBound(p);
    SendSame(p, q);
    PollWriteSlots(p, c, q);
    PopRecv(p, c, q);
    assert Transit(q, o) == Transit(p, o) && Transit(o, q) == Transit(o, p);
  }

  lemma PollWriteSlots(p: Peer, c: Completion, q: Peer)
    requires p.cq != [] && c == p.cq[0] && q == Poll(p) && CompletionOk(p.recvMem, c)
    requires c.id.WriteId? || c.id.ImmWriteId?
    requires WriteOk(p)
    ensures WriteOk(q)
    ensures RecvOwners(q) == RecvOwners(p)
  {
    hide Flat, CqOk, FramesIn;
    Popped(p, c, p.(cq := p.cq[1..]));
  }

  /** A write-with-immediate arrived: its ID is queued and its receive is posted again. */
  lemma PollImm(p: Peer, o: Peer, c: Completion, q: Peer)
    requires Inv(p, o) && p.cq != [] && c == p.cq[0] && q == Poll(p)
    requires IsImmArrival(c) && c.id.RecvId?
    ensures Inv(q, o)
  {
    hide SendOk, RecvOk, WriteOk, Flat, FramesIn, FramesOut, Poll, Repost, Safe, Lossless, InOrder;
    ImmPoll(p);
    RepostFrame(p.(cq := p.cq[1..], done := p.done + [c.imm]), c.id.slot);
    ImmLocal(p, c, q);
    Popped(p, c, p.(cq := p.cq[1..]));
    ImmPair(p, o, c.imm, q);
    assert p.cq == [c] + q.cq;
  }

  lemma ImmPair(p: Peer, o: Peer, imm: nat, q: Peer)
    requires Safe(p, o) && Safe(o, p) && (p.refused ==> q.refused)
    requires q == p.(cq := q.cq, done := p.done + [imm], posted := q.posted, closed := q.closed, refused := q.refused)
    requires Flat(ImmArrived, p.cq) == [imm] + Flat(ImmArrived, q.cq) && FramesIn(q.recvMem, q.cq) == FramesIn(p.recvMem, p.cq)
    ensures Safe(q, o) && Safe(o, q) && InOrder(q, o) == InOrder(p, o) && InOrder(o, q) == InOrder(o, p)
    ensures Lossless(p, o) && Lossless(o, p) ==> Lossless(q, o) && Lossless(o, q)
  {
    hide Flat, FramesIn, FramesOut, HeldBytes, Grants, DataCount, Bytes;
    var rest := Flat(ImmArrived, q.cq);
    assert p.outIds + (p.done + [imm]) + rest == p.outIds + p.done + ([imm] + rest);
    assert Transit(q, o) == Transit(p, o) && Transit(o, q) == Transit(o, p);
  }

  lemma ImmLocal(p: Peer, c: Completion, q: Peer)
    requires p.cq != [] && c == p.cq[0] && IsImmArrival(c) && c.id.RecvId?
    requires SendOk(p) && RecvOk(p) && WriteOk(p)
    requires q == p.(cq := p.cq[1..], done := q.done, posted := q.posted, closed := q.closed, refused := q.refused)
    requires q.posted == (if Posts(p) then p.posted + [c.id.slot] else p.posted) && (!Posts(p) ==> q.refused)
    requires Whole(q) ==> Whole(p)
    ensures SendOk(q) && RecvOk(q) && WriteOk(q)
  {
    hide SendOk, RecvOk, WriteOk, Flat, FramesIn, FramesOut, CqOk, RxOk, RecvOwners;
    RecvFacts(p);
    Popped(p, c, p.(cq := p.cq[1..]));
    StageBound(p);
    SendSame(p, q);
    WriteSame(p, q);
    PollRecvSlots(p, c, if Posts(p) then [c.id.slot] else [], [], q) by { FlatNone<ReadyMsg, nat>(HeldSlot); }
    PopRecv(p, c, q);
  }

  lemma ImmPoll(p: Peer)
    requires p.cq != [] && IsImmArrival(p.cq[0]) && p.cq[0].id.RecvId?
    ensures Poll(p) == Repost(p.(cq := p.cq[1..], done := p.done + [p.cq[0].imm]), p.cq[0].id.slot)
  {
    hide Repost, Receive;
  }

  /** The polled slot goes back to the NIC, or to a held message, or (when the post is
      refused or the receive was flushed) nowhere. */
  lemma PollRecvSlots(p: Peer, c: Completion, back: seq<nat>, held: seq<ReadyMsg>, q: Peer)
    requires p.cq != [] && c == p.cq[0] && c.id.RecvId? && q.cq == p.cq[1..]
    requires q.posted == p.posted + back && q.rxReady == p.rxReady + held
    requires back + Flat(HeldSlot, held) == if Whole(q) || back != [] || held != [] then [c.id.slot] else []
    ensures RecvOwners(q) <= RecvOwners(p) && (Whole(q) ==> RecvOwners(q) == RecvOwners(p))
  {
    hide Flat, CqOk, FramesIn;
    Popped(p, c, p.(cq := p.cq[1..]));
    FlatAppend(HeldSlot, p.rxReady, held);
    var moved := back + Flat(HeldSlot, held);
    assert multiset(moved) == multiset(back) + multiset(Flat(HeldSlot, held));
  }

  /** Where the slot of a polled receive is: with the NIC again, holding its message, or
      given up, and that only when its post was refused or a dead connection flushed it. */
  predicate SlotGoes(p: Peer, c: Completion, q: Peer)
    requires c.id.RecvId?
  {
    || (Posts(p) && q.posted == p.posted + [c.id.slot] && q.rxReady == p.rxReady)
    || (q.posted == p.posted && q.rxReady == p.rxReady + [ReadyMsg(c.id.slot, 0, |Cell(p.recvMem, c.id.slot).body|)])
    || (q.posted == p.posted && q.rxReady == p.rxReady && (!c.ok || (!Posts(p) && q.refused)))
  }

  /** Polling a receive sends its slot to one of these, and nobody else's slot changes
      hands. */
  lemma PollRecvOwners(p: Peer, o: Peer)
    requires Inv(p, o) && p.cq != [] && p.cq[0].id.RecvId?
    ensures var q := Poll(p);
      SlotGoes(p, p.cq[0], q) && RecvOwners(q) <= RecvOwners(p) && (Whole(q) ==> RecvOwners(q) == RecvOwners(p))
  {
    hide SendOk, RecvOk, WriteOk, Safe, Lossless, InOrder, Poll, SlotGoes, RecvOwners, Cell;
    RecvFacts(p);
    if !p.cq[0].ok {
      FlushedOwners(p, Poll(p)) by { FlushedPoll(p); }
    } else if p.cq[0].opcode.OpRecv? {
      var f := Cell(p.recvMem, p.cq[0].id.slot);
      MessageShape(p, o, p.cq[0], f, Poll(p));
      MessageOwners(p, f, Poll(p));
    } else {
      ImmPoll(p);
      ImmOwners(p, Poll(p));
    }
  }

  lemma FlushedOwners(p: Peer, q: Peer)
    requires p.cq != [] && p.cq[0].id.RecvId? && !p.cq[0].ok && !p.alive && q == p.(cq := p.cq[1..], closed := true)
    ensures SlotGoes(p, p.cq[0], q) && RecvOwners(q) <= RecvOwners(p) && (Whole(q) ==> RecvOwners(q) == RecvOwners(p))
  {
    hide Flat, RecvOwners;
    PollRecvSlots(p, p.cq[0], [], [], q) by { FlatNone<ReadyMsg, nat>(HeldSlot); }
  }

  lemma MessageOwners(p: Peer, f: Frame, q: Peer)
    requires p.cq != [] && p.cq[0].id.RecvId? && q == MessageTaken(p, p.cq[0].id.slot, f) && f == Cell(p.recvMem, p.cq[0].id.slot)
    ensures SlotGoes(p, p.cq[0], q) && RecvOwners(q) <= RecvOwners(p) && (Whole(q) ==> RecvOwners(q) == RecvOwners(p))
  {
    hide Flat, RecvOwners, MessageTaken;
    var c := p.cq[0];
    TakenFields(p, c.id.slot, f);
    if f.env.IsCreditOnly() {
      PollRecvSlots(p, c, if Posts(p) then [c.id.slot] else [], [], q) by { FlatNone<ReadyMsg, nat>(HeldSlot); }
    } else {
      var r := ReadyMsg(c.id.slot, 0, |f.body|);
      PollRecvSlots(p, c, [], [r], q) by { FlatOne(HeldSlot, r); }
    }
  }

  lemma ImmOwners(p: Peer, q: Peer)
    requires p.cq != [] && p.cq[0].id.RecvId?
    requires q == Repost(p.(cq := p.cq[1..], done := p.done + [p.cq[0].imm]), p.cq[0].id.slot)
    ensures SlotGoes(p, p.cq[0], q) && RecvOwners(q) <= RecvOwners(p) && (Whole(q) ==> RecvOwners(q) == RecvOwners(p))
  {
    hide Flat, RecvOwners, Repost;
    var c := p.cq[0];
    RepostFrame(p.(cq := p.cq[1..], done := p.done + [c.imm]), c.id.slot);
    PollRecvSlots(p, c, if Posts(p) then [c.id.slot] else [], [], q) by { FlatNone<ReadyMsg, nat>(HeldSlot); }
  }

  lemma FlushedPoll(p: Peer)
    requires p.cq != [] && p.cq[0].id.RecvId? && !p.cq[0].ok && !p.cq[0].opcode.OpRecvRdmaWithImm?
    ensures Poll(p) == p.(cq := p.cq[1..], closed := true)
  {
    hide Receive;
  }

  /** A receive flushed by a dead connection: its slot is not posted again. */
  lemma PollFlushed(p: Peer, o: Peer, c: Completion, q: Peer)
    requires Inv(p, o) && p.cq != [] && c == p.cq[0] && q == Poll(p)
    requires c.id.RecvId? && !c.ok
    ensures Inv(q, o)
  {
    hide SendOk, RecvOk, WriteOk, Flat, FramesIn, FramesOut, HeldBytes, Grants, DataCount, All, RecvOwners, SendOwners,
      CtrlOk, CqOk, RxOk;
    RecvFacts(p);
    Popped(p, c, p.(cq := p.cq[1..]));
    StageBound(p);
    SendSame(p, q);
    WriteSame(p, q);
    PollRecvSlots(p, c, [], [], q) by { FlatNone<ReadyMsg, nat>(HeldSlot); }
    PopRecv(p, c, q);
  }

  /** A message arrived. A data message is held in its slot; a credit-only message
      adds its credits and its slot is posted again. */
  lemma PollMessage(p: Peer, o: Peer, c: Completion, q: Peer)
    requires Inv(p, o) && p.cq != [] && c == p.cq[0] && q == Poll(p)
    requires IsMessage(c)
    ensures Inv(q, o)
  {
    hide SendOk, RecvOk, WriteOk, Safe, Lossless, InOrder, Poll, Cell, Unharmed, MessageTaken;
    RecvFacts(p);
    var f := Cell(p.recvMem, c.id.slot);
    MessageShape(p, o, c, f, q);
    TakenFields(p, c.id.slot, f);
    MessageLocal(p, c, f, q);
    MessageSafe(p, o, c, f, q);
    MessageInOrder(p, o, c, f, q);
    if Linked(p, o) {
      MessageLossless(p, o, c, f, q);
    }
  }

  lemma MessageLocal(p: Peer, c: Completion, f: Frame, q: Peer)
    requires p.cq != [] && c == p.cq[0] && IsMessage(c) && f == Cell(p.recvMem, c.id.slot) && FrameOk(p.params.cap, f)
    requires q == MessageTaken(p, c.id.slot, f)
    requires SendOk(p) && RecvOk(p) && WriteOk(p) && (p.refused ==> p.closed)
    ensures SendOk(q) && RecvOk(q) && WriteOk(q) && (q.refused ==> q.closed)
  {
    hide SendOk, RecvOk, WriteOk, Flat, FramesIn, CqOk, RxOk, RecvOwners, MessageTaken, SlotGoes, Cell, FrameOk;
    TakenFields(p, c.id.slot, f);
    Popped(p, c, p.(cq := p.cq[1..]));
    StageBound(p);
    SendSame(p, q);
    WriteSame(p, q);
    MessageOwners(p, f, q);
    MessageRx(p, c.id.slot, f, q);
    PopRecv(p, c, q);
  }

  lemma MessageRx(p: Peer, slot: nat, f: Frame, q: Peer)
    requires RecvOk(p) && f == Cell(p.recvMem, slot) && FrameOk(p.params.cap, f) && q.recvMem == p.recvMem
    requires q.rxReady == if f.env.IsCreditOnly() then p.rxReady else p.rxReady + [ReadyMsg(slot, 0, |f.body|)]
    ensures RxOk(q.recvMem, q.rxReady)
  {
    hide RecvOk, RxOk, HeldBytes;
    RecvFacts(p);
    if !f.env.IsCreditOnly() {
      RxSnoc(p.recvMem, p.rxReady, ReadyMsg(slot, 0, |f.body|));
    }
  }

  /** What polling a well-formed message leaves: its credits taken, and its payload held
      or its slot posted again. */
  function MessageTaken(p: Peer, slot: nat, f: Frame): Peer
    requires p.cq != []
  {
    Settled(p.(cq := p.cq[1..]).(sendCredits := p.sendCredits + f.env.credits), slot, f)
  }

  lemma TakenFields(p: Peer, slot: nat, f: Frame)
    requires p.cq != []
    ensures var q := MessageTaken(p, slot, f);
      && q == p.(cq := q.cq, sendCredits := q.sendCredits, rxReady := q.rxReady, posted := q.posted,
                 closed := q.closed, refused := q.refused)
      && q.cq == p.cq[1..] && q.sendCredits == p.sendCredits + f.env.credits
      && q.rxReady == (if f.env.IsCreditOnly() then p.rxReady else p.rxReady + [ReadyMsg(slot, 0, |f.body|)])
      && q.posted == (if f.env.IsCreditOnly() && Posts(p) then p.posted + [slot] else p.posted)
      && q.refused == (p.refused || (f.env.IsCreditOnly() && !Posts(p)))
      && q.closed == (p.closed || (f.env.IsCreditOnly() && !Posts(p)))
  {
  }

  lemma MessageInOrder(p: Peer, o: Peer, c: Completion, f: Frame, q: Peer)
    requires p.cq != [] && c == p.cq[0] && IsMessage(c) && f == Cell(p.recvMem, c.id.slot) && FrameOk(p.params.cap, f)
    requires q == MessageTaken(p, c.id.slot, f)
    ensures InOrder(p, o) == InOrder(q, o) && InOrder(o, p) == InOrder(o, q)
    ensures Unharmed(q) ==> Unharmed(p)
  {
    hide Flat, FramesIn, FramesOut, HeldBytes, Grants, DataCount, Transit, Held, MessageTaken;
    TakenFields(p, c.id.slot, f);
    HeldGrows(p, c, f, q);
    MessageLedger(p, o, c, f, q);
    var rest := Bytes(Transit(o, q));
    assert p.got + Held(p) + (f.body + rest) == p.got + (Held(p) + f.body) + rest;
    assert p.cq == [c] + q.cq;
  }

  /** What polling a well-formed message changes; the credit addition never saturates
      and the message is never a runt. */
  lemma MessageShape(p: Peer, o: Peer, c: Completion, f: Frame, q: Peer)
    requires p.cq != [] && c == p.cq[0] && IsMessage(c) && q == Poll(p) && f == Cell(p.recvMem, c.id.slot)
    requires p.params.Valid() && o.params.Valid() && Safe(p, o)
    requires FrameOk(p.params.cap, f) && CompletionOk(p.recvMem, c)
    ensures q == MessageTaken(p, c.id.slot, f)
  {
    hide Safe, Receive, Poll, Cell, FrameOk, Settled;
    MessageCredits(p, o, c, f);
    PollIsReceive(p);
    ReceiveShape(p.(cq := p.cq[1..]), c.id.slot, c.byteLen, f);
  }

  /** The credits of an unpolled message fit what the sender may hold. */
  lemma MessageCredits(p: Peer, o: Peer, c: Completion, f: Frame)
    requires p.cq != [] && c == p.cq[0] && IsMessage(c) && f == Cell(p.recvMem, c.id.slot)
    requires Safe(p, o) && o.params.Valid()
    ensures p.sendCredits + f.env.credits <= U32_MAX
  {
    hide Flat, FramesIn, HeldBytes, Grants, DataCount, CqOk;
    Popped(p, c, p.(cq := p.cq[1..]));
    HeadFrame(FramesIn(p.recvMem, p.cq), f, FramesIn(p.recvMem, p.cq[1..]));
  }

  lemma PollIsReceive(p: Peer)
    requires p.cq != [] && IsMessage(p.cq[0])
    ensures Poll(p) == Receive(p.(cq := p.cq[1..]), p.cq[0].id.slot, p.cq[0].byteLen)
  {
    hide Receive;
  }

  lemma ReceiveShape(p: Peer, slot: nat, byteLen: nat, f: Frame)
    requires p.params.Valid() && f == Cell(p.recvMem, slot) && FrameOk(p.params.cap, f)
    requires byteLen == ENVELOPE_LEN + |f.body| && p.sendCredits + f.env.credits <= U32_MAX
    ensures Receive(p, slot, byteLen) == Settled(p.(sendCredits := p.sendCredits + f.env.credits), slot, f)
  {
    hide Repost, Settled;
    if f.env.IsCreditOnly() {
      SettledIs(p.(sendCredits := p.sendCredits + f.env.credits), slot, f);
    } else {
      SettledIs(p.(sendCredits := p.sendCredits + f.env.credits), slot, f);
    }
  }

  /** The payload held, or the slot posted again. */
  function Settled(p: Peer, slot: nat, f: Frame): Peer {
    if f.env.IsCreditOnly() then Repost(p, slot) else p.(rxReady := p.rxReady + [ReadyMsg(slot, 0, |f.body|)])
  }

  lemma SettledIs(p: Peer, slot: nat, f: Frame)
    ensures f.env.IsCreditOnly() ==> Settled(p, slot, f) == Repost(p, slot)
    ensures !f.env.IsCreditOnly() ==> Settled(p, slot, f) == p.(rxReady := p.rxReady + [ReadyMsg(slot, 0, |f.body|)])
  {
    hide Repost;
  }

  lemma HeldGrows(p: Peer, c: Completion, f: Frame, q: Peer)
    requires p.cq != [] && c == p.cq[0] && IsMessage(c) && f == Cell(p.recvMem, c.id.slot) && q.recvMem == p.recvMem
    requires FrameOk(p.params.cap, f)
    requires q.rxReady == if f.env.IsCreditOnly() then p.rxReady else p.rxReady + [ReadyMsg(c.id.slot, 0, |f.body|)]
    ensures Held(q) == Held(p) + f.body
  {
    if f.env.IsCreditOnly() {
      assert Held(p) + [] == Held(p);
    } else {
      RxSnoc(p.recvMem, p.rxReady, ReadyMsg(c.id.slot, 0, |f.body|));
      assert f.body[0..|f.body|] == f.body;
    }
  }

  lemma MessageSafe(p: Peer, o: Peer, c: Completion, f: Frame, q: Peer)
    requires p.cq != [] && c == p.cq[0] && IsMessage(c) && f == Cell(p.recvMem, c.id.slot)
    requires FrameOk(p.params.cap, f) && Safe(p, o) && Safe(o, p)
    requires q == MessageTaken(p, c.id.slot, f)
    ensures Safe(q, o) && Safe(o, q)
  {
    hide Flat, FramesIn, HeldBytes, Grants, DataCount, CqOk, MessageTaken, Held, Bytes, Safe, FrameOk;
    TakenFields(p, c.id.slot, f);
    Popped(p, c, p.(cq := p.cq[1..]));
    HeldGrows(p, c, f, q);
    HeadFrame(FramesIn(p.recvMem, p.cq), f, FramesIn(p.recvMem, q.cq));
    TakenToSafe(p, o, c, f, q);
    TakenFromSafe(p, o, c, f, q);
  }

  /** What the polling end may send, and what the other end holds. */
  lemma TakenToSafe(p: Peer, o: Peer, c: Completion, f: Frame, q: Peer)
    requires Safe(p, o) && q.params == p.params && q.puts == p.puts && q.wrote == p.wrote
    requires q.sendCredits == p.sendCredits + f.env.credits
    requires Grants(FramesIn(p.recvMem, p.cq)) == f.env.credits + Grants(FramesIn(q.recvMem, q.cq))
    ensures Safe(q, o)
  {
    hide Flat, FramesIn, HeldBytes, Grants, DataCount, Held, Bytes;
  }

  /** What the polling end has received. */
  lemma TakenFromSafe(p: Peer, o: Peer, c: Completion, f: Frame, q: Peer)
    requires Safe(o, p) && q.params == p.params && q.got == p.got && q.outIds == p.outIds && q.done == p.done
    requires q.landed == p.landed && Flat(ImmArrived, q.cq) == Flat(ImmArrived, p.cq) && Held(q) == Held(p) + f.body
    requires Bytes(FramesIn(p.recvMem, p.cq)) == f.body + Bytes(FramesIn(q.recvMem, q.cq))
    requires |q.rxReady| == |p.rxReady| + (if f.env.IsCreditOnly() then 0 else 1) && q.grantPending == p.grantPending
    requires DataCount(FramesIn(p.recvMem, p.cq)) == (if f.env.IsCreditOnly() then 0 else 1) + DataCount(FramesIn(q.recvMem, q.cq))
    ensures Safe(o, q)
  {
    hide Flat, FramesIn, HeldBytes, Grants, DataCount, Held, Bytes;
    var rest := Bytes(FramesIn(q.recvMem, q.cq));
    assert p.got + Held(p) + (f.body + rest) == p.got + (Held(p) + f.body) + rest;
  }

  lemma MessageLossless(p: Peer, o: Peer, c: Completion, f: Frame, q: Peer)
    requires p.cq != [] && c == p.cq[0] && IsMessage(c) && f == Cell(p.recvMem, c.id.slot)
    requires FrameOk(p.params.cap, f) && Lossless(p, o) && Lossless(o, p)
    requires q == MessageTaken(p, c.id.slot, f)
    ensures Lossless(q, o) && Lossless(o, q)
  {
    hide Flat, FramesIn, FramesOut, HeldBytes, Grants, DataCount, Transit, Held, Bytes, MessageTaken;
    TakenFields(p, c.id.slot, f);
    HeldGrows(p, c, f, q);
    MessageLedger(p, o, c, f, q);
    var rest := Bytes(Transit(o, q));
    assert p.got + Held(p) + (f.body + rest) == p.got + (Held(p) + f.body) + rest;
  }

  lemma HeadFrame(fs: seq<Frame>, f: Frame, rest: seq<Frame>)
    requires fs == [f] + rest
    ensures Bytes(fs) == f.body + Bytes(rest)
    ensures Grants(fs) == f.env.credits + Grants(rest)
    ensures DataCount(fs) == (if f.env.IsCreditOnly() then 0 else 1) + DataCount(rest)
  {
    assert fs[1..] == rest;
    FlatHead(Payload, fs);
  }

  /** The oldest frame of a direction moves from transit to the receiver. */
  lemma MessageLedger(p: Peer, o: Peer, c: Completion, f: Frame, q: Peer)
    requires p.cq != [] && c == p.cq[0] && IsMessage(c) && f == Cell(p.recvMem, c.id.slot)
    requires q.cq == p.cq[1..] && q.recvMem == p.recvMem && q.sendMem == p.sendMem && q.sq == p.sq
    ensures Transit(q, o) == Transit(p, o) && Transit(o, p) == [f] + Transit(o, q)
    ensures Bytes(Transit(o, p)) == f.body + Bytes(Transit(o, q))
    ensures Grants(Transit(o, p)) == f.env.credits + Grants(Transit(o, q))
    ensures DataCount(Transit(o, p)) == (if f.env.IsCreditOnly() then 0 else 1) + DataCount(Transit(o, q))
  {
    hide Flat, FramesIn, FramesOut, CqOk, Grants, DataCount;
    Popped(p, c, p.(cq := p.cq[1..]));
    assert Transit(o, p) == [f] + Transit(o, q);
    HeadFrame(Transit(o, p), f, Transit(o, q));
  }

  // ---- the NIC ---------------------------------------------------------------------------

  /** What a new completion adds to each reading of the queue. */
  lemma Pushed(p: Peer, c: Completion, cq: seq<Completion>)
    requires cq == p.cq + [c]
    ensures Flat(SendDone, cq) == if SendDone(c) == [] then Flat(SendDone, p.cq) else Flat(SendDone, p.cq) + SendDone(c)
    ensures Flat(CtrlDone, cq) == if CtrlDone(c) == [] then Flat(CtrlDone, p.cq) else Flat(CtrlDone, p.cq) + CtrlDone(c)
    ensures Flat(WriteDone, cq) == if WriteDone(c) == [] then Flat(WriteDone, p.cq) else Flat(WriteDone, p.cq) + WriteDone(c)
    ensures Flat(ImmDone, cq) == if ImmDone(c) == [] then Flat(ImmDone, p.cq) else Flat(ImmDone, p.cq) + ImmDone(c)
    ensures Flat(RecvSlot, cq) == if RecvSlot(c) == [] then Flat(RecvSlot, p.cq) else Flat(RecvSlot, p.cq) + RecvSlot(c)
    ensures Flat(ImmArrived, cq) ==
            if ImmArrived(c) == [] then Flat(ImmArrived, p.cq) else Flat(ImmArrived, p.cq) + ImmArrived(c)
  {
    hide Flat;
    FlatSnoc(SendDone, p.cq, c);
    FlatSnoc(CtrlDone, p.cq, c);
    FlatSnoc(WriteDone, p.cq, c);
    FlatSnoc(ImmDone, p.cq, c);
    FlatSnoc(RecvSlot, p.cq, c);
    FlatSnoc(ImmArrived, p.cq, c);
  }

  /** The oldest work request `w` of a queue leaves it, `rest` stays. */
  lemma Taken(mem: seq<Frame>, queue: seq<WorkRequest>, w: WorkRequest, rest: seq<WorkRequest>)
    requires queue == [w] + rest
    ensures Flat(DataSlot, queue) == DataSlot(w) + Flat(DataSlot, rest)
    ensures Flat(CtrlOf, queue) == CtrlOf(w) + Flat(CtrlOf, rest)
    ensures forall s <- Flat(CtrlOf, rest) :: s in Flat(CtrlOf, queue)
    ensures Flat(PutOf, queue) == PutOf(w) + Flat(PutOf, rest)
    ensures Flat(WrImm, queue) == WrImm(w) + Flat(WrImm, rest)
    ensures FramesOut(mem, queue) ==
            if w.OneSided? then FramesOut(mem, rest) else [Cell(mem, w.slot)] + FramesOut(mem, rest)
  {
    assert queue[1..] == rest;
    FlatHead(DataSlot, queue);
    FlatHead(CtrlOf, queue);
    FlatHead(PutOf, queue);
    FlatHead(WrImm, queue);
  }

  /** `q` is `p` after work request `w` left the send queue or the unacknowledged
      queue and completed. */
  predicate Completed(p: Peer, w: WorkRequest, ok: bool, q: Peer) {
    && q.cq == p.cq + [Done(w, ok)] && q == p.(sq := q.sq, unacked := q.unacked, cq := q.cq)
    && if p.sq == q.sq then p.unacked == [w] + q.unacked else p.sq == [w] + q.sq && q.unacked == p.unacked
  }

  lemma CompletedOwners(p: Peer, w: WorkRequest, ok: bool, q: Peer)
    requires Completed(p, w, ok, q)
    ensures SendOwners(q) == SendOwners(p)
  {
    hide Flat, FramesOut, SendOwners;
    Pushed(p, Done(w, ok), q.cq);
    assert SendDone(Done(w, ok)) == DataSlot(w);
    assert Flat(SendDone, q.cq) == Flat(SendDone, p.cq) + DataSlot(w);
    if p.sq != q.sq {
      Taken(p.sendMem, p.sq, w, q.sq);
      OwnersPass(p, DataSlot(w), [], q);
    } else {
      Taken(p.sendMem, p.unacked, w, q.unacked);
      OwnersPass(p, [], DataSlot(w), q);
    }
  }

  lemma OwnersPass(p: Peer, x: seq<nat>, y: seq<nat>, q: Peer)
    requires q.sendFree == p.sendFree
    requires Flat(DataSlot, p.sq) == x + Flat(DataSlot, q.sq)
    requires Flat(DataSlot, p.unacked) == y + Flat(DataSlot, q.unacked)
    requires Flat(SendDone, q.cq) == Flat(SendDone, p.cq) + (x + y)
    ensures SendOwners(q) == SendOwners(p)
  {
    hide Flat;
    assert multiset(x + y) == multiset(x) + multiset(y);
  }

  lemma CompletedRecv(p: Peer, w: WorkRequest, ok: bool, q: Peer)
    requires Completed(p, w, ok, q)
    ensures RecvOwners(q) == RecvOwners(p)
  {
    hide Flat;
    Pushed(p, Done(w, ok), q.cq);
  }

  lemma CompletedWrites(p: Peer, w: WorkRequest, ok: bool, q: Peer)
    requires Completed(p, w, ok, q)
    ensures WriteOk(p) ==> WriteOk(q)
  {
    hide Flat, FramesOut, FramesIn, CqOk;
    Pushed(p, Done(w, ok), q.cq);
    if p.sq != q.sq { Taken(p.sendMem, p.sq, w, q.sq); } else { Taken(p.sendMem, p.unacked, w, q.unacked); }
  }

  lemma CompletedCounts(p: Peer, w: WorkRequest, ok: bool, q: Peer)
    requires Completed(p, w, ok, q)
    ensures CtrlOk(p) ==> CtrlOk(q)
    ensures forall f <- FramesOut(q.sendMem, q.sq) :: f in FramesOut(p.sendMem, p.sq)
  {
    hide Flat, FramesOut;
    Pushed(p, Done(w, ok), q.cq);
    if p.sq != q.sq { Taken(p.sendMem, p.sq, w, q.sq); } else { Taken(p.sendMem, p.unacked, w, q.unacked); }
  }

  /** A new completion that carries no message leaves the received frames alone. */
  lemma PushRecv(p: Peer, c: Completion, q: Peer)
    requires RecvOk(p) && q.cq == p.cq + [c] && CompletionOk(p.recvMem, c) && !IsMessage(c) && (p.alive ==> c.ok)
    requires q.params == p.params && q.recvMem == p.recvMem && q.rxReady == p.rxReady && q.alive == p.alive
    requires RecvOwners(q) == RecvOwners(p) && (Whole(q) ==> Whole(p))
    ensures RecvOk(q) && FramesIn(q.recvMem, q.cq) == FramesIn(p.recvMem, p.cq)
  {
    hide Flat, FramesIn, CqOk, RxOk, All, RecvOwners;
    CqSnoc(p.recvMem, p.cq, c);
  }

  lemma KeepCompleted(p: Peer, o: Peer, w: WorkRequest, ok: bool, q: Peer)
    requires Inv(p, o) && Completed(p, w, ok, q) && (p.alive ==> ok) && (ok ==> q.sq == p.sq)
    ensures Inv(q, o)
  {
    hide SendOk, RecvOk, WriteOk, Flat, FramesIn, FramesOut, HeldBytes, Grants, DataCount, All, RecvOwners, SendOwners,
      CtrlOk;
    StageBound(p);
    CompletedOwners(p, w, ok, q);
    CompletedRecv(p, w, ok, q);
    CompletedCounts(p, w, ok, q);
    CompletedWrites(p, w, ok, q);
    SendFrame(p, q);
    PushRecv(p, Done(w, ok), q);
    Pushed(p, Done(w, ok), q.cq);
    assert q.cq[|q.cq| - 1] == Done(w, ok);
    if Unharmed(q) {
      assert Unharmed(p);
      CompletedBytes(p, o, w, ok, q);
    }
  }

  lemma TransitBytes(p: Peer, q: Peer)
    ensures Bytes(Transit(p, q)) == Bytes(FramesIn(q.recvMem, q.cq)) + Bytes(FramesOut(p.sendMem, p.sq))
  {
    FlatAppend(Payload, FramesIn(q.recvMem, q.cq), FramesOut(p.sendMem, p.sq));
  }

  /** Losing a control message from the send queue loses no byte. */
  lemma CompletedBytes(p: Peer, o: Peer, w: WorkRequest, ok: bool, q: Peer)
    requires Completed(p, w, ok, q) && CtrlOk(p) && Cell(p.sendMem, p.params.CtrlSlot()).body == []
    requires w.DataSend? ==> q.sq == p.sq
    ensures Bytes(Transit(q, o)) == Bytes(Transit(p, o))
  {
    hide Flat, FramesIn, FramesOut, Transit, Bytes;
    TransitBytes(p, o);
    TransitBytes(q, o);
    if p.sq != q.sq {
      Taken(p.sendMem, p.sq, w, q.sq);
      if w.CtrlSend? {
        assert w.slot in Flat(CtrlOf, p.sq);
        HeadFrame(FramesOut(p.sendMem, p.sq), Cell(p.sendMem, w.slot), FramesOut(p.sendMem, q.sq));
        assert [] + Bytes(FramesOut(p.sendMem, q.sq)) == Bytes(FramesOut(p.sendMem, q.sq));
      }
    }
  }

  lemma KeepFlushRecv(p: Peer, o: Peer, c: Completion, q: Peer)
    requires Inv(p, o) && !p.alive && p.posted != []
    requires c == Completion(RecvId(p.posted[0]), false, OpRecv, 0, 0)
    requires q == p.(posted := p.posted[1..], cq := p.cq + [c])
    ensures Inv(q, o)
  {
    hide SendOk, RecvOk, WriteOk, Flat, FramesIn, FramesOut, HeldBytes, Grants, DataCount, All, RecvOwners, SendOwners,
      CtrlOk;
    StageBound(p);
    Pushed(p, c, q.cq);
    SendSame(p, q);
    WriteSame(p, q);
    TookPosted(p, c, q);
    PushRecv(p, c, q);
  }

  lemma TookPosted(p: Peer, c: Completion, q: Peer)
    requires p.posted != [] && c.id == RecvId(p.posted[0])
    requires q.posted == p.posted[1..] && q.cq == p.cq + [c] && q.rxReady == p.rxReady
    ensures RecvOwners(q) == RecvOwners(p)
  {
    hide Flat;
    Pushed(p, c, q.cq);
    assert p.posted == [p.posted[0]] + q.posted;
  }

  // ---- delivery --------------------------------------------------------------------------

  lemma SentOwners(p: Peer, w: WorkRequest, q: Peer)
    requires p.sq == [w] + q.sq && q == p.(sq := q.sq, unacked := p.unacked + [w])
    ensures SendOwners(q) == SendOwners(p)
  {
    hide Flat, FramesOut;
    Taken(p.sendMem, p.sq, w, q.sq);
    FlatSnoc(DataSlot, p.unacked, w);
  }

  lemma SentCounts(p: Peer, w: WorkRequest, q: Peer)
    requires p.sq == [w] + q.sq && q == p.(sq := q.sq, unacked := p.unacked + [w])
    ensures CtrlOk(p) ==> CtrlOk(q)
    ensures WriteOk(p) ==> WriteOk(q)
    ensures forall f <- FramesOut(q.sendMem, q.sq) :: f in FramesOut(p.sendMem, p.sq)
  {
    hide Flat, FramesOut;
    Taken(p.sendMem, p.sq, w, q.sq);
    FlatSnoc(CtrlOf, p.unacked, w);
    FlatSnoc(PutOf, p.unacked, w);
    FlatSnoc(WrImm, p.unacked, w);
  }

  lemma SentLocal(p: Peer, w: WorkRequest, q: Peer)
    requires Local(p) && p.sq == [w] + q.sq && q == p.(sq := q.sq, unacked := p.unacked + [w])
    ensures Local(q)
    ensures !w.OneSided? ==> FrameOk(p.params.cap, Cell(p.sendMem, w.slot))
  {
    hide SendOk, RecvOk, WriteOk, Flat, FramesIn, FramesOut, All, RecvOwners, SendOwners, CtrlOk;
    StageBound(p);
    SentOwners(p, w, q);
    SentCounts(p, w, q);
    SendFrame(p, q);
    RecvSame(p, q);
    HeadSendOk(p, w, q.sq);
  }

  lemma HeadSendOk(p: Peer, w: WorkRequest, rest: seq<WorkRequest>)
    requires SendOk(p) && p.sq == [w] + rest
    ensures !w.OneSided? ==> FrameOk(p.params.cap, Cell(p.sendMem, w.slot))
  {
    hide Flat, FramesOut, All, SendOwners, CtrlOk;
    Taken(p.sendMem, p.sq, w, rest);
    if !w.OneSided? {
      assert FramesOut(p.sendMem, p.sq)[0] == Cell(p.sendMem, w.slot);
    }
  }

  /** The receiving end after a message lands in its oldest posted slot: nobody else's
      memory is touched, and the frame joins the end of what is to be polled. */
  lemma LandMessage(o: Peer, f: Frame, q: Peer)
    requires RecvOk(o) && o.alive && o.posted != [] && FrameOk(o.params.cap, f)
    requires q == o.(posted := o.posted[1..], recvMem := Store(o.recvMem, o.posted[0], f),
                     cq := o.cq + [Completion(RecvId(o.posted[0]), true, OpRecv, ENVELOPE_LEN + |f.body|, 0)])
    ensures RecvOk(q)
    ensures FramesIn(q.recvMem, q.cq) == FramesIn(o.recvMem, o.cq) + [f]
    ensures Held(q) == Held(o)
  {
    hide Flat, FramesIn, CqOk, RxOk, HeldBytes, All, RecvOwners;
    var slot := o.posted[0];
    var c := Completion(RecvId(slot), true, OpRecv, ENVELOPE_LEN + |f.body|, 0);
    PostedSlotIdle(o, slot);
    CqStore(o.recvMem, slot, f, o.cq);
    RxStore(o.recvMem, slot, f, o.rxReady);
    CqSnoc(q.recvMem, o.cq, c);
    TookPosted(o, c, q);
  }

  lemma SameCap(p: Peer, o: Peer)
    requires Inv(p, o)
    ensures p.params.cap == o.params.cap
  {
    hide Local, Lossless, InOrder;
  }

  lemma LandIs(o: Peer, w: WorkRequest, mem: seq<Frame>)
    requires !w.OneSided? && o.posted != []
    ensures var f := Cell(mem, w.slot);
      Land(o, w, mem) == o.(posted := o.posted[1..], recvMem := Store(o.recvMem, o.posted[0], f),
                            cq := o.cq + [Completion(RecvId(o.posted[0]), true, OpRecv, ENVELOPE_LEN + |f.body|, 0)])
  {
    hide Cell, Store;
  }

  lemma LandWriteIs(o: Peer, w: WorkRequest, mem: seq<Frame>)
    requires w.OneSided? && (NeedsRecv(w) ==> o.posted != [])
    ensures Land(o, w, mem) ==
      if w.put.imm.None? then o.(landed := o.landed + [w.put])
      else o.(landed := o.landed + [w.put], posted := o.posted[1..],
              cq := o.cq + [Completion(RecvId(o.posted[0]), true, OpRecvRdmaWithImm, |w.put.data|, w.put.imm.value)])
  {
  }

  /** Delivery changes the receiver's queues, its receive memory and what has landed, and a
      receive that is taken turns into a completion. */
  lemma LandFrame(o: Peer, w: WorkRequest, mem: seq<Frame>)
    requires NeedsRecv(w) ==> o.posted != []
    ensures var r := Land(o, w, mem);
      && r == o.(landed := r.landed, posted := r.posted, cq := r.cq, recvMem := r.recvMem)
      && o.cq <= r.cq && (r.cq != [] || (r.cq == o.cq && r.posted == o.posted))
  {
    hide Land, Cell, Store;
    if w.OneSided? {
      LandWriteIs(o, w, mem);
    } else {
      LandIs(o, w, mem);
    }
  }

  lemma KeepDeliverMessage(p: Peer, o: Peer, w: WorkRequest, q: Peer, r: Peer)
    requires Inv(p, o) && Linked(p, o) && p.sq == [w] + q.sq && !w.OneSided? && o.posted != []
    requires q == p.(sq := q.sq, unacked := p.unacked + [w]) && r == Land(o, w, p.sendMem)
    ensures Inv(q, r)
  {
    hide SendOk, RecvOk, WriteOk, Flat, FramesIn, FramesOut, Safe, Lossless, InOrder, Held, Land, Store, Cell, Unharmed, FrameOk;
    var f := Cell(p.sendMem, w.slot);
    SentLocal(p, w, q);
    LandIs(o, w, p.sendMem);
    SameCap(p, o);
    LandMessage(o, f, r);
    LandedLocal(o, f, r);
    SentQueue(p, o, w, q, r, f);
    DeliveredPair(p, o, q, r);
  }

  /** The rest of the receiving end, and what it knows of failures, stay as they were. */
  lemma LandedLocal(o: Peer, f: Frame, r: Peer)
    requires SendOk(o) && WriteOk(o) && o.posted != []
    requires r == o.(posted := o.posted[1..], recvMem := r.recvMem,
                     cq := o.cq + [Completion(RecvId(o.posted[0]), true, OpRecv, ENVELOPE_LEN + |f.body|, 0)])
    ensures SendOk(r) && WriteOk(r) && Flat(ImmArrived, r.cq) == Flat(ImmArrived, o.cq) && Unharmed(r) == Unharmed(o)
  {
    hide SendOk, WriteOk, Flat;
    StageBound(o);
    Pushed(o, r.cq[|r.cq| - 1], r.cq);
    SendSame(o, r);
    WriteSame(o, r);
    assert r.cq[|r.cq| - 1] in r.cq && forall c <- o.cq :: c in r.cq;
  }

  /** The frame leaves the send queue and joins the unpolled ones: nothing in transit
      changes. */
  lemma SentQueue(p: Peer, o: Peer, w: WorkRequest, q: Peer, r: Peer, f: Frame)
    requires p.sq == [w] + q.sq && !w.OneSided? && f == Cell(p.sendMem, w.slot) && q.sendMem == p.sendMem
    requires q.recvMem == p.recvMem && q.cq == p.cq && q.closed == p.closed && r.sq == o.sq && r.sendMem == o.sendMem
    requires FramesIn(r.recvMem, r.cq) == FramesIn(o.recvMem, o.cq) + [f]
    ensures Transit(q, r) == Transit(p, o) && Transit(r, q) == Transit(o, p)
    ensures Flat(PutOf, q.sq) == Flat(PutOf, p.sq) && Unharmed(q) == Unharmed(p)
  {
    hide Flat, FramesIn, FramesOut, Cell;
    Taken(p.sendMem, p.sq, w, q.sq);
    Associate(FramesIn(o.recvMem, o.cq), [f], FramesOut(q.sendMem, q.sq));
    assert [] + Flat(PutOf, q.sq) == Flat(PutOf, q.sq);
  }

  lemma DeliveredPair(p: Peer, o: Peer, q: Peer, r: Peer)
    requires Safe(p, o) && Safe(o, p) && Lossless(p, o) && Lossless(o, p)
    requires q == p.(sq := q.sq, unacked := q.unacked) && r == o.(posted := r.posted, recvMem := r.recvMem, cq := r.cq)
    requires Transit(q, r) == Transit(p, o) && Transit(r, q) == Transit(o, p) && Held(r) == Held(o)
    requires Flat(PutOf, q.sq) == Flat(PutOf, p.sq) && Flat(ImmArrived, r.cq) == Flat(ImmArrived, o.cq)
    ensures Safe(q, r) && Safe(r, q) && Lossless(q, r) && Lossless(r, q)
    ensures InOrder(q, r) == InOrder(p, o) && InOrder(r, q) == InOrder(o, p)
  {
    hide Flat, FramesIn, FramesOut, HeldBytes, Grants, DataCount, Transit, Bytes;
    LosslessIsSafe(q, r);
  }

  /** While nothing is lost, what the receiver has is a prefix of what was written, and
      the credits the sender can reach are part of the receiver's pool. */
  lemma LosslessIsSafe(p: Peer, q: Peer)
    requires Lossless(p, q) && Lossless(q, p)
    ensures q.got + Held(q) + Bytes(FramesIn(q.recvMem, q.cq)) <= p.wrote
    ensures q.sendCredits + Grants(FramesIn(q.recvMem, q.cq)) <= p.params.pool
    ensures |q.rxReady| + DataCount(FramesIn(q.recvMem, q.cq)) + q.grantPending <= q.params.pool
  {
    hide Flat, FramesIn, FramesOut, HeldBytes, Grants, DataCount;
    var arrived, waiting := FramesIn(q.recvMem, q.cq), FramesOut(p.sendMem, p.sq);
    FlatAppend(Payload, arrived, waiting);
    CountAppend(arrived, waiting);
    var front := q.got + Held(q) + Bytes(arrived);
    assert q.got + Held(q) + Bytes(Transit(p, q)) == front + Bytes(waiting);
    assert front <= front + Bytes(waiting);
  }

  /** A one-sided write lands in application memory; only a write-with-immediate takes
      a receive slot, and no stream message or credit moves. */
  lemma KeepDeliverWrite(p: Peer, o: Peer, w: WorkRequest, q: Peer, r: Peer)
    requires Inv(p, o) && Linked(p, o) && p.sq == [w] + q.sq && w.OneSided? && (NeedsRecv(w) ==> o.posted != [])
    requires q == p.(sq := q.sq, unacked := p.unacked + [w]) && r == Land(o, w, p.sendMem)
    ensures Inv(q, r)
  {
    hide SendOk, RecvOk, WriteOk, Flat, FramesIn, FramesOut, HeldBytes, Grants, DataCount, All, RecvOwners, SendOwners,
      CtrlOk;
    SentLocal(p, w, q);
    StageBound(o);
    Taken(p.sendMem, p.sq, w, q.sq);
    FlatSnoc(ImmOf, o.landed, w.put);
    if NeedsRecv(w) {
      var c := r.cq[|r.cq| - 1];
      TookPosted(o, c, r);
      PushRecv(o, c, r);
      Pushed(o, c, r.cq);
    } else {
      RecvSame(o, r);
    }
    SendSame(o, r);
    WriteSame(o, r);
    assert Transit(q, r) == Transit(p, o) && Transit(r, q) == Transit(o, p);
    assert q.puts == r.landed + Flat(PutOf, q.sq);
    LandedSafe(p, o, w.put, q, r);
  }

  lemma LandedSafe(p: Peer, o: Peer, t: Put, q: Peer, r: Peer)
    requires Safe(p, o) && Safe(o, p) && r.landed == o.landed + [t] && r.landed <= q.puts
    requires Flat(ImmOf, r.landed) == Flat(ImmOf, o.landed) + ImmOf(t)
    requires Flat(ImmArrived, r.cq) == if t.imm.None? then Flat(ImmArrived, o.cq) else Flat(ImmArrived, o.cq) + ImmOf(t)
    requires q == p.(sq := q.sq, unacked := q.unacked) && r == o.(landed := r.landed, posted := r.posted, cq := r.cq)
    requires FramesIn(r.recvMem, r.cq) == FramesIn(o.recvMem, o.cq)
    ensures Safe(q, r) && Safe(r, q)
  {
    hide Flat, FramesIn, FramesOut, HeldBytes, Grants, DataCount;
  }

  // ---- any move --------------------------------------------------------------------------

  lemma PollKeeps(p: Peer, o: Peer)
    requires Inv(p, o) && p.cq != []
    ensures Inv(Poll(p), o)
  {
    hide SendOk, RecvOk, WriteOk, Safe, Lossless, InOrder, Poll, CqOk;
    var c := p.cq[0];
    RecvFacts(p);
    match c.id {
      case SendId(_) => PollSend(p, o, c, Poll(p));
      case CtrlId(_) => PollSend(p, o, c, Poll(p));
      case WriteId(_) => PollWrite(p, o, c, Poll(p));
      case ImmWriteId(_) => PollWrite(p, o, c, Poll(p));
      case RecvId(_) =>
        if !c.ok {
          PollFlushed(p, o, c, Poll(p));
        } else if c.opcode.OpRecv? {
          PollMessage(p, o, c, Poll(p));
        } else {
          PollImm(p, o, c, Poll(p));
        }
    }
  }

  lemma PostKeeps(p: Peer, o: Peer, bs: seq<byte>)
    requires Inv(p, o) && Enabled(p, o, Post(bs))
    ensures Inv(PostStaged(p, bs), o)
  {
    hide SendOk, RecvOk, WriteOk, Safe, Lossless;
    if Posts(p) {
      KeepPost(p, o, bs, PostStaged(p, bs));
    } else {
      var slot := p.sendFree[|p.sendFree| - 1];
      var payload := p.txStage + bs;
      FreeSlotIdle(p, slot);
      KeepRefused(p, o, PostStaged(p, bs), slot, Frame(Envelope(|payload|, Grant(p), 0), payload));
    }
  }

  lemma CreditKeeps(p: Peer, o: Peer)
    requires Inv(p, o) && CanReturn(p)
    ensures Inv(CreditReturn(p), o)
  {
    hide SendOk, RecvOk, WriteOk, Safe, Lossless, Flat;
    if Posts(p) {
      KeepCredit(p, o, CreditReturn(p));
    } else {
      CtrlSlotIdle(p);
      KeepRefused(p, o, CreditReturn(p), p.params.CtrlSlot(), Frame(Envelope(0, Grant(p), CREDIT_ONLY), []));
    }
  }

  lemma CtrlSlotIdle(p: Peer)
    requires SendOk(p) && !p.ctrlBusy
    ensures p.params.CtrlSlot() !in Flat(DataSlot, p.sq) && p.params.CtrlSlot() !in Flat(CtrlOf, p.sq)
  {
    hide Flat, FramesOut, All;
    var slot := p.params.CtrlSlot();
    assert SendOwners(p)[slot] == All(p.params.sendPool)[slot];
    assert slot !in multiset(Flat(DataSlot, p.sq));
  }

  lemma DeliverKeeps(p: Peer, o: Peer)
    requires Inv(p, o) && CanDeliver(p, o)
    ensures Inv(p.(sq := p.sq[1..], unacked := p.unacked + [p.sq[0]]), Land(o, p.sq[0], p.sendMem))
  {
    hide SendOk, RecvOk, WriteOk, Safe, Lossless;
    var w := p.sq[0];
    var q := p.(sq := p.sq[1..], unacked := p.unacked + [w]);
    assert p.sq == [w] + q.sq;
    if w.OneSided? {
      KeepDeliverWrite(p, o, w, q, Land(o, w, p.sendMem));
    } else {
      KeepDeliverMessage(p, o, w, q, Land(o, w, p.sendMem));
    }
  }

  lemma FlushKeeps(p: Peer, o: Peer, a: Action)
    requires Inv(p, o) && Enabled(p, o, a) && (a.Ack? || a.FlushSend? || a.FlushUnacked? || a.FlushRecv?)
    ensures Inv(Do(p, o, a).0, o)
  {
    hide SendOk, RecvOk, WriteOk, Safe, Lossless;
    var q := Do(p, o, a).0;
    if a.FlushSend? {
      assert p.sq == [p.sq[0]] + q.sq;
      KeepCompleted(p, o, p.sq[0], false, q);
    } else if a.FlushRecv? {
      KeepFlushRecv(p, o, Completion(RecvId(p.posted[0]), false, OpRecv, 0, 0), q);
    } else {
      assert p.unacked == [p.unacked[0]] + q.unacked;
      KeepCompleted(p, o, p.unacked[0], a.Ack?, q);
    }
  }

  lemma StepKeeps(p: Peer, o: Peer, a: Action)
    requires Inv(p, o) && Enabled(p, o, a)
    ensures Inv(Do(p, o, a).0, Do(p, o, a).1)
  {
    hide Inv, Poll, PostStaged, CreditReturn, PostPuts, Land, ReadSome;
    match a {
      case Stage(bs) => KeepStage(p, o, bs, Do(p, o, a).0) by { StageFits(p, o, bs); }
      case Post(bs) => PostKeeps(p, o, bs);
      case Credit => CreditKeeps(p, o);
      case PollOne => PollKeeps(p, o);
      case Read(k) => KeepRead(p, o, k, Do(p, o, a).0);
      case TakeId => KeepTakeId(p, o, Do(p, o, a).0);
      case BeginWrite(puts, good) => KeepBegin(p, o, puts, good, Do(p, o, a).0);
      case MarkClosed => KeepFlags(p, o, true, p.alive, p.accepts);
      case Kill => KeepFlags(p, o, p.closed, false, p.accepts);
      case Accept(on) => KeepFlags(p, o, p.closed, p.alive, on);
      case Deliver => DeliverKeeps(p, o);
      case _ => FlushKeeps(p, o, a);
    }
  }

  lemma StageFits(p: Peer, o: Peer, bs: seq<byte>)
    requires Enabled(p, o, Stage(bs))
    ensures |p.txStage| + |bs| < p.params.cap
  {
  }
}
