/** The flush barrier and the send-queue bound: two promises that hold under a
    condition the caller can check, and fail without it. */
module StreamFlush {
  import opened Basics
  import opened StreamState
  import opened StreamSystem
  import opened StreamSteps
  import opened StreamRuns
  import opened StreamTheorems

  /** The state in which `flush` returns success: nothing staged, no data send and no
      one-sided write outstanding. */
  predicate Flushed(p: Peer) {
    p.txStage == [] && |p.sendFree| == p.params.sendPool && p.writesOut == 0
  }

  lemma {:induction false} NoSendDone(cq: seq<Completion>)
    requires Flat(SendDone, cq) == []
    ensures forall c <- cq :: !c.id.SendId?
  {
    if cq != [] {
      FlatHead(SendDone, cq);
      NoSendDone(cq[1..]);
      assert cq == [cq[0]] + cq[1..];
    }
  }

  lemma {:induction false} OnlyControl(mem: seq<Frame>, sq: seq<WorkRequest>, ctrl: nat)
    requires Flat(DataSlot, sq) == [] && forall s <- Flat(CtrlOf, sq) :: s == ctrl
    requires Cell(mem, ctrl).body == []
    ensures Bytes(FramesOut(mem, sq)) == []
  {
    if sq != [] {
      var w, rest := sq[0], sq[1..];
      assert sq == [w] + rest;
      Taken(mem, sq, w, rest);
      OnlyControl(mem, rest, ctrl);
      if w.CtrlSend? {
        assert w.slot in Flat(CtrlOf, sq);
        HeadFrame(FramesOut(mem, sq), Cell(mem, w.slot), FramesOut(mem, rest));
      }
    }
  }

  lemma NothingOutstanding(p: Peer)
    requires SendOk(p) && |p.sendFree| == p.params.sendPool
    ensures Flat(DataSlot, p.sq) == [] && Flat(SendDone, p.cq) == []
  {
    hide Flat, FramesOut, All, CtrlOk;
    AllCount(p.params.sendPool);
    assert |SendOwners(p)| ==
           |p.sendFree| + |Flat(DataSlot, p.sq)| + |Flat(DataSlot, p.unacked)| + |Flat(SendDone, p.cq)|;
  }

  /** In every run, a flushed end that is not closed has delivered: every byte it
      accepted has been read at the other end or sits in its receive buffers. */
  lemma FlushBarrier(pa: Params, pb: Params, moves: seq<Move>)
    requires Compatible(pa, pb)
    ensures var s := Exec(Start(pa, pb), moves);
      Flushed(s.a) && !s.a.closed ==> s.a.wrote == Arrived(s.b)
  {
    hide Exec, Safe, Lossless, RecvOk, WriteOk, Flat, FramesIn, FramesOut, HeldBytes, All, SendOwners;
    var s := Exec(Start(pa, pb), moves);
    RunInv(pa, pb, moves);
    if Flushed(s.a) && !s.a.closed {
      NothingOutstanding(s.a);
      NoSendDone(s.a.cq);
      OnlyControl(s.a.sendMem, s.a.sq, pa.CtrlSlot());
      TransitBytes(s.a, s.b);
      var arrived := Bytes(FramesIn(s.b.recvMem, s.b.cq));
      assert s.b.got + Held(s.b) + (arrived + []) + [] == s.b.got + Held(s.b) + arrived;
    }
  }

  /** What has reached an end. */
  function Arrived(q: Peer): seq<byte> { q.got + Held(q) + Bytes(FramesIn(q.recvMem, q.cq)) }

  /** An end whose connection died after it posted one byte, with the failed completion of
      that message in its queue. */
  function DeadPost(params: Params): Peer
    requires CanSend(Fresh(params, 4))
  {
    PostStaged(Fresh(params, 4), [7]).(alive := false, sq := [], cq := [Done(DataSend(0), false)])
  }

  const SMALL := Params(64, 8, 4, 1, false, 0, 0)

  /** The connection dies with the message in the send queue. */
  function LostRun(): seq<Move> {
    [Move(true, Post([7])), Move(true, Kill), Move(true, FlushSend), Move(true, PollOne)]
  }

  /** It dies after the message was delivered, before the acknowledgement. */
  function DeliveredRun(): seq<Move> {
    [Move(true, Post([7])), Move(true, Deliver), Move(true, Kill), Move(true, FlushUnacked), Move(true, PollOne)]
  }

  lemma LostRunEnds()
    ensures CanSend(Fresh(SMALL, 4)) && Exec(Start(SMALL, SMALL), LostRun()) == Sys(Poll(DeadPost(SMALL)), Fresh(SMALL, 4))
  {
    hide Exec, Step, Fresh, PostStaged, Poll;
    var params, m := SMALL, LostRun();
    var o, p0 := Fresh(params, 4), Fresh(params, 4);
    FreshSends(params);
    var p1 := PostStaged(p0, [7]);
    var p2 := p1.(alive := false);
    var p3 := p2.(sq := [], cq := [Done(DataSend(0), false)]);
    StepsPost(p0, o);
    assert p1.sq[1..] == [];
    assert Step(Sys(p1, o), m[1]) == Sys(p2, o) by { StepsDie(p1, o); }
    assert Step(Sys(p2, o), m[2]) == Sys(p3, o) by { StepsDie(p2, o); }
    assert Step(Sys(p3, o), m[3]) == Sys(Poll(p3), o) by { StepsDie(p3, o); }
    ExecSnoc(Sys(p0, o), [], m[0]);
    ExecSnoc(Sys(p0, o), m[..1], m[1]);
    ExecSnoc(Sys(p0, o), m[..2], m[2]);
    ExecSnoc(Sys(p0, o), m[..3], m[3]);
    assert [] + [m[0]] == m[..1] && m[..1] + [m[1]] == m[..2] && m[..2] + [m[2]] == m[..3] && m[..3] + [m[3]] == m;
  }

  lemma DeliveredRunEnds()
    ensures CanSend(Fresh(SMALL, 4))
    ensures var s := Exec(Start(SMALL, SMALL), DeliveredRun()); s.a == Poll(DeadPost(SMALL)) && Arrived(s.b) == [7]
  {
    hide Exec, Step, Fresh, PostStaged, Poll, Land, Arrived;
    var params, m := SMALL, DeliveredRun();
    var o, p0 := Fresh(params, 4), Fresh(params, 4);
    FreshSends(params);
    var p1 := PostStaged(p0, [7]);
    StepsPost(p0, o);
    StepsDeliver(p1, o);
    var o1 := Land(o, DataSend(0), p1.sendMem);
    var p2 := p1.(sq := [], unacked := [DataSend(0)]);
    var p3 := p2.(alive := false);
    var p4 := p3.(unacked := [], cq := [Done(DataSend(0), false)]);
    assert p3.unacked[1..] == [];
    assert Step(Sys(p2, o1), m[2]) == Sys(p3, o1) by { StepsDie(p2, o1); }
    assert Step(Sys(p3, o1), m[3]) == Sys(p4, o1) by { StepsDie(p3, o1); }
    assert Step(Sys(p4, o1), m[4]) == Sys(Poll(p4), o1) by { StepsDie(p4, o1); }
    assert p4 == DeadPost(params);
    ExecSnoc(Sys(p0, o), [], m[0]);
    ExecSnoc(Sys(p0, o), m[..1], m[1]);
    ExecSnoc(Sys(p0, o), m[..2], m[2]);
    ExecSnoc(Sys(p0, o), m[..3], m[3]);
    ExecSnoc(Sys(p0, o), m[..4], m[4]);
    assert [] + [m[0]] == m[..1] && m[..1] + [m[1]] == m[..2] && m[..2] + [m[2]] == m[..3] && m[..3] + [m[3]] == m[..4] && m[..4] + [m[4]] == m;
    ByteArrives(p1, o);
  }

  /** Without that condition the promise fails: the connection dies with a message in
      the send queue, its failed completion gives the slot back, and the end looks
      flushed although the other end has nothing. */
  lemma FlushWithoutDelivery()
    ensures Compatible(SMALL, SMALL)
    ensures var s := Exec(Start(SMALL, SMALL), LostRun()); Flushed(s.a) && s.a.closed && s.a.wrote == [7] && Arrived(s.b) == []
  {
    hide Exec, Fresh, PostStaged, Poll;
    LostRunEnds();
    FreshSends(SMALL);
    StepsPost(Fresh(SMALL, 4), Fresh(SMALL, 4));
    Reclaimed(DeadPost(SMALL));
  }

  /** And no other test of the sender could do better: after these two runs it is in the
      same state, flushed and closed, and in one of them everything has arrived and in the
      other nothing. */
  lemma FlushCannotTell()
    ensures Compatible(SMALL, SMALL)
    ensures var lost, done := Exec(Start(SMALL, SMALL), LostRun()), Exec(Start(SMALL, SMALL), DeliveredRun());
      && lost.a == done.a && Flushed(lost.a) && lost.a.closed
      && Arrived(done.b) == done.a.wrote == [7] && Arrived(lost.b) == []
  {
    hide Exec, Arrived, Flushed;
    FlushWithoutDelivery();
    LostRunEnds();
    DeliveredRunEnds();
  }

  lemma StepsDeliver(p: Peer, o: Peer)
    requires Posts(p) && o.alive && p.sq == [DataSend(0)] && p.unacked == [] && o.posted != []
    ensures Step(Sys(p, o), Move(true, Deliver)) ==
      Sys(p.(sq := [], unacked := [DataSend(0)]), Land(o, DataSend(0), p.sendMem))
  {
    hide Land;
    assert p.sq[1..] == [] && [] + [DataSend(0)] == [DataSend(0)];
  }

  /** A message landed at a fresh end has arrived. */
  lemma ByteArrives(p: Peer, o: Peer)
    requires Cell(p.sendMem, 0).body == [7] && o.posted != [] && o.posted[0] < |o.recvMem|
    requires o.cq == [] && o.got == [] && o.rxReady == []
    ensures Arrived(Land(o, DataSend(0), p.sendMem)) == [7]
  {
    hide Land, Store;
    var f := Cell(p.sendMem, 0);
    LandIs(o, DataSend(0), p.sendMem);
    var r := Land(o, DataSend(0), p.sendMem);
    assert Cell(r.recvMem, o.posted[0]) == f by { StoreCell(o.recvMem, o.posted[0], f); }
    CqSnoc(r.recvMem, [], r.cq[0]);
    assert [] + r.cq == r.cq && r.cq == [] + [r.cq[0]];
    assert FramesIn(r.recvMem, []) == [] && FramesIn(r.recvMem, r.cq) == [] + [f] && [] + [f] == [f];
    FlatOne(Payload, f);
  }

  lemma StoreCell(mem: seq<Frame>, slot: nat, f: Frame)
    requires slot < |mem|
    ensures Cell(Store(mem, slot, f), slot) == f
  {
  }

  lemma FreshSends(params: Params)
    requires params.sendPool == 1 && params.pool == 4 && params.cap == 8
    ensures var p := Fresh(params, 4);
      && CanSend(p) && p.sendFree == [0] && Posts(p) && !p.closed && p.txStage == [] && p.cq == [] && p.params == params
      && p.sq == [] && p.wrote == [] && p.got == [] && p.rxReady == [] && p.recvMem == BlankMem(params.Slots())
      && p.writesOut == 0 && p.unacked == [] && p.posted == UpTo(params.Slots()) && |p.posted| == params.Slots()
      && |p.recvMem| == params.Slots() && p.posted[0] == 0 && |p.sendMem| == 2
  {
    assert DownFrom(1) == [0];
  }

  lemma StepsPost(p: Peer, o: Peer)
    requires CanSend(p) && p.sendFree == [0] && Posts(p) && p.txStage == [] && p.params.cap == 8 && p.sq == []
    ensures Step(Sys(p, o), Move(true, Post([7]))) == Sys(PostStaged(p, [7]), o)
    ensures var q := PostStaged(p, [7]);
      && q.sq == [DataSend(0)] && q.sendFree == [] && q.wrote == p.wrote + [7] && q.txStage == [] && q.cq == p.cq
      && q.writesOut == p.writesOut && q.unacked == p.unacked && Posts(q) && q.params == p.params
      && (|p.sendMem| > 0 ==> Cell(q.sendMem, 0).body == [7])
  {
  }

  lemma StepsDie(p: Peer, o: Peer)
    ensures Step(Sys(p, o), Move(true, Kill)) == Sys(p.(alive := false), o)
    ensures !p.alive && p.sq != [] && p.cq == [] ==>
      Step(Sys(p, o), Move(true, FlushSend)) == Sys(p.(sq := p.sq[1..], cq := [Done(p.sq[0], false)]), o)
    ensures !p.alive && p.unacked != [] && p.cq == [] ==>
      Step(Sys(p, o), Move(true, FlushUnacked)) == Sys(p.(unacked := p.unacked[1..], cq := [Done(p.unacked[0], false)]), o)
    ensures p.cq != [] ==> Step(Sys(p, o), Move(true, PollOne)) == Sys(Poll(p), o)
  {
  }

  lemma Reclaimed(p: Peer)
    requires p.cq == [Done(DataSend(0), false)] && p.sendFree == []
    ensures Poll(p) == p.(cq := [], closed := true, sendFree := [0])
  {
    assert p.cq[1..] == [];
  }

  // ---- the send queue ----------------------------------------------------------------

  /** Data sends and one-sided writes that occupy the send queue. */
  function Occupied(p: Peer): int { p.params.sendPool - |p.sendFree| + p.writesOut }

  function OwnDone(c: Completion): seq<nat> { SendDone(c) + CtrlDone(c) + WriteDone(c) }

  /** Every work request of this end whose completion it has not polled. */
  function Outstanding(p: Peer): nat { |p.sq| + |p.unacked| + |Flat(OwnDone, p.cq)| }

  lemma {:induction false} QueueCount(ws: seq<WorkRequest>)
    ensures |ws| == |Flat(DataSlot, ws)| + |Flat(CtrlOf, ws)| + |Flat(PutOf, ws)|
  {
    if ws != [] {
      QueueCount(ws[1..]);
    }
  }

  lemma {:induction false} DoneCount(cq: seq<Completion>)
    ensures |Flat(OwnDone, cq)| == |Flat(SendDone, cq)| + |Flat(CtrlDone, cq)| + |Flat(WriteDone, cq)|
  {
    if cq != [] {
      DoneCount(cq[1..]);
    }
  }

  /** The two counters the code keeps say exactly how full the send queue is, with one
      more entry for a control message. */
  lemma OutstandingIs(p: Peer)
    requires SendOk(p) && WriteOk(p)
    ensures Outstanding(p) == Occupied(p) + if p.ctrlBusy then 1 else 0
  {
    hide Flat, FramesOut, All;
    QueueCount(p.sq);
    QueueCount(p.unacked);
    DoneCount(p.cq);
    AllCount(p.params.sendPool);
    assert |SendOwners(p)| ==
           |p.sendFree| + |Flat(DataSlot, p.sq)| + |Flat(DataSlot, p.unacked)| + |Flat(SendDone, p.cq)|;
  }

  /** A data message goes out although pending writes hold every entry its slot stands
      for: `can_send_data` does not look at them. */
  predicate Crowds(s: Sys, m: Move) {
    m.byA && m.act.Post? && CanMove(s, m) && Posts(s.a) && s.a.writesOut >= |s.a.sendFree|
  }

  /** No move of the run crowds the send queue of `a`. */
  predicate Polite(s: Sys, moves: seq<Move>) {
    moves == [] ||
    (Polite(s, moves[..|moves| - 1]) && !Crowds(Exec(s, moves[..|moves| - 1]), moves[|moves| - 1]))
  }

  /** At every point of the run, sends and writes fit the send pool. */
  ghost predicate Fitting(s: Sys, moves: seq<Move>) {
    forall k :: 0 <= k <= |moves| ==> Occupied(Exec(s, moves[..k]).a) <= s.a.params.sendPool
  }

  lemma PostFits(p: Peer, bs: seq<byte>)
    requires CanSend(p) && Posts(p)
    ensures Occupied(PostStaged(p, bs)) <= p.params.sendPool <==> p.writesOut < |p.sendFree|
  {
  }

  lemma StepOccupied(p: Peer, o: Peer, a: Action)
    requires Enabled(p, o, a) && Occupied(p) <= p.params.sendPool
    requires a.Post? && Posts(p) ==> p.writesOut < |p.sendFree|
    ensures Occupied(Do(p, o, a).0) <= p.params.sendPool
  {
    hide ReadSome, Poll, CreditReturn, PostStaged, PostPuts;
    if a.Read? {
      ReadShape(p, a.k, ReadSome(p, a.k));
    } else if a.PollOne? {
      PollOccupied(p);
    } else if a.Credit? {
      CreditOccupied(p);
    } else if a.Post? {
      PostOccupied(p, a.bs);
    } else if a.BeginWrite? {
      BeginOccupied(p, a.puts, a.good);
    }
  }

  lemma PostOccupied(p: Peer, bs: seq<byte>)
    requires CanSend(p) && Occupied(p) <= p.params.sendPool && (Posts(p) ==> p.writesOut < |p.sendFree|)
    ensures Occupied(PostStaged(p, bs)) <= p.params.sendPool
  {
    hide Store;
  }

  lemma BeginOccupied(p: Peer, puts: seq<Put>, good: nat)
    requires CanBegin(p, puts) && good <= |puts| && Occupied(p) <= p.params.sendPool
    ensures Occupied(PostPuts(p, puts, good)) <= p.params.sendPool
  {
    hide Wrs, ImmLast, HasImm;
  }

  lemma CreditOccupied(p: Peer)
    ensures Occupied(CreditReturn(p)) == Occupied(p)
  {
  }

  lemma PollOccupied(p: Peer)
    requires p.cq != []
    ensures Occupied(Poll(p)) <= Occupied(p)
  {
    hide Handle;
    var p1, c := p.(cq := p.cq[1..]), p.cq[0];
    HandleFrame(p1, c);
    if c.opcode.OpRecvRdmaWithImm? || (c.id.RecvId? && c.ok) {
      RecvOccupied(p1, c);
    } else {
      HandleOwn(p1, c);
    }
  }

  lemma RecvOccupied(p: Peer, c: Completion)
    requires c.opcode.OpRecvRdmaWithImm? || (c.id.RecvId? && c.ok)
    ensures Handle(p, c).sendFree == p.sendFree && Handle(p, c).writesOut == p.writesOut
  {
    hide Receive, Repost;
    if c.id.RecvId? {
      ReceiveFrame(p, c.id.slot, c.byteLen);
      RepostFrame(p.(done := p.done + [c.imm]), c.id.slot);
    }
  }

  lemma FreshOccupied(params: Params, pool: nat)
    ensures Occupied(Fresh(params, pool)) == 0
  {
  }

  lemma OtherOccupied(p: Peer, o: Peer, a: Action)
    requires Enabled(p, o, a)
    ensures Occupied(Do(p, o, a).1) == Occupied(o)
  {
    hide Poll, ReadSome, PostStaged, CreditReturn, PostPuts, Land, Occupied;
    if a.Deliver? {
      LandOccupied(o, p.sq[0], p.sendMem);
    }
  }

  lemma LandOccupied(o: Peer, w: WorkRequest, mem: seq<Frame>)
    requires NeedsRecv(w) ==> o.posted != []
    ensures Occupied(Land(o, w, mem)) == Occupied(o)
  {
    hide Land;
    LandFrame(o, w, mem);
  }

  /** One move keeps the bound if and only if it does not crowd. */
  lemma MoveFits(s: Sys, m: Move)
    requires Occupied(s.a) <= s.a.params.sendPool
    ensures Occupied(Step(s, m).a) <= s.a.params.sendPool <==> !Crowds(s, m)
  {
    hide Do, Enabled, Occupied, Posts;
    if CanMove(s, m) {
      if !m.byA {
        OtherOccupied(s.b, s.a, m.act);
      } else if Crowds(s, m) {
        PostStep(s.a, s.b, m.act);
        PostFits(s.a, m.act.bs);
      } else {
        StepOccupied(s.a, s.b, m.act);
      }
    }
  }

  lemma PostStep(p: Peer, o: Peer, a: Action)
    requires Enabled(p, o, a) && a.Post?
    ensures CanSend(p) && Do(p, o, a).0 == PostStaged(p, a.bs)
  {
  }

  lemma {:induction false} FittingIffPolite(s: Sys, moves: seq<Move>)
    requires Occupied(s.a) <= s.a.params.sendPool
    ensures Fitting(s, moves) <==> Polite(s, moves)
    ensures Exec(s, moves).a.params == s.a.params
  {
    hide Step, Occupied, Crowds;
    if moves == [] {
      assert moves[..0] == [];
    } else {
      var front, m := moves[..|moves| - 1], moves[|moves| - 1];
      var before := Exec(s, front);
      FittingIffPolite(s, front);
      StepParams(before, m);
      assert moves[..|moves|] == moves && Exec(s, moves) == Step(before, m);
      assert forall k :: 0 <= k <= |front| ==> moves[..k] == front[..k];
      assert front[..|front|] == front;
      if Fitting(s, front) {
        assert Occupied(before.a) <= s.a.params.sendPool;
        MoveFits(before, m);
      }
      FittingSnoc(s, moves);
    }
  }

  lemma StepParams(s: Sys, m: Move)
    ensures Step(s, m).a.params == s.a.params
  {
    hide Do, Enabled;
  }

  lemma FittingSnoc(s: Sys, moves: seq<Move>)
    requires moves != []
    ensures Fitting(s, moves) <==>
      Fitting(s, moves[..|moves| - 1]) && Occupied(Exec(s, moves).a) <= s.a.params.sendPool
  {
    hide Exec, Occupied;
    var front := moves[..|moves| - 1];
    assert moves[..|moves|] == moves;
    assert forall k :: 0 <= k <= |front| ==> moves[..k] == front[..k];
  }

  /** The send queue, exactly: in every run, sends and writes fit the send pool at every
      point if and only if no data message was posted over pending writes; and where they
      fit, at most one entry more is in use, within the two extra entries the queue pair
      is made with. */
  lemma SendQueueBound(pa: Params, pb: Params, moves: seq<Move>)
    requires Compatible(pa, pb)
    ensures Fitting(Start(pa, pb), moves) <==> Polite(Start(pa, pb), moves)
    ensures Polite(Start(pa, pb), moves) ==> Outstanding(Exec(Start(pa, pb), moves).a) <= pa.sendPool + 1
  {
    hide Exec, Inv, Fresh, Occupied, Polite, Outstanding;
    var s := Start(pa, pb);
    assert Occupied(s.a) == 0 && s.a.params == pa by { FreshOccupied(pa, pb.pool); FreshParams(pa, pb); }
    FittingIffPolite(s, moves);
    RunInv(pa, pb, moves);
    if Polite(s, moves) {
      assert moves[..|moves|] == moves;
      assert Occupied(Exec(s, moves).a) <= pa.sendPool;
      InvOutstanding(Exec(s, moves).a, Exec(s, moves).b);
    }
  }

  lemma InvOutstanding(p: Peer, o: Peer)
    requires Inv(p, o)
    ensures Outstanding(p) <= Occupied(p) + 1
  {
    hide SendOk, WriteOk, RecvOk, Safe, Lossless, Occupied, Outstanding;
    OutstandingIs(p);
  }

  /** A run that exceeds the pool: with one send buffer, an admitted write and then a
      data message put two work requests where there is room for one. */
  lemma SendQueueOverrun()
    ensures exists pa: Params, pb: Params, moves: seq<Move> ::
      Compatible(pa, pb) && |moves| == 2 && Occupied(Exec(Start(pa, pb), moves).a) > pa.sendPool
  {
    hide Exec, Step, Fresh, PostStaged, PostPuts;
    var params := Params(64, 8, 4, 1, false, 0, 0);
    var o, p0 := Fresh(params, 4), Fresh(params, 4);
    var write := [Put(0, [7], None)];
    var m := [Move(true, BeginWrite(write, 1)), Move(true, Post([7]))];
    FreshSends(params);
    WriteStep(p0, o, write);
    var p1 := PostPuts(p0, write, 1);
    assert Step(Sys(p0, o), m[0]) == Sys(p1, o);
    PostsStep(p1, o);
    ExecSnoc(Sys(p0, o), [], m[0]);
    ExecSnoc(Sys(p0, o), m[..1], m[1]);
    assert [] + [m[0]] == m[..1] && m[..1] + [m[1]] == m;
    assert Compatible(params, params);
    var s := Exec(Start(params, params), m);
    assert s == Step(Sys(p1, o), m[1]);
    assert Occupied(s.a) > params.sendPool;
  }

  lemma WriteStep(p: Peer, o: Peer, write: seq<Put>)
    requires |write| == 1 && write[0].imm.None? && !p.closed && Posts(p) && p.sendFree == [0] && p.writesOut == 0
    requires p.params.sendPool == 1
    ensures Step(Sys(p, o), Move(true, BeginWrite(write, 1))) == Sys(PostPuts(p, write, 1), o)
    ensures var q := PostPuts(p, write, 1);
      && q.writesOut == 1 && q.sendFree == [0] && q.params == p.params && !q.closed && Posts(q)
      && q.sendCredits == p.sendCredits && q.txStage == p.txStage
  {
  }

  lemma PostsStep(p: Peer, o: Peer)
    requires !p.closed && Posts(p) && p.sendFree == [0] && p.writesOut == 1 && p.sendCredits > 0 && p.txStage == []
    requires p.params.sendPool == 1 && p.params.cap == 8
    ensures Occupied(Step(Sys(p, o), Move(true, Post([7]))).a) > 1
  {
  }
}
