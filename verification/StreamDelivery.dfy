/** Delivery: every way of carrying out a finite workload ends, and ends with each
    reader holding exactly what the other end was given to write. */
module StreamDelivery {
  import opened Basics
  import opened EnvelopeCodec
  import opened StreamState
  import opened StreamSystem
  import opened StreamSteps
  import opened StreamRuns
  import opened StreamProgress

  // ---- a measure -----------------------------------------------------------------

  function FrameWeight(f: Frame): nat { if f.env.IsCreditOnly() then 0 else 6 + |f.body| }

  function FramesWeight(fs: seq<Frame>): nat {
    if fs == [] then 0 else FrameWeight(fs[0]) + FramesWeight(fs[1..])
  }

  function HeldWeight(rx: seq<ReadyMsg>): nat {
    if rx == [] then 0 else 6 + SaturatingSub(rx[0].end, rx[0].start) + HeldWeight(rx[1..])
  }

  /** What one end still has to do, apart from the frames in transit. A posted work
      request is worth its delivery, acknowledgement and both polls; an owed credit is
      worth the control message that may return it; a byte is worth a whole message. */
  function PeerWeight(p: Peer): nat {
    4 * |p.sq| + |Flat(PutOf, p.sq)| + 2 * |p.unacked| + |p.cq| + |Flat(ImmArrived, p.cq)| + |p.done|
    + HeldWeight(p.rxReady) + 5 * p.grantPending + 12 * |p.txStage|
  }

  function Weight(p: Peer, q: Peer): nat {
    PeerWeight(p) + PeerWeight(q) + FramesWeight(Transit(p, q)) + FramesWeight(Transit(q, p))
  }

  lemma {:induction false} FramesWeightSnoc(fs: seq<Frame>, f: Frame)
    ensures FramesWeight(fs + [f]) == FramesWeight(fs) + FrameWeight(f)
  {
    if fs == [] {
      assert [] + [f] == [f];
      assert [f][1..] == [];
    } else {
      assert (fs + [f])[1..] == fs[1..] + [f];
      FramesWeightSnoc(fs[1..], f);
    }
  }

  lemma FramesWeightHead(fs: seq<Frame>, f: Frame, rest: seq<Frame>)
    requires fs == [f] + rest
    ensures FramesWeight(fs) == FrameWeight(f) + FramesWeight(rest)
  {
    assert fs[1..] == rest;
  }

  lemma {:induction false} HeldWeightSnoc(rx: seq<ReadyMsg>, r: ReadyMsg)
    ensures HeldWeight(rx + [r]) == HeldWeight(rx) + 6 + SaturatingSub(r.end, r.start)
  {
    if rx == [] {
      assert [] + [r] == [r];
      assert [r][1..] == [];
    } else {
      assert (rx + [r])[1..] == rx[1..] + [r];
      HeldWeightSnoc(rx[1..], r);
    }
  }

  // ---- every move of a workload lowers it ---------------------------------------------

  lemma PostWeight(p: Peer, o: Peer, bs: seq<byte>, q: Peer)
    requires Inv(p, o) && Posts(p) && CanSend(p) && q == PostStaged(p, bs)
    ensures Weight(q, o) + 12 * |p.txStage| <= Weight(p, o) + 10 + |p.txStage| + |bs|
  {
    hide SendOk, RecvOk, WriteOk, Safe, Lossless, Flat, FramesIn, FramesOut, FramesWeight, HeldWeight, Grants, DataCount;
    var p0 := p.(txStage := []);
    var payload := p.txStage + bs;
    var f := Frame(Envelope(|payload|, Grant(p), 0), payload);
    StageBound(p);
    SendSame(p, p0);
    PostDataFrames(p0, payload, PostData(p0, payload));
    FlatSnoc(PutOf, p.sq, DataSend(p.sendFree[|p.sendFree| - 1]));
    assert Transit(q, o) == Transit(p, o) + [f] && Transit(o, q) == Transit(o, p);
    FramesWeightSnoc(Transit(p, o), f);
  }

  lemma CreditWeight(p: Peer, o: Peer, q: Peer)
    requires Inv(p, o) && Posts(p) && CanReturn(p) && q == CreditReturn(p)
    ensures Weight(q, o) < Weight(p, o)
  {
    hide SendOk, RecvOk, WriteOk, Safe, Lossless, Flat, FramesIn, FramesOut, FramesWeight, HeldWeight, Grants, DataCount;
    var f := Frame(Envelope(0, Grant(p), CREDIT_ONLY), []);
    CreditFrames(p, q);
    FlatSnoc(PutOf, p.sq, CtrlSend(p.params.CtrlSlot()));
    assert Transit(q, o) == Transit(p, o) + [f] && Transit(o, q) == Transit(o, p);
    FramesWeightSnoc(Transit(p, o), f);
    assert f.env.IsCreditOnly();
  }

  lemma ReadWeight(p: Peer, o: Peer, k: nat, q: Peer)
    requires Posts(p) && CanRead(p, k) && q == ReadSome(p, k)
    ensures Weight(q, o) < Weight(p, o)
  {
    hide Flat, FramesIn, FramesOut, FramesWeight;
    assert Transit(q, o) == Transit(p, o) && Transit(o, q) == Transit(o, p);
    var r := p.rxReady[0];
    assert HeldWeight(p.rxReady) == 6 + (r.end - r.start) + HeldWeight(p.rxReady[1..]);
    if r.start + k < r.end {
      assert q.rxReady[1..] == p.rxReady[1..];
    }
  }

  lemma DeliverMessageWeight(p: Peer, o: Peer, w: WorkRequest, q: Peer, r: Peer)
    requires Inv(p, o) && Linked(p, o) && p.sq == [w] + q.sq && !w.OneSided? && o.posted != []
    requires q == p.(sq := q.sq, unacked := p.unacked + [w]) && r == Land(o, w, p.sendMem)
    ensures Weight(q, r) < Weight(p, o)
  {
    hide SendOk, RecvOk, WriteOk, Safe, Lossless, InOrder, Flat, FramesIn, FramesOut, FramesWeight, HeldWeight, HeldBytes,
      Grants, CqOk, Land, Store, Cell, Held;
    LandIs(o, w, p.sendMem);
    SameCap(p, o);
    Taken(p.sendMem, p.sq, w, q.sq);
    HeadSendOk(p, w, q.sq);
    LandMessage(o, Cell(p.sendMem, w.slot), r);
    Pushed(o, r.cq[|r.cq| - 1], r.cq);
    assert Transit(q, r) == Transit(p, o) && Transit(r, q) == Transit(o, p);
  }

  lemma DeliverWriteWeight(p: Peer, o: Peer, w: WorkRequest, q: Peer, r: Peer)
    requires p.sq == [w] + q.sq && w.OneSided? && (NeedsRecv(w) ==> o.posted != [])
    requires q == p.(sq := q.sq, unacked := p.unacked + [w]) && r == Land(o, w, p.sendMem)
    ensures Weight(q, r) < Weight(p, o)
  {
    hide Flat, FramesIn, FramesOut, FramesWeight, HeldWeight, CqOk;
    Taken(p.sendMem, p.sq, w, q.sq);
    if NeedsRecv(w) {
      var c := r.cq[|r.cq| - 1];
      CqSnoc(o.recvMem, o.cq, c);
      Pushed(o, c, r.cq);
    }
    assert Transit(q, r) == Transit(p, o) && Transit(r, q) == Transit(o, p);
  }

  lemma DeliverWeight(p: Peer, o: Peer, q: Peer, r: Peer)
    requires Inv(p, o) && CanDeliver(p, o)
    requires q == p.(sq := p.sq[1..], unacked := p.unacked + [p.sq[0]]) && r == Land(o, p.sq[0], p.sendMem)
    ensures Weight(q, r) < Weight(p, o)
  {
    hide Inv, Weight, Land;
    var w := p.sq[0];
    assert p.sq == [w] + q.sq;
    if w.OneSided? {
      DeliverWriteWeight(p, o, w, q, r);
    } else {
      DeliverMessageWeight(p, o, w, q, r);
    }
  }

  lemma AckWeight(p: Peer, o: Peer, q: Peer)
    requires p.unacked != [] && q == p.(unacked := p.unacked[1..], cq := p.cq + [Done(p.unacked[0], true)])
    ensures Weight(q, o) < Weight(p, o)
  {
    hide Flat, FramesIn, FramesOut, FramesWeight, HeldWeight, CqOk;
    var c := Done(p.unacked[0], true);
    CqSnoc(p.recvMem, p.cq, c);
    Pushed(p, c, q.cq);
    assert Transit(q, o) == Transit(p, o) && Transit(o, q) == Transit(o, p);
  }

  lemma PollMessageWeight(p: Peer, o: Peer, c: Completion, q: Peer)
    requires Inv(p, o) && Posts(p) && p.cq != [] && c == p.cq[0] && IsMessage(c) && q == Poll(p)
    ensures Weight(q, o) < Weight(p, o)
  {
    hide SendOk, RecvOk, WriteOk, Safe, Lossless, Flat, FramesIn, FramesOut, FramesWeight, HeldWeight, Grants, DataCount,
      CqOk, Poll, MessageTaken;
    var f := Cell(p.recvMem, c.id.slot);
    RecvFacts(p);
    MessageShape(p, o, c, f, q);
    TakenFields(p, c.id.slot, f);
    MessageLedger(p, o, c, f, q);
    Popped(p, c, p.(cq := p.cq[1..]));
    FramesWeightHead(Transit(o, p), f, Transit(o, q));
    HeldWeightSnoc(p.rxReady, ReadyMsg(c.id.slot, 0, |f.body|));
  }

  lemma PollOtherWeight(p: Peer, o: Peer, c: Completion, q: Peer)
    requires Inv(p, o) && Posts(p) && p.cq != [] && c == p.cq[0] && !IsMessage(c) && q == Poll(p)
    ensures Weight(q, o) < Weight(p, o)
  {
    hide SendOk, RecvOk, WriteOk, Safe, Lossless, Flat, FramesIn, FramesOut, FramesWeight, HeldWeight, Grants, DataCount,
      CqOk, Poll;
    RecvFacts(p);
    PollFrame(p);
    OtherFields(p, c);
    Popped(p, c, p.(cq := p.cq[1..]));
    assert Transit(q, o) == Transit(p, o) && Transit(o, q) == Transit(o, p);
  }

  lemma OtherFields(p: Peer, c: Completion)
    requires p.cq != [] && c == p.cq[0] && !IsMessage(c) && c.ok && CompletionOk(p.recvMem, c)
    ensures var q := Poll(p);
      && q.rxReady == p.rxReady && q.grantPending == p.grantPending && q.done == p.done + ImmArrived(c)
  {
    hide Repost, Receive, Handle;
    var p1 := p.(cq := p.cq[1..]);
    if c.opcode.OpRecvRdmaWithImm? {
      ImmFields(p1, c);
    } else {
      HandleOwn(p1, c);
    }
  }

  lemma ImmFields(p: Peer, c: Completion)
    requires c.opcode.OpRecvRdmaWithImm? && c.ok && c.id.RecvId?
    ensures var q := Handle(p, c); q.rxReady == p.rxReady && q.grantPending == p.grantPending && q.done == p.done + [c.imm]
  {
    hide Repost, Receive;
    RepostFrame(p.(done := p.done + [c.imm]), c.id.slot);
  }

  lemma {:induction false} WrsLength(puts: seq<Put>, base: nat)
    ensures |Wrs(puts, base)| == |puts|
  {
    if puts != [] {
      WrsLength(puts[1..], base + 1);
    }
  }

  lemma BeginWeight(p: Peer, o: Peer, puts: seq<Put>, q: Peer)
    requires q == PostPuts(p, puts, |puts|)
    ensures Weight(q, o) == Weight(p, o) + 5 * |puts|
  {
    hide Flat, FramesIn, FramesOut, FramesWeight, HeldWeight, Wrs;
    assert puts[..|puts|] == puts;
    BegunSlots(p, puts, q);
    WrsLength(puts, 0);
    assert Transit(q, o) == Transit(p, o) && Transit(o, q) == Transit(o, p);
  }

  // ---- workloads --------------------------------------------------------------------------

  /** A system with what each application still has to do: bytes to write to the stream,
      and one-sided gathers to post. */
  datatype World = World(s: Sys, todoA: seq<byte>, todoB: seq<byte>, writesA: seq<seq<Put>>, writesB: seq<seq<Put>>)

  /** One move of a workload: the NICs and polls, the readers, credit returns of any size,
      the writers, who hand over the next bytes of their workload, sending full messages,
      staging the rest, and flushing the stage, and the next gather when it is admitted. */
  predicate Works(p: Peer, o: Peer, todo: seq<byte>, writes: seq<seq<Put>>, a: Action) {
    && Enabled(p, o, a)
    && match a
       case Deliver | Ack | PollOne | Read(_) | TakeId | Credit => true
       case Stage(bs) => bs <= todo
       case Post(bs) => bs <= todo && (bs == [] || |p.txStage| + |bs| == p.params.cap)
       case BeginWrite(puts, good) => good == |puts| && writes != [] && puts == writes[0]
       case _ => false
  }

  /** A reader that is only waiting returns credits from the threshold on. */
  predicate Lazy(p: Peer, a: Action) { a.Credit? ==> p.grantPending >= p.params.Threshold() }

  function Consumed(a: Action): nat {
    match a
    case Stage(bs) => |bs|
    case Post(bs) => |bs|
    case _ => 0
  }

  function Begun(a: Action): seq<Put> { if a.BeginWrite? then a.puts else [] }

  predicate CanWork(w: World, m: Move) {
    if m.byA then Works(w.s.a, w.s.b, w.todoA, w.writesA, m.act) else Works(w.s.b, w.s.a, w.todoB, w.writesB, m.act)
  }

  function Left(writes: seq<seq<Put>>, a: Action): seq<seq<Put>> {
    if a.BeginWrite? && writes != [] then writes[1..] else writes
  }

  function Work(w: World, m: Move): World
    requires CanWork(w, m)
  {
    if m.byA then w.(s := Step(w.s, m), todoA := w.todoA[Consumed(m.act)..], writesA := Left(w.writesA, m.act))
    else w.(s := Step(w.s, m), todoB := w.todoB[Consumed(m.act)..], writesB := Left(w.writesB, m.act))
  }

  /** The writes of some gathers, one after the other. */
  function AllOf(writes: seq<seq<Put>>): seq<Put> { if writes == [] then [] else writes[0] + AllOf(writes[1..]) }

  function WorldWeight(w: World): nat {
    Weight(w.s.a, w.s.b) + 13 * |w.todoA| + 13 * |w.todoB| + 6 * |AllOf(w.writesA)| + 6 * |AllOf(w.writesB)|
  }

  lemma MoveWeight(p: Peer, o: Peer, todo: seq<byte>, writes: seq<seq<Put>>, a: Action)
    requires Inv(p, o) && Open(p, o) && Works(p, o, todo, writes, a)
    ensures Weight(Do(p, o, a).0, Do(p, o, a).1) < Weight(p, o) + 13 * Consumed(a) + 6 * |Begun(a)|
  {
    hide Inv, Weight, Poll, ReadSome, CreditReturn, PostStaged, Land, PostPuts;
    var r := Do(p, o, a);
    match a {
      case Deliver => DeliverWeight(p, o, r.0, r.1);
      case Ack => AckWeight(p, o, r.0);
      case PollOne =>
        if IsMessage(p.cq[0]) { PollMessageWeight(p, o, p.cq[0], r.0); } else { PollOtherWeight(p, o, p.cq[0], r.0); }
      case Read(k) => ReadWeight(p, o, k, r.0);
      case Credit => CreditWeight(p, o, r.0);
      case Post(bs) => PostWeight(p, o, bs, r.0);
      case Stage(bs) => IdleWeight(p, o, a);
      case TakeId => IdleWeight(p, o, a);
      case BeginWrite(puts, _) => BeginWeight(p, o, puts, r.0);
    }
  }

  lemma IdleWeight(p: Peer, o: Peer, a: Action)
    requires (a.Stage? || a.TakeId?) && Enabled(p, o, a)
    ensures Weight(Do(p, o, a).0, Do(p, o, a).1) < Weight(p, o) + 13 * Consumed(a)
  {
    hide Flat, FramesIn, FramesOut, FramesWeight, HeldWeight;
    var q := Do(p, o, a).0;
    assert Transit(q, o) == Transit(p, o) && Transit(o, q) == Transit(o, p);
  }

  lemma WeightSym(p: Peer, q: Peer)
    ensures Weight(p, q) == Weight(q, p)
  {
    hide Flat, FramesIn, FramesOut, FramesWeight, HeldWeight;
  }

  predicate WorldOk(w: World) { Inv(w.s.a, w.s.b) && Open(w.s.a, w.s.b) }

  /** What an end has been asked for so far does not change: done and still to do. */
  function Asked(p: Peer, todo: seq<byte>, writes: seq<seq<Put>>): (seq<byte>, seq<Put>) {
    (p.wrote + todo, p.puts + AllOf(writes))
  }

  lemma WorkKeeps(w: World, m: Move)
    requires WorldOk(w) && CanWork(w, m)
    ensures WorldOk(Work(w, m)) && WorldWeight(Work(w, m)) < WorldWeight(w)
    ensures var v := Work(w, m);
      && Asked(v.s.a, v.todoA, v.writesA) == Asked(w.s.a, w.todoA, w.writesA)
      && Asked(v.s.b, v.todoB, v.writesB) == Asked(w.s.b, w.todoB, w.writesB)
      && v.s.a.params == w.s.a.params && v.s.b.params == w.s.b.params
  {
    hide Inv, Weight, Do, AllOf, Works, Open;
    if m.byA {
      WorksEnabled(w.s.a, w.s.b, w.todoA, w.writesA, m.act);
      StepKeeps(w.s.a, w.s.b, m.act);
      MoveWeight(w.s.a, w.s.b, w.todoA, w.writesA, m.act);
      MoveShape(w.s.a, w.s.b, w.todoA, w.writesA, m.act);
    } else {
      WorksEnabled(w.s.b, w.s.a, w.todoB, w.writesB, m.act);
      InvSym(w.s.a, w.s.b);
      OpenSym(w.s.a, w.s.b);
      StepKeeps(w.s.b, w.s.a, m.act);
      var r := Do(w.s.b, w.s.a, m.act);
      InvSym(r.0, r.1);
      MoveWeight(w.s.b, w.s.a, w.todoB, w.writesB, m.act);
      MoveShape(w.s.b, w.s.a, w.todoB, w.writesB, m.act);
      OpenSym(r.0, r.1);
      WeightSym(w.s.a, w.s.b);
      WeightSym(r.0, r.1);
    }
  }

  lemma OpenSym(p: Peer, q: Peer)
    ensures Open(p, q) == Open(q, p)
  {
  }

  lemma WorksEnabled(p: Peer, o: Peer, todo: seq<byte>, writes: seq<seq<Put>>, a: Action)
    requires Works(p, o, todo, writes, a)
    ensures Enabled(p, o, a) && Consumed(a) <= |todo|
    ensures |AllOf(Left(writes, a))| + |Begun(a)| == |AllOf(writes)|
  {
  }

  /** A move of a workload closes nothing and accounts for the bytes and writes it takes. */
  lemma MoveShape(p: Peer, o: Peer, todo: seq<byte>, writes: seq<seq<Put>>, a: Action)
    requires Inv(p, o) && Open(p, o) && Works(p, o, todo, writes, a)
    ensures Open(Do(p, o, a).0, Do(p, o, a).1)
    ensures Asked(Do(p, o, a).0, todo[Consumed(a)..], Left(writes, a)) == Asked(p, todo, writes)
    ensures Do(p, o, a).1.wrote == o.wrote && Do(p, o, a).1.puts == o.puts
  {
    hide Local, Safe, Lossless, InOrder, Poll, PostStaged, CreditReturn, ReadSome, Land, PostPuts;
    if a.PollOne? {
      PollShape(p, o, p.cq[0]);
    } else {
      OtherShape(p, o, a);
    }
    if Consumed(a) > 0 {
      assert (a.Post? || a.Stage?) && a.bs == todo[..Consumed(a)];
      assert todo == todo[..Consumed(a)] + todo[Consumed(a)..];
      assert p.wrote + todo[..Consumed(a)] + todo[Consumed(a)..] == p.wrote + (todo[..Consumed(a)] + todo[Consumed(a)..]);
    } else {
      assert todo[Consumed(a)..] == todo;
      assert a.Post? || a.Stage? ==> a.bs == [] && p.wrote + a.bs == p.wrote;
    }
    if a.BeginWrite? {
      assert p.puts + writes[0] + AllOf(writes[1..]) == p.puts + (writes[0] + AllOf(writes[1..]));
    }
  }

  lemma OtherShape(p: Peer, o: Peer, a: Action)
    ensures a.Deliver? && CanDeliver(p, o) ==>
      var r := Land(o, p.sq[0], p.sendMem);
      r.wrote == o.wrote && r.puts == o.puts && Posts(r) == Posts(o) && r.closed == o.closed
    ensures a.Read? && CanRead(p, a.k) && Posts(p) ==>
      var q := ReadSome(p, a.k); q.wrote == p.wrote && q.puts == p.puts && Posts(q) && q.closed == p.closed
    ensures a.Credit? && Posts(p) ==>
      var q := CreditReturn(p); q.wrote == p.wrote && q.puts == p.puts && Posts(q) && q.closed == p.closed
    ensures a.Post? && CanSend(p) && Posts(p) ==>
      var q := PostStaged(p, a.bs); q.wrote == p.wrote + a.bs && q.puts == p.puts && Posts(q) && q.closed == p.closed
    ensures a.BeginWrite? && a.good == |a.puts| ==>
      var q := PostPuts(p, a.puts, a.good); q.wrote == p.wrote && q.puts == p.puts + a.puts && Posts(q) == Posts(p) && q.closed == p.closed
  {
    hide Store, Cell, Wrs, PostStaged, ReadSome, Land, CreditReturn;
    if a.BeginWrite? && a.good == |a.puts| {
      assert a.puts[..a.good] == a.puts;
    } else if a.Post? && CanSend(p) {
      PostShape(p, a.bs);
    } else if a.Read? && CanRead(p, a.k) {
      ReadShape(p, a.k, ReadSome(p, a.k));
      ReadOpen(p, a.k);
    } else if a.Credit? {
      CreditShape(p);
    } else if a.Deliver? && CanDeliver(p, o) {
      LandShape(o, p.sq[0], p.sendMem);
    }
  }

  lemma PostShape(p: Peer, bs: seq<byte>)
    requires CanSend(p)
    ensures Posts(p) ==>
      var q := PostStaged(p, bs); q.wrote == p.wrote + bs && q.puts == p.puts && Posts(q) && q.closed == p.closed
  {
    hide Store;
  }

  lemma CreditShape(p: Peer)
    ensures Posts(p) ==>
      var q := CreditReturn(p); q.wrote == p.wrote && q.puts == p.puts && Posts(q) && q.closed == p.closed
  {
    hide Store;
  }

  lemma ReadOpen(p: Peer, k: nat)
    requires CanRead(p, k)
    ensures Posts(p) ==> ReadSome(p, k).closed == p.closed
  {
  }

  lemma LandShape(o: Peer, w: WorkRequest, mem: seq<Frame>)
    requires NeedsRecv(w) ==> o.posted != []
    ensures var r := Land(o, w, mem); r.wrote == o.wrote && r.puts == o.puts && Posts(r) == Posts(o) && r.closed == o.closed
  {
    hide Land;
    LandFrame(o, w, mem);
  }

  lemma PollShape(p: Peer, o: Peer, c: Completion)
    requires Inv(p, o) && Posts(p) && p.cq != [] && c == p.cq[0]
    ensures Poll(p).closed == p.closed && Posts(Poll(p)) && Poll(p).wrote == p.wrote && Poll(p).puts == p.puts
  {
    hide SendOk, RecvOk, WriteOk, Safe, Lossless, InOrder, Poll;
    RecvFacts(p);
    PollFrame(p);
  }

  // ---- runs of a workload ---------------------------------------------------------------------

  predicate Carries(w: World, moves: seq<Move>)
    decreases |moves|
  {
    moves == [] || (CanWork(w, moves[0]) && Carries(Work(w, moves[0]), moves[1..]))
  }

  function After(w: World, moves: seq<Move>): World
    requires Carries(w, moves)
    decreases |moves|
  {
    if moves == [] then w else After(Work(w, moves[0]), moves[1..])
  }

  /** Nothing can be done any more, not even by an end that returns credits only from the
      threshold on. */
  ghost predicate Stuck(w: World) {
    forall m: Move :: CanWork(w, m) ==> !Lazy(if m.byA then w.s.a else w.s.b, m.act)
  }

  /** A gather the send queue and the peer's window can ever admit. */
  predicate Postable(params: Params, puts: seq<Put>) {
    puts != [] && ImmLast(puts) && |puts| <= params.sendPool && (HasImm(puts) ==> params.peerSplit >= 1)
  }

  predicate AllPostable(params: Params, writes: seq<seq<Put>>) { forall g <- writes :: Postable(params, g) }

  /** A move of `p`, or a self-driven one of `q`. */
  predicate Progress(p: Peer, q: Peer, todo: seq<byte>, writes: seq<seq<Put>>, byP: bool, a: Action) {
    if byP then Works(p, q, todo, writes, a) && Lazy(p, a) else Enabled(q, p, a) && SelfDriven(q, a)
  }

  /** A writer with something left to write can stage it, send it, or is waiting for
      something that can happen. */
  lemma WriterMoves(p: Peer, q: Peer, todo: seq<byte>, writes: seq<seq<Put>>) returns (byP: bool, a: Action)
    requires Inv(p, q) && Open(p, q) && todo != []
    ensures Progress(p, q, todo, writes, byP, a)
  {
    hide SendOk, RecvOk, WriteOk, Safe, Lossless;
    StageBound(p);
    if |p.txStage| + 1 < p.params.cap {
      byP, a := true, Stage(todo[..1]);
    } else if CanSend(p) {
      byP, a := true, Post(todo[..1]);
    } else {
      byP, a := Unblock(p, q);
    }
  }

  /** A gather waits only for earlier work requests, and those move on. */
  lemma GatherMoves(p: Peer, q: Peer, todo: seq<byte>, writes: seq<seq<Put>>) returns (byP: bool, a: Action)
    requires Inv(p, q) && Open(p, q) && writes != [] && Postable(p.params, writes[0])
    ensures Progress(p, q, todo, writes, byP, a)
  {
    hide Inv, ImmLast, HasImm;
    if p.sq != [] || p.unacked != [] || p.cq != [] {
      byP, a := QueueMoves(p, q);
    } else {
      IdleAdmits(p, q, writes[0]);
      byP, a := true, BeginWrite(writes[0], |writes[0]|);
    }
  }

  lemma IdleAdmits(p: Peer, q: Peer, puts: seq<Put>)
    requires Inv(p, q) && !p.closed && p.sq == [] && p.unacked == [] && p.cq == [] && Postable(p.params, puts)
    ensures CanBegin(p, puts)
  {
    hide SendOk, RecvOk, Safe, Lossless;
    IdleSender(p);
  }

  lemma NotStuck(p: Peer, q: Peer, todo: seq<byte>, writes: seq<seq<Put>>) returns (byP: bool, a: Action)
    requires Inv(p, q) && Open(p, q)
    requires || todo != [] || p.wrote != q.got || (writes != [] && Postable(p.params, writes[0]))
             || p.sq != [] || p.unacked != [] || p.cq != [] || p.done != []
    ensures Progress(p, q, todo, writes, byP, a)
  {
    hide Inv;
    if todo != [] {
      byP, a := WriterMoves(p, q, todo, writes);
    } else if writes != [] && Postable(p.params, writes[0]) {
      byP, a := GatherMoves(p, q, todo, writes);
    } else if p.done != [] {
      byP, a := true, TakeId;
    } else if p.wrote != q.got {
      byP, a := Unread(p, q);
    } else {
      byP, a := QueueMoves(p, q);
    }
  }

  /** Everything asked of `p` is done at `q`. */
  predicate Finished(p: Peer, q: Peer, todo: seq<byte>, writes: seq<seq<Put>>) {
    && todo == [] && q.got == p.wrote
    && p.sq == [] && p.cq == [] && p.done == [] && (writes != [] ==> !Postable(p.params, writes[0]))
  }

  lemma StuckMeansDone(w: World)
    requires WorldOk(w)
    ensures Stuck(w) ==> Finished(w.s.a, w.s.b, w.todoA, w.writesA) && Finished(w.s.b, w.s.a, w.todoB, w.writesB)
  {
    hide Inv, Enabled, Postable;
    if !Finished(w.s.a, w.s.b, w.todoA, w.writesA) {
      var byP, a := NotStuck(w.s.a, w.s.b, w.todoA, w.writesA);
      SelfWorks(w.s.b, w.s.a, w.todoB, w.writesB, a);
      assert CanWork(w, Move(byP, a));
    }
    if !Finished(w.s.b, w.s.a, w.todoB, w.writesB) {
      InvSym(w.s.a, w.s.b);
      var byP, a := NotStuck(w.s.b, w.s.a, w.todoB, w.writesB);
      SelfWorks(w.s.a, w.s.b, w.todoA, w.writesA, a);
      assert CanWork(w, Move(!byP, a));
    }
  }

  lemma SelfWorks(p: Peer, o: Peer, todo: seq<byte>, writes: seq<seq<Put>>, a: Action)
    ensures Enabled(p, o, a) && SelfDriven(p, a) ==> Works(p, o, todo, writes, a) && Lazy(p, a)
  {
    hide Enabled;
  }

  lemma {:induction false} WorkRun(w: World, moves: seq<Move>)
    requires WorldOk(w) && Carries(w, moves)
    ensures WorldOk(After(w, moves)) && |moves| + WorldWeight(After(w, moves)) <= WorldWeight(w)
    ensures var v := After(w, moves);
      && Asked(v.s.a, v.todoA, v.writesA) == Asked(w.s.a, w.todoA, w.writesA)
      && Asked(v.s.b, v.todoB, v.writesB) == Asked(w.s.b, w.todoB, w.writesB)
      && v.s.a.params == w.s.a.params && v.s.b.params == w.s.b.params
    decreases |moves|
  {
    hide WorldOk, WorldWeight, CanWork, Work, Asked;
    if moves != [] {
      WorkKeeps(w, moves[0]);
      WorkRun(Work(w, moves[0]), moves[1..]);
    }
  }

  /** Gathers are taken from the front. */
  lemma {:induction false} LeftIsSuffix(w: World, moves: seq<Move>, params: Params)
    requires Carries(w, moves)
    ensures AllPostable(params, w.writesA) ==> AllPostable(params, After(w, moves).writesA)
    ensures AllPostable(params, w.writesB) ==> AllPostable(params, After(w, moves).writesB)
    decreases |moves|
  {
    hide CanWork, Postable;
    if moves != [] {
      var v := Work(w, moves[0]);
      assert AllPostable(params, w.writesA) ==> AllPostable(params, v.writesA);
      assert AllPostable(params, w.writesB) ==> AllPostable(params, v.writesB);
      LeftIsSuffix(v, moves[1..], params);
    }
  }

  /** A finished direction: what was written has been read, what was posted has landed,
      and every ID that landed has been handed out. */
  lemma FinishedLanded(p: Peer, q: Peer, todo: seq<byte>, writes: seq<seq<Put>>)
    requires Inv(p, q) && Linked(p, q) && Finished(p, q, todo, writes) && q.cq == [] && q.done == []
    ensures q.landed == p.puts && q.outIds == Flat(ImmOf, q.landed)
  {
    hide SendOk, RecvOk, WriteOk, HeldBytes, Grants, DataCount, FramesIn, FramesOut;
    assert Flat(PutOf, p.sq) == [] && Flat(ImmArrived, q.cq) == [];
    assert q.landed + [] == q.landed && q.outIds + [] + [] == q.outIds;
  }

  /** Delivery: from a fresh connection with bytes to write and gathers to post at both
      ends, every way of carrying out the work, whenever credits are returned, stops after
      at most thirteen moves a byte and six a one-sided write. Where it can go no further,
      even with credits returned only from the threshold on, each reader has exactly what
      the other end was given to write; and if the gathers are ones that can be posted at
      all, all of them have landed, in order, and their IDs have been handed out. */
  lemma Delivery(pa: Params, pb: Params, workA: seq<byte>, workB: seq<byte>,
                 writesA: seq<seq<Put>>, writesB: seq<seq<Put>>, moves: seq<Move>)
    requires Compatible(pa, pb)
    ensures var w := World(Start(pa, pb), workA, workB, writesA, writesB);
      Carries(w, moves) ==>
        var e := After(w, moves);
        && |moves| <= 13 * (|workA| + |workB|) + 6 * (|AllOf(writesA)| + |AllOf(writesB)|)
        && (Stuck(e) ==>
              && e.s.b.got == workA && e.s.a.got == workB
              && (AllPostable(pa, writesA) ==> e.s.b.landed == AllOf(writesA) && e.s.b.outIds == Flat(ImmOf, AllOf(writesA)))
              && (AllPostable(pb, writesB) ==> e.s.a.landed == AllOf(writesB) && e.s.a.outIds == Flat(ImmOf, AllOf(writesB))))
  {
    hide Inv, Weight, CanWork, Work, Fresh, Postable, AllOf, Flat, Stuck;
    var w := World(Start(pa, pb), workA, workB, writesA, writesB);
    RunInv(pa, pb, []);
    FreshWeight(pa, pb);
    if Carries(w, moves) {
      WorkRun(w, moves);
      var e := After(w, moves);
      assert [] + workA == workA && [] + workB == workB;
      assert [] + AllOf(writesA) == AllOf(writesA) && [] + AllOf(writesB) == AllOf(writesB);
      if Stuck(e) {
        LeftIsSuffix(w, moves, pa);
        LeftIsSuffix(w, moves, pb);
        StuckOutcome(pa, pb, e);
      }
    }
  }

  lemma StuckOutcome(pa: Params, pb: Params, e: World)
    requires WorldOk(e) && Stuck(e) && e.s.a.params == pa && e.s.b.params == pb
    ensures e.s.b.got == Asked(e.s.a, e.todoA, e.writesA).0 && e.s.a.got == Asked(e.s.b, e.todoB, e.writesB).0
    ensures AllPostable(pa, e.writesA) ==>
      e.s.b.landed == Asked(e.s.a, e.todoA, e.writesA).1 && e.s.b.outIds == Flat(ImmOf, e.s.b.landed)
    ensures AllPostable(pb, e.writesB) ==>
      e.s.a.landed == Asked(e.s.b, e.todoB, e.writesB).1 && e.s.a.outIds == Flat(ImmOf, e.s.a.landed)
  {
    hide Inv, Stuck, Postable, Flat;
    StuckMeansDone(e);
    InvSym(e.s.a, e.s.b);
    FinishedLanded(e.s.a, e.s.b, e.todoA, e.writesA);
    FinishedLanded(e.s.b, e.s.a, e.todoB, e.writesB);
    assert e.s.a.wrote + [] == e.s.a.wrote && e.s.b.wrote + [] == e.s.b.wrote;
    assert e.s.a.puts + [] == e.s.a.puts && e.s.b.puts + [] == e.s.b.puts;
    assert AllPostable(pa, e.writesA) ==> e.writesA == [];
    assert AllPostable(pb, e.writesB) ==> e.writesB == [];
  }

  lemma FreshWeight(pa: Params, pb: Params)
    ensures var s := Start(pa, pb);
      && Weight(s.a, s.b) == 0 && Open(s.a, s.b) && s.a.wrote == [] && s.b.wrote == []
      && s.a.puts == [] && s.b.puts == [] && s.a.params == pa && s.b.params == pb
  {
    hide UpTo, DownFrom, BlankMem;
  }
}
