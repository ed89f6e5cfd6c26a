/** Immediates without negotiated split mode: `check_write_capacity` admits them up to the
    window the peer advertised, but the peer has posted no headroom for them. */
module StreamHeadroom {
  import opened Basics
  import opened EnvelopeCodec
  import opened StreamState
  import opened StreamSystem
  import opened StreamSteps
  import opened StreamRuns
  import opened StreamTheorems
  import opened StreamProgress

  /** `n` data messages of `a` are held at `b`, and nothing else is anywhere. */
  predicate Loaded(s: Sys, n: nat) {
    && Inv(s.a, s.b) && Open(s.a, s.b) && s.a.txStage == []
    && s.a.sq == [] && s.a.unacked == [] && s.a.cq == [] && s.b.sq == [] && s.b.unacked == [] && s.b.cq == []
    && s.a.grantPending == 0 && s.b.grantPending == 0 && |s.b.rxReady| == n
  }

  /** One more message goes all the way. */
  function Round(): seq<Move> {
    [Move(true, Post([0])), Move(true, Deliver), Move(false, PollOne), Move(true, Ack), Move(true, PollOne)]
  }

  function Rounds(n: nat): seq<Move> { if n == 0 then [] else Rounds(n - 1) + Round() }

  lemma LoadedCredits(s: Sys, n: nat)
    requires Loaded(s, n)
    ensures s.a.sendCredits + n == s.b.params.pool && |s.a.sendFree| >= 1 && s.b.posted != []
    ensures Drained(s.a, s.b) && Transit(s.b, s.a) == [] && s.a.writesOut == 0 && s.a.immOut == 0
    ensures |s.a.sendFree| == s.a.params.sendPool
  {
    hide RecvOk, Safe, HeldBytes, InOrder;
    OpenUnrefused(s.a, s.b);
    IdleSender(s.a);
    assert Transit(s.a, s.b) == [] && Transit(s.b, s.a) == [];
    LoadedPosted(s.a, s.b);
  }

  lemma LoadedPosted(p: Peer, q: Peer)
    requires Inv(p, q) && Linked(p, q) && !q.refused && q.cq == []
    ensures q.posted != []
  {
    hide Inv, FramesOut, DataCount, Spare;
    PostedExactly(p, q);
  }

  lemma PostRound(p: Peer, q: Peer)
    requires Inv(p, q) && CanSend(p) && Posts(p) && p.txStage == [] && p.sq == [] && p.unacked == [] && p.cq == []
    ensures var r := PostStaged(p, [0]);
      && r.sq == [DataSend(p.sendFree[|p.sendFree| - 1])] && r.unacked == [] && r.cq == [] && r.txStage == []
      && r.grantPending == p.grantPending - Grant(p) && !r.closed && Posts(r)
      && Cell(r.sendMem, r.sq[0].slot) == Frame(Envelope(1, Grant(p), 0), [0])
  {
    hide RecvOk, WriteOk, Safe, Lossless, InOrder, Flat, FramesOut, CtrlOk;
    FreeSlotIdle(p, p.sendFree[|p.sendFree| - 1]);
  }

  /** What every point of a round has in common. */
  predicate Mid(s: Sys, n: nat) {
    && Inv(s.a, s.b) && Open(s.a, s.b) && s.a.txStage == [] && s.b.sq == [] && s.b.unacked == []
    && s.a.grantPending == 0 && s.b.grantPending == 0 && |s.b.rxReady| == n
  }

  predicate DataIn(mem: seq<Frame>, slot: nat) { Cell(mem, slot) == Frame(Envelope(1, 0, 0), [0]) }

  lemma InvStep(s: Sys, m: Move)
    requires Inv(s.a, s.b)
    ensures Inv(Step(s, m).a, Step(s, m).b)
  {
    hide Inv, Do, Enabled;
    if CanMove(s, m) {
      if m.byA {
        StepKeeps(s.a, s.b, m.act);
      } else {
        InvSym(s.a, s.b);
        StepKeeps(s.b, s.a, m.act);
        InvSym(Do(s.b, s.a, m.act).0, Do(s.b, s.a, m.act).1);
      }
    }
  }

  lemma RoundPost(s: Sys, n: nat)
    requires Loaded(s, n) && CanSend(s.a) && s.a.params.cap >= 1
    ensures var t := Step(s, Move(true, Post([0])));
      && Mid(t, n) && t.a.cq == [] && t.b.cq == [] && t.a.unacked == [] && t.b.params == s.b.params
      && |t.a.sq| == 1 && t.a.sq[0].DataSend? && DataIn(t.a.sendMem, t.a.sq[0].slot)
  {
    hide Inv, PostStaged, Cell;
    InvStep(s, Move(true, Post([0])));
    PostRound(s.a, s.b);
  }

  lemma RoundDeliver(s: Sys, n: nat)
    requires Mid(s, n) && s.a.cq == [] && s.b.cq == [] && s.a.unacked == [] && s.b.posted != []
    requires |s.a.sq| == 1 && s.a.sq[0].DataSend? && DataIn(s.a.sendMem, s.a.sq[0].slot)
    ensures var t := Step(s, Move(true, Deliver));
      && Mid(t, n) && t.a.cq == [] && t.a.sq == [] && t.b.params == s.b.params
      && |t.a.unacked| == 1 && t.a.unacked[0].DataSend?
      && |t.b.cq| == 1 && IsMessage(t.b.cq[0]) && DataIn(t.b.recvMem, t.b.cq[0].id.slot)
  {
    hide Inv, Cell, Land, Store;
    var w := s.a.sq[0];
    InvStep(s, Move(true, Deliver));
    LandIs(s.b, w, s.a.sendMem);
    PostedFits(s.b, s.a);
    StoredCell(s.b.recvMem, s.b.posted[0], Cell(s.a.sendMem, w.slot));
    assert s.a.sq == [w] && [w][1..] == [] && [] + [w] == [w];
  }

  lemma StoredCell(mem: seq<Frame>, slot: nat, f: Frame)
    ensures slot < |mem| ==> Cell(Store(mem, slot, f), slot) == f
  {
  }

  lemma PostedFits(p: Peer, o: Peer)
    requires Inv(o, p) && p.posted != []
    ensures p.posted[0] < |p.recvMem|
  {
    hide SendOk, WriteOk, Safe, Lossless, InOrder, Flat, FramesIn, CqOk, RxOk, RecvOwners;
    PostedSlotIdle(p, p.posted[0]);
  }

  lemma RoundPoll(s: Sys, n: nat)
    requires Mid(s, n) && s.a.cq == [] && s.a.sq == [] && |s.a.unacked| == 1 && s.a.unacked[0].DataSend?
    requires |s.b.cq| == 1 && IsMessage(s.b.cq[0]) && DataIn(s.b.recvMem, s.b.cq[0].id.slot)
    ensures var t := Step(s, Move(false, PollOne));
      Mid(t, n + 1) && t.a == s.a && t.b.cq == [] && t.b.params == s.b.params
  {
    hide Inv, Poll, Cell, MessageTaken;
    var c := s.b.cq[0];
    InvStep(s, Move(false, PollOne));
    InvSym(s.a, s.b);
    PolledShape(s.b, s.a, c);
    TakenFields(s.b, c.id.slot, Cell(s.b.recvMem, c.id.slot));
    PollKeepsGrant(s.b);
  }

  lemma PolledShape(p: Peer, o: Peer, c: Completion)
    requires Inv(p, o) && p.cq != [] && c == p.cq[0] && IsMessage(c)
    ensures Poll(p) == MessageTaken(p, c.id.slot, Cell(p.recvMem, c.id.slot))
  {
    hide SendOk, RecvOk, WriteOk, Lossless, InOrder, Safe, MessageTaken, Poll;
    RecvFacts(p);
    MessageShape(p, o, c, Cell(p.recvMem, c.id.slot), Poll(p));
  }

  lemma PollKeepsGrant(p: Peer)
    requires p.cq != []
    ensures Poll(p).params == p.params
  {
  }

  lemma RoundAck(s: Sys, n: nat)
    requires Mid(s, n) && s.a.cq == [] && s.a.sq == [] && s.b.cq == [] && |s.a.unacked| == 1 && s.a.unacked[0].DataSend?
    ensures var t := Step(s, Move(true, Ack));
      && Mid(t, n) && t.a.sq == [] && t.a.unacked == [] && t.b == s.b
      && |t.a.cq| == 1 && t.a.cq[0] == Done(s.a.unacked[0], true)
  {
    hide Inv;
    InvStep(s, Move(true, Ack));
    assert s.a.unacked[1..] == [];
  }

  lemma RoundReap(s: Sys, n: nat, w: WorkRequest)
    requires Mid(s, n) && s.a.sq == [] && s.a.unacked == [] && s.b.cq == [] && w.DataSend?
    requires |s.a.cq| == 1 && s.a.cq[0] == Done(w, true)
    ensures var t := Step(s, Move(true, PollOne)); Loaded(t, n) && t.b == s.b
  {
    hide Inv, Receive;
    InvStep(s, Move(true, PollOne));
    assert s.a.cq[1..] == [];
  }

  /** The message is posted, delivered, polled, acknowledged and reaped: it is held. */
  lemma RoundLoads(s: Sys, n: nat)
    requires Loaded(s, n) && n < s.b.params.pool
    ensures Loaded(Exec(s, Round()), n + 1) && Exec(s, Round()).b.params == s.b.params
  {
    hide Inv, Exec, Step, Loaded, Mid;
    var m := Round();
    RoundReady(s, n);
    var s1 := Step(s, m[0]);
    RoundPost(s, n);
    MidPosted(s1, n);
    var s2 := Step(s1, m[1]);
    RoundDeliver(s1, n);
    var s3 := Step(s2, m[2]);
    RoundPoll(s2, n);
    var s4 := Step(s3, m[3]);
    RoundAck(s3, n + 1);
    var s5 := Step(s4, m[4]);
    RoundReap(s4, n + 1, s3.a.unacked[0]);
    ExecSnoc(s, [], m[0]);
    ExecSnoc(s, m[..1], m[1]);
    ExecSnoc(s, m[..2], m[2]);
    ExecSnoc(s, m[..3], m[3]);
    ExecSnoc(s, m[..4], m[4]);
    assert [] + [m[0]] == m[..1] && m[..1] + [m[1]] == m[..2] && m[..2] + [m[2]] == m[..3] && m[..3] + [m[3]] == m[..4] && m[..4] + [m[4]] == m;
  }

  lemma RoundReady(s: Sys, n: nat)
    requires Loaded(s, n) && n < s.b.params.pool
    ensures CanSend(s.a) && s.a.params.cap >= 1
  {
    hide Inv;
    LoadedCredits(s, n);
    InvValid(s.a, s.b);
  }

  lemma InvValid(p: Peer, q: Peer)
    requires Inv(p, q)
    ensures p.params.Valid() && q.params.Valid()
  {
    hide SendOk, RecvOk, WriteOk, Safe, Lossless, InOrder;
  }

  lemma MidPosted(s: Sys, n: nat)
    requires Mid(s, n) && s.b.cq == []
    ensures s.b.posted != []
  {
    hide Inv;
    OpenUnrefused(s.a, s.b);
    LoadedPosted(s.a, s.b);
  }

  lemma {:induction false} Load(pa: Params, pb: Params, n: nat)
    requires Compatible(pa, pb) && n <= pb.pool
    ensures var s := Exec(Start(pa, pb), Rounds(n)); Loaded(s, n) && s.b.params == pb && s.a.params == pa
  {
    hide Exec, Loaded, Start, Round, Inv;
    if n == 0 {
      RunInv(pa, pb, []);
      assert Exec(Start(pa, pb), []) == Start(pa, pb) by { ExecSnoc(Start(pa, pb), [], Move(true, Ack)); }
      FreshLoaded(pa, pb);
    } else {
      Load(pa, pb, n - 1);
      var s := Exec(Start(pa, pb), Rounds(n - 1));
      RoundLoads(s, n - 1);
      ExecAppend(Start(pa, pb), Rounds(n - 1), Round());
      RunInv(pa, pb, Rounds(n));
    }
  }

  lemma FreshLoaded(pa: Params, pb: Params)
    requires Inv(Start(pa, pb).a, Start(pa, pb).b)
    ensures Loaded(Start(pa, pb), 0) && Exec(Start(pa, pb), []) == Start(pa, pb)
  {
    hide Inv, UpTo, DownFrom, BlankMem;
  }

  /** With the whole pool held and no credit anywhere, one immediate is already one more
      than there are receives for. */
  lemma Overcommitted(s: Sys)
    requires Loaded(s, s.b.params.pool) && s.b.params.split == 0 && s.a.params.peerSplit > 0 && s.a.params.Valid()
    ensures var t := Step(s, Move(true, BeginWrite([Put(0, [], Some(1))], 1)));
      Drained(t.a, t.b) && !Ready(t.a, t.b)
  {
    hide Inv, FramesOut;
    LoadedCredits(s, s.b.params.pool);
    var puts := [Put(0, [], Some(1))];
    var t := Step(s, Move(true, BeginWrite(puts, 1)));
    InvStep(s, Move(true, BeginWrite(puts, 1)));
    assert puts[..1] == puts;
    assert t.a.sq == Wrs(puts, 0) && t.b == s.b;
    BegunSlots(s.a, puts, t.a);
    assert Flat(ImmOf, puts) == [1] && Flat(WrImm, s.a.sq) == [];
    assert FramesOut(s.a.sendMem, s.a.sq) == [] by { NoFrames(s.a.sendMem); }
    assert Transit(t.b, t.a) == Transit(s.b, s.a);
    PostedExactly(t.a, t.b);
  }

  lemma NoFrames(mem: seq<Frame>)
    ensures FramesOut(mem, []) == []
  {
  }

  /** Exactly when there is always a receive for everything on its way, immediates
      included: when split mode was negotiated or the peer advertised no window. */
  lemma ReadyExactly(pa: Params, pb: Params)
    requires Compatible(pa, pb)
    ensures (forall moves: seq<Move> :: var s := Exec(Start(pa, pb), moves); Drained(s.a, s.b) ==> Ready(s.a, s.b))
            <==> (pa.splitOn || pa.peerSplit == 0)
  {
    hide Exec, Start, Ready, Drained, Loaded, Step, Rounds;
    if pa.splitOn || pa.peerSplit == 0 {
      forall moves: seq<Move>
        ensures var s := Exec(Start(pa, pb), moves); Drained(s.a, s.b) ==> Ready(s.a, s.b)
      {
        ReceiverReady(pa, pb, moves);
      }
    } else {
      Load(pa, pb, pb.pool);
      var s := Exec(Start(pa, pb), Rounds(pb.pool));
      Overcommitted(s);
      var m := Move(true, BeginWrite([Put(0, [], Some(1))], 1));
      ExecSnoc(Start(pa, pb), Rounds(pb.pool), m);
      var bad := Exec(Start(pa, pb), Rounds(pb.pool) + [m]);
      assert Drained(bad.a, bad.b) && !Ready(bad.a, bad.b);
    }
  }
}
