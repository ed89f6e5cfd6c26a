/** Deadlock freedom and delivery. */
module StreamProgress {
  import opened Basics
  import opened StreamState
  import opened StreamSystem
  import opened StreamSteps
  import opened StreamRuns
  import opened StreamTheorems

  predicate Open(p: Peer, q: Peer) { Posts(p) && Posts(q) && !p.closed && !q.closed }

  /** The moves the two blocking facades and the NICs make on their own. A blocked
      reader returns credits only from the proactive threshold on. */
  predicate SelfDriven(p: Peer, a: Action) {
    match a
    case Deliver | Ack | PollOne | Read(_) => true
    case Post(bs) => bs == []
    case Credit => p.grantPending >= p.params.Threshold()
    case _ => false
  }

  predicate Advances(p: Peer, q: Peer, byP: bool, a: Action) {
    if byP then Enabled(p, q, a) && SelfDriven(p, a) else Enabled(q, p, a) && SelfDriven(q, a)
  }

  // ---- somebody can always move ----------------------------------------------------

  /** Anything posted, delivered or completed moves on. */
  lemma QueueMoves(p: Peer, q: Peer) returns (byP: bool, a: Action)
    requires Inv(p, q) && Open(p, q)
    requires p.sq != [] || p.unacked != [] || p.cq != []
    ensures Advances(p, q, byP, a)
  {
    hide Inv, Flat, FramesOut, DataCount, Spare;
    if p.cq != [] {
      byP, a := true, PollOne;
    } else if p.unacked != [] {
      byP, a := true, Ack;
    } else if q.cq != [] {
      byP, a := false, PollOne;
    } else {
      assert Flat(RecvSlot, q.cq) == [] by { FlatNone<Completion, nat>(RecvSlot); }
      OpenUnrefused(p, q);
      PostedExactly(p, q);
      byP, a := true, Deliver;
    }
  }

  lemma OpenUnrefused(p: Peer, q: Peer)
    requires Inv(p, q) && Open(p, q)
    ensures !p.refused && !q.refused
  {
    hide SendOk, RecvOk, WriteOk, Safe, Lossless, InOrder;
  }

  lemma HeldMoves(p: Peer, q: Peer) returns (a: Action)
    requires Inv(p, q) && Open(p, q) && q.rxReady != []
    ensures Advances(p, q, false, a)
  {
    hide SendOk, WriteOk, Safe, Lossless, Flat, FramesIn, All;
    var r := q.rxReady[0];
    a := Read(r.end - r.start);
  }

  /** A sender with neither slot nor credit is not stuck: its slots are with the NIC, or
      its credits are somewhere between a held message and a grant. */
  lemma Unblock(p: Peer, q: Peer) returns (byP: bool, a: Action)
    requires Inv(p, q) && Open(p, q) && !CanSend(p)
    ensures Advances(p, q, byP, a)
  {
    hide Inv, Flat, FramesIn, FramesOut, DataCount, Grants;
    if p.sq != [] || p.unacked != [] || p.cq != [] {
      byP, a := QueueMoves(p, q);
    } else if q.sq != [] || q.unacked != [] || q.cq != [] {
      InvSym(p, q);
      byP, a := QueueMoves(q, p);
      byP := !byP;
    } else if q.rxReady != [] {
      byP := false;
      a := HeldMoves(p, q);
    } else {
      AllOwed(p, q);
      byP, a := false, Credit;
    }
  }

  /** With both queues empty and nothing held, the whole pool is owed and the control
      slot is free. */
  lemma AllOwed(p: Peer, q: Peer)
    requires Inv(p, q) && Open(p, q) && !CanSend(p)
    requires p.sq == [] && p.unacked == [] && p.cq == [] && q.sq == [] && q.unacked == [] && q.cq == []
    requires q.rxReady == []
    ensures q.grantPending == q.params.pool >= q.params.Threshold() && !q.ctrlBusy
  {
    hide RecvOk, WriteOk, Safe, HeldBytes;
    assert Transit(p, q) == [] && Transit(q, p) == [];
    IdleSender(p);
    IdleSender(q);
  }

  lemma IdleSender(p: Peer)
    requires SendOk(p) && p.params.Valid() && p.sq == [] && p.unacked == [] && p.cq == []
    ensures |p.sendFree| == p.params.sendPool >= 1 && !p.ctrlBusy
  {
    hide All, FramesOut;
    assert |SendOwners(p)| == |All(p.params.sendPool)| == p.params.sendPool by { AllCount(p.params.sendPool); }
  }

  /** An unread accepted byte means somebody can move. */
  lemma Unread(p: Peer, q: Peer) returns (byP: bool, a: Action)
    requires Inv(p, q) && Open(p, q) && p.wrote != q.got
    ensures Advances(p, q, byP, a)
  {
    hide SendOk, RecvOk, WriteOk, Safe, Flat, FramesIn, FramesOut, HeldBytes, DataCount, Grants;
    if q.rxReady != [] {
      byP := false;
      a := HeldMoves(p, q);
    } else if q.cq != [] {
      byP, a := false, PollOne;
    } else if p.sq != [] {
      byP, a := QueueMoves(p, q);
    } else if CanSend(p) {
      StageBound(p);
      Settled(p, q);
      byP, a := true, Post([]);
    } else {
      byP, a := Unblock(p, q);
    }
  }

  /** With nothing held and nothing in transit, what is unread is staged. */
  lemma Settled(p: Peer, q: Peer)
    requires InOrder(p, q) && q.rxReady == [] && q.cq == [] && p.sq == []
    ensures p.wrote == q.got + p.txStage
  {
    hide Grants, DataCount;
    assert Transit(p, q) == [];
    assert Held(q) == [];
    assert q.got + [] + [] + p.txStage == q.got + p.txStage;
  }

  /** Deadlock freedom, over every run: while both ends are open and one has accepted a
      byte the other has not read, some self-driven move is possible, even with both
      ends out of credits, and even though credits are returned only from the
      threshold on. */
  lemma DeadlockFree(pa: Params, pb: Params, moves: seq<Move>) returns (m: Move)
    requires Compatible(pa, pb)
    ensures var s := Exec(Start(pa, pb), moves);
      Open(s.a, s.b) && (s.a.wrote != s.b.got || s.b.wrote != s.a.got) ==>
        CanMove(s, m) && SelfDriven(if m.byA then s.a else s.b, m.act)
  {
    hide Exec, Inv;
    var s := Exec(Start(pa, pb), moves);
    RunInv(pa, pb, moves);
    m := Move(true, PollOne);
    if Open(s.a, s.b) && s.a.wrote != s.b.got {
      var byP, a := Unread(s.a, s.b);
      m := Move(byP, a);
    } else if Open(s.a, s.b) && s.b.wrote != s.a.got {
      InvSym(s.a, s.b);
      var byP, a := Unread(s.b, s.a);
      m := Move(!byP, a);
    }
  }

  lemma InvSym(p: Peer, q: Peer)
    requires Inv(p, q)
    ensures Inv(q, p)
  {
    hide Local, Safe, Lossless;
  }
}
