/** One-sided writes over whole runs: an acknowledged write has landed, and transfer IDs
    come out in order, once each, after the bytes they announce. */
module SplitPlane {
  import opened Basics
  import opened StreamState
  import opened StreamSystem
  import opened StreamSteps
  import opened StreamRuns
  import opened StreamProgress
  import opened GatherPlan
  import opened GatherWrites

  predicate IsWrite(c: Completion) { c.id.WriteId? || c.id.ImmWriteId? }

  /** No completion has told this end, or is about to tell it, that a write failed. */
  predicate Unfailed(p: Peer) { !p.closed && forall c <- p.cq :: IsWrite(c) ==> c.ok }

  /** Every posted write has landed, in order, or is still in the send queue. */
  predicate Kept(p: Peer, o: Peer) { Unfailed(p) ==> p.puts == o.landed + Flat(PutOf, p.sq) }

  lemma LinkedKept(p: Peer, o: Peer)
    requires Inv(p, o) && Linked(p, o)
    ensures Kept(p, o) && Kept(o, p)
  {
    hide Local, Safe, Flat;
  }

  /** An end that only gains other work requests, or closes, keeps its writes. */
  lemma KeptQuiet(p: Peer, o: Peer, q: Peer)
    requires Kept(p, o) && q.puts == p.puts && (Unfailed(q) ==> Unfailed(p))
    requires Flat(PutOf, q.sq) == Flat(PutOf, p.sq)
    ensures Kept(q, o)
  {
    hide Flat, Unfailed;
  }

  lemma KeptOther(o: Peer, p: Peer, q: Peer)
    requires Kept(o, p) && q.landed == p.landed
    ensures Kept(o, q)
  {
    hide Flat, Unfailed;
  }

  lemma PostKept(p: Peer, o: Peer, a: Action)
    requires Kept(p, o) && Enabled(p, o, a) && (a.Post? || a.Credit?)
    ensures Kept(Do(p, o, a).0, o) && Do(p, o, a).0.landed == p.landed && Do(p, o, a).1 == o
  {
    hide Flat, Store;
    var q := Do(p, o, a).0;
    if Posts(p) {
      FlatSnoc(PutOf, p.sq, q.sq[|q.sq| - 1]);
    }
    KeptQuiet(p, o, q);
  }

  lemma PollKept(p: Peer, o: Peer)
    requires Kept(p, o) && p.cq != []
    ensures Kept(Poll(p), o) && Poll(p).landed == p.landed
  {
    hide Flat, Poll, Kept;
    PollFrame(p);
    assert p.cq == [p.cq[0]] + p.cq[1..];
    KeptQuiet(p, o, Poll(p));
  }

  lemma BeginKept(p: Peer, o: Peer, puts: seq<Put>, good: nat)
    requires Kept(p, o) && good <= |puts|
    ensures Kept(PostPuts(p, puts, good), o) && PostPuts(p, puts, good).landed == p.landed
  {
    hide Flat, Wrs;
    WrsFlat([], puts[..good], 0);
    FlatAppend(PutOf, p.sq, Wrs(puts[..good], 0));
  }

  lemma FlushKept(p: Peer, o: Peer, a: Action)
    requires Kept(p, o) && Enabled(p, o, a) && (a.Ack? || a.FlushSend? || a.FlushUnacked? || a.FlushRecv?)
    ensures Kept(Do(p, o, a).0, o) && Do(p, o, a).0.landed == p.landed && Do(p, o, a).1 == o
  {
    hide Flat, FramesOut;
    var q := Do(p, o, a).0;
    var c := q.cq[|q.cq| - 1];
    assert c in q.cq && (forall d <- p.cq :: d in q.cq);
    if a.FlushSend? {
      assert p.sq == [p.sq[0]] + q.sq;
      Taken([], p.sq, p.sq[0], q.sq);
    }
  }

  lemma OtherKept(p: Peer, o: Peer, a: Action)
    requires Kept(p, o) && Enabled(p, o, a) && (a.Stage? || a.Read? || a.TakeId? || a.MarkClosed? || a.Kill? || a.Accept?)
    ensures Kept(Do(p, o, a).0, o) && Do(p, o, a).0.landed == p.landed && Do(p, o, a).1 == o
  {
    hide Flat, ReadSome;
    if a.Read? {
      ReadShape(p, a.k, ReadSome(p, a.k));
    }
    KeptQuiet(p, o, Do(p, o, a).0);
  }

  lemma UnlinkedKept(p: Peer, o: Peer, a: Action)
    requires Enabled(p, o, a) && Kept(p, o) && !a.Deliver?
    ensures Kept(Do(p, o, a).0, o) && Do(p, o, a).0.landed == p.landed && Do(p, o, a).1 == o
  {
    hide Kept, Poll, PostStaged, CreditReturn, PostPuts, ReadSome;
    if a.Post? || a.Credit? {
      PostKept(p, o, a);
    } else if a.PollOne? {
      PollKept(p, o);
    } else if a.BeginWrite? {
      BeginKept(p, o, a.puts, a.good);
    } else if a.Ack? || a.FlushSend? || a.FlushUnacked? || a.FlushRecv? {
      FlushKept(p, o, a);
    } else {
      OtherKept(p, o, a);
    }
  }

  lemma StepKept(p: Peer, o: Peer, a: Action)
    requires Inv(p, o) && Enabled(p, o, a) && Kept(p, o) && Kept(o, p)
    ensures Kept(Do(p, o, a).0, Do(p, o, a).1) && Kept(Do(p, o, a).1, Do(p, o, a).0)
  {
    hide Inv, Kept, Land, Poll, PostStaged, CreditReturn, PostPuts, ReadSome;
    var r := Do(p, o, a);
    StepKeeps(p, o, a);
    if a.Deliver? {
      LandAlive(p, o);
      LinkedKept(r.0, r.1);
    } else {
      UnlinkedKept(p, o, a);
      KeptOther(o, p, r.0);
    }
  }

  lemma LandAlive(p: Peer, o: Peer)
    requires CanDeliver(p, o)
    ensures Land(o, p.sq[0], p.sendMem).alive
  {
  }

  lemma {:induction false} RunKept(pa: Params, pb: Params, moves: seq<Move>)
    requires Compatible(pa, pb)
    ensures var s := Exec(Start(pa, pb), moves); Kept(s.a, s.b) && Kept(s.b, s.a)
  {
    hide Inv, Kept, Do, Enabled, Fresh;
    if moves == [] {
      FreshKept(pa, pb);
    } else {
      var m := moves[|moves| - 1];
      var s := Exec(Start(pa, pb), moves[..|moves| - 1]);
      RunInv(pa, pb, moves[..|moves| - 1]);
      RunKept(pa, pb, moves[..|moves| - 1]);
      if CanMove(s, m) {
        if m.byA {
          StepKept(s.a, s.b, m.act);
        } else {
          InvSym(s.a, s.b);
          StepKept(s.b, s.a, m.act);
        }
      }
    }
  }

  lemma FreshKept(pa: Params, pb: Params)
    ensures var s := Start(pa, pb); Kept(s.a, s.b) && Kept(s.b, s.a)
  {
    hide UpTo, DownFrom, BlankMem;
  }

  lemma {:induction false} NoWriteDone(cq: seq<Completion>)
    requires Flat(WriteDone, cq) == []
    ensures forall c <- cq :: !IsWrite(c)
  {
    if cq != [] {
      FlatHead(WriteDone, cq);
      NoWriteDone(cq[1..]);
      assert cq == [cq[0]] + cq[1..];
    }
  }

  /** Acknowledged means landed, in every run: an end that is not closed and has no
      write outstanding has had every write it ever posted applied at the other end, in
      posting order, with nothing in between. And whatever happens, what has been applied
      is a prefix of what was posted. */
  lemma WritesLanded(pa: Params, pb: Params, moves: seq<Move>)
    requires Compatible(pa, pb)
    ensures var s := Exec(Start(pa, pb), moves);
      && s.b.landed <= s.a.puts
      && (!s.a.closed && s.a.writesOut == 0 ==> s.b.landed == s.a.puts)
  {
    hide Exec, SendOk, RecvOk, Lossless, Flat, FramesIn, HeldBytes, Grants;
    var s := Exec(Start(pa, pb), moves);
    RunInv(pa, pb, moves);
    RunKept(pa, pb, moves);
    if !s.a.closed && s.a.writesOut == 0 {
      NoWriteDone(s.a.cq);
      assert s.b.landed + [] == s.b.landed;
    }
  }

  // ---- transfer IDs ------------------------------------------------------------------

  /** The IDs of the writes, in posting order. */
  function Ids(puts: seq<Put>): seq<nat> { Flat(ImmOf, puts) }

  /** If more IDs are out than the first `i` writes carry, the write at `i` has landed. */
  lemma AnnouncedLanded(puts: seq<Put>, landed: seq<Put>, out: nat, i: nat)
    requires landed <= puts && out <= |Ids(landed)| && i < |puts| && |Ids(puts[..i])| < out
    ensures i < |landed| && landed[i] == puts[i]
  {
    hide Flat;
    if i >= |landed| {
      assert puts[..i] == landed + puts[|landed|..i];
      FlatAppend(ImmOf, landed, puts[|landed|..i]);
      assert false;
    }
  }

  /** Split data plane, in every run: the IDs handed out at one end are the first of
      those the other end posted, once each and in posting order; every write posted up
      to the one that carried the last of them has landed; and the sender's count of
      unreaped immediates is exact and never above the window its peer advertised. */
  lemma TransferOrder(pa: Params, pb: Params, moves: seq<Move>)
    requires Compatible(pa, pb)
    ensures var s := Exec(Start(pa, pb), moves);
      && s.b.outIds <= Ids(s.a.puts) && s.b.landed <= s.a.puts
      && (forall i :: 0 <= i < |s.a.puts| && |Ids(s.a.puts[..i])| < |s.b.outIds| ==>
            i < |s.b.landed| && s.b.landed[i] == s.a.puts[i])
      && s.a.immOut == |Flat(WrImm, s.a.sq)| + |Flat(WrImm, s.a.unacked)| + |Flat(ImmDone, s.a.cq)|
      && s.a.immOut <= pa.peerSplit
  {
    hide Exec, SendOk, RecvOk, Lossless, Flat, FramesIn, HeldBytes, Grants;
    var s := Exec(Start(pa, pb), moves);
    RunInv(pa, pb, moves);
    var puts, landed, rest := s.a.puts, s.b.landed, s.b.done + Flat(ImmArrived, s.b.cq);
    assert s.b.outIds + rest == Ids(landed);
    assert puts == landed + puts[|landed|..];
    FlatAppend(ImmOf, landed, puts[|landed|..]);
    assert s.b.outIds <= Ids(landed) <= Ids(puts);
    forall i | 0 <= i < |puts| && |Ids(puts[..i])| < |s.b.outIds| ensures i < |landed| && landed[i] == puts[i] {
      AnnouncedLanded(puts, landed, |s.b.outIds|, i);
    }
  }

  lemma {:induction false} Uncovered(puts: seq<Put>, a: nat, b: byte)
    requires forall u <- puts :: !Covers(u, a)
    ensures GatherWrites.After(puts, a, b) == b
  {
    if puts != [] {
      Uncovered(puts[..|puts| - 1], a, b);
    }
  }

  /** When the ID of a gather comes out, all of its bytes are in the destination, however
      its writes were interleaved with others. They are among those posted from `before`
      up to `last`, and more IDs are out than the writes before `last` carry: then the
      gather's byte is at every address that no other of these writes, and none that
      landed since, touches. */
  lemma TransferBytes(pa: Params, pb: Params, moves: seq<Move>, before: nat, last: nat, maxSge: nat, budget: nat,
                      mem: Memory, segs: seq<Segment>, addr: nat, id: nat, a: nat, b: byte)
    requires Compatible(pa, pb)
    ensures var s := Exec(Start(pa, pb), moves);
      var t, data := BatchedPuts(maxSge, budget, mem, segs, addr, Some(id)), Contents(mem, segs);
      before <= last < |s.a.puts| && Among(t, s.a.puts[before..last + 1], a)
      && |Ids(s.a.puts[..last])| < |s.b.outIds| && addr <= a < addr + |data| ==>
        && last < |s.b.landed|
        && ((forall u <- s.b.landed[last + 1..] :: !Covers(u, a)) ==> GatherWrites.After(s.b.landed, a, b) == data[a - addr])
  {
    hide Exec, BatchedPuts, Contents, Flat, ImmAtEnd, GatherWrites.After, Among, Tiles;
    var s := Exec(Start(pa, pb), moves);
    var t, data := BatchedPuts(maxSge, budget, mem, segs, addr, Some(id)), Contents(mem, segs);
    TransferOrder(pa, pb, moves);
    if before <= last < |s.a.puts| && Among(t, s.a.puts[before..last + 1], a)
       && |Ids(s.a.puts[..last])| < |s.b.outIds| && addr <= a < addr + |data| {
      var landed, n := s.b.landed, last + 1;
      assert last < |landed|;
      assert landed[before..n] == s.a.puts[before..n];
      assert landed[..n] == landed[..before] + landed[before..n] && landed == landed[..n] + landed[n..];
      var b0 := GatherWrites.After(landed[..before], a, b);
      BatchedPutsAre(maxSge, budget, mem, segs, addr, Some(id));
      AfterAppend(landed[..before], landed[before..n], a, b);
      AfterAppend(landed[..n], landed[n..], a, b);
      AmongAfter(t, landed[before..n], addr, data, a, b0);
      if forall u <- landed[n..] :: !Covers(u, a) {
        Uncovered(landed[n..], a, data[a - addr]);
      }
    }
  }

  /** Posting, delivering, acknowledging and reaping one-sided writes, and handing out
      transfer IDs, leave every stream credit of both ends where it was. */
  lemma CreditsUntouched(p: Peer, o: Peer, a: Action)
    requires Enabled(p, o, a)
    requires match a
      case BeginWrite(_, _) => true
      case TakeId => true
      case Deliver => p.sq[0].OneSided?
      case Ack => p.unacked[0].OneSided?
      case PollOne => IsWrite(p.cq[0]) || p.cq[0].opcode.OpRecvRdmaWithImm?
      case _ => false
    ensures var r := Do(p, o, a);
      && r.0.sendCredits == p.sendCredits && r.0.grantPending == p.grantPending && r.0.sendFree == p.sendFree
      && r.1.sendCredits == o.sendCredits && r.1.grantPending == o.grantPending && r.1.sendFree == o.sendFree
  {
    hide Receive, Wrs, Poll, PostStaged, CreditReturn, ReadSome, Store, Cell;
    if a.PollOne? {
      PollUntouched(p);
    }
  }

  lemma PollUntouched(p: Peer)
    requires p.cq != [] && (IsWrite(p.cq[0]) || p.cq[0].opcode.OpRecvRdmaWithImm?)
    ensures var q := Poll(p); q.sendCredits == p.sendCredits && q.grantPending == p.grantPending && q.sendFree == p.sendFree
  {
    hide Receive, Repost;
    var p1, c := p.(cq := p.cq[1..]), p.cq[0];
    if c.opcode.OpRecvRdmaWithImm? && c.id.RecvId? {
      RepostFrame(p1.(done := p1.done + [c.imm]), c.id.slot);
    }
  }
}
