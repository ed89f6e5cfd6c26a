/** The blocking and the asynchronous driver of one-sided writes, against any behaviour
    of the network and of the other end. */
module WriteDrivers {
  import opened Basics
  import opened StreamState
  import opened StreamSystem
  import opened StreamSteps
  import opened StreamRuns
  import opened GatherPlan
  import opened GatherBatches
  import opened GatherWrites
  import opened SplitPlane
  import opened StreamTheorems
  import opened StreamFlush

  /** What happens outside the driver while it waits once: moves of the NICs, of the other
      end, and (for an asynchronous write) of the other tasks of its own end; then perhaps
      a disconnect seen on the connection manager's channel. `room` is how many work
      requests the queue will take from the next gather. */
  datatype Burst = Burst(moves: seq<Move>, hangup: bool, room: nat)

  datatype WriteError = BrokenPipe | TooLong | PostFailed | Stalled | PollFailed | Aborted

  datatype Begun = Posted | WouldBlock | Refused(error: WriteError)

  /** `CutOff`: the driver is still waiting when the outside world runs out of moves; an
      asynchronous write is dropped at that point. */
  datatype Outcome = Finished | Failed(error: WriteError) | CutOff

  datatype Wake = Woken | Broken | Asleep

  /** No work request can read its source any more. */
  predicate Idle(p: Peer) { p.writesOut == 0 || !p.alive }

  /** Who moves while the driver waits. A blocking write holds its end for itself; beside
      an asynchronous one (`shared`) the end is read, written, flushed and polled, and
      other writes are begun. */
  predicate Outside(shared: bool, m: Move) {
    m.byA && !shared ==>
      m.act.Deliver? || m.act.Ack? || m.act.Kill? || m.act.Accept? || m.act.FlushSend? || m.act.FlushUnacked? || m.act.FlushRecv?
  }

  function OutsideOf(shared: bool, ms: seq<Move>): seq<Move> {
    if ms == [] then []
    else OutsideOf(shared, ms[..|ms| - 1]) + (if Outside(shared, ms[|ms| - 1]) then [ms[|ms| - 1]] else [])
  }

  /** What other moves do to what this end has posted and written. */
  predicate Beside(shared: bool, p: Peer, q: Peer) {
    && p.puts <= q.puts && q.params == p.params && (p.closed ==> q.closed)
    && (!shared ==> q.puts == p.puts && q.wrote == p.wrote && q.txStage == p.txStage && q.got == p.got)
  }

  /** The NIC only adds completions; it reaps nothing and hands nothing to the reader. */
  predicate Untouched(p: Peer, q: Peer) {
    && p.cq <= q.cq && q.writesOut == p.writesOut && q.sendFree == p.sendFree && q.rxReady == p.rxReady
    && q.grantPending == p.grantPending && q.ctrlBusy == p.ctrlBusy && q.closed == p.closed
  }

  lemma OutsideStep(shared: bool, s: Sys, m: Move)
    requires Outside(shared, m)
    ensures Beside(shared, s.a, Step(s, m).a) && (!shared ==> Untouched(s.a, Step(s, m).a))
  {
    hide Do, Enabled, Beside, Untouched;
    BesideSelf(shared, s.a);
    if CanMove(s, m) {
      if !m.byA {
        OtherEnd(shared, s.b, s.a, m.act);
      } else if shared {
        OwnPuts(s.a, s.b, m.act);
      } else {
        OwnNic(s.a, s.b, m.act);
      }
    }
  }

  lemma BesideSelf(shared: bool, p: Peer)
    ensures Beside(shared, p, p) && Untouched(p, p)
  {
  }

  lemma OtherEnd(shared: bool, p: Peer, o: Peer, a: Action)
    requires Enabled(p, o, a)
    ensures Beside(shared, o, Do(p, o, a).1) && Untouched(o, Do(p, o, a).1)
  {
    hide Poll, PostStaged, CreditReturn, ReadSome, Land, PostPuts;
    if a.Deliver? {
      LandFrame(o, p.sq[0], p.sendMem);
    }
  }

  lemma OwnNic(p: Peer, o: Peer, a: Action)
    requires Enabled(p, o, a) && Outside(false, Move(true, a))
    ensures Beside(false, p, Do(p, o, a).0) && Untouched(p, Do(p, o, a).0)
  {
    hide Land;
  }

  /** Whatever an end does, it only ever posts more. */
  lemma OwnPuts(p: Peer, o: Peer, a: Action)
    requires Enabled(p, o, a)
    ensures Beside(true, p, Do(p, o, a).0)
  {
    hide Poll, PostStaged, CreditReturn, ReadSome, Land, Wrs;
    if a.PollOne? {
      PollFrame(p);
    } else if a.Read? {
      ReadShape(p, a.k, ReadSome(p, a.k));
    } else if a.Credit? {
      CreditPuts(p);
    } else if a.Post? {
      PostStagedPuts(p, a.bs);
    }
  }

  lemma CreditPuts(p: Peer)
    ensures CreditReturn(p).puts == p.puts && (p.closed ==> CreditReturn(p).closed)
  {
    hide Store;
  }

  lemma PostStagedPuts(p: Peer, bs: seq<byte>)
    requires CanSend(p)
    ensures PostStaged(p, bs).puts == p.puts && (p.closed ==> PostStaged(p, bs).closed)
  {
    hide Store;
  }

  lemma {:induction false} OutsideRun(shared: bool, s: Sys, ms: seq<Move>)
    ensures Beside(shared, s.a, Exec(s, OutsideOf(shared, ms)).a)
    ensures !shared ==> Untouched(s.a, Exec(s, OutsideOf(shared, ms)).a)
  {
    hide Step;
    if ms != [] {
      var front, m := ms[..|ms| - 1], ms[|ms| - 1];
      OutsideRun(shared, s, front);
      if Outside(shared, m) {
        var f := OutsideOf(shared, front);
        assert (f + [m])[..|f|] == f;
        OutsideStep(shared, Exec(s, f), m);
      } else {
        assert OutsideOf(shared, ms) == OutsideOf(shared, front);
      }
    }
  }

  /** Over a connection that delivers what was sent, handling a completion fails only when
      a receive cannot be posted again. */
  lemma FailsRefused(p: Peer, o: Peer)
    requires Inv(p, o) && p.cq != []
    ensures HandleFails(p, p.cq[0]) ==> !Posts(p) && Poll(p).refused && Poll(p).closed && Poll(p).writesOut == p.writesOut
  {
    hide SendOk, WriteOk, RecvOk, Safe, Lossless, FramesIn, RecvOwners, RxOk, Cell, Repost;
    RecvFacts(p);
    if HandleFails(p, p.cq[0]) {
      var p1, c := p.(cq := p.cq[1..]), p.cq[0];
      RepostFrame(p1.(done := p1.done + [c.imm]), c.id.slot);
      RepostFrame(p1.(sendCredits := SaturatingAdd32(p1.sendCredits, Cell(p.recvMem, c.id.slot).env.credits)), c.id.slot);
    }
  }

  lemma StepPoll(s: Sys)
    requires s.a.cq != []
    ensures Step(s, Move(true, PollOne)) == Sys(Poll(s.a), s.b)
  {
    hide Poll;
  }

  lemma StepBegin(s: Sys, puts: seq<Put>, good: nat)
    requires CanBegin(s.a, puts) && good <= |puts| && (!Posts(s.a) ==> good == 0)
    ensures Step(s, Move(true, BeginWrite(puts, good))) == Sys(PostPuts(s.a, puts, good), s.b)
  {
    hide PostPuts;
  }

  lemma StepFlags(s: Sys)
    ensures Step(s, Move(true, MarkClosed)) == Sys(s.a.(closed := true), s.b)
    ensures Step(s, Move(true, Kill)) == Sys(s.a.(alive := false), s.b)
  {
  }

  // ---- what a driver has posted ----------------------------------------------------------

  /** Since `before`, this driver has posted `mine`: alone, or in order among the writes of
      others. */
  predicate Sent(shared: bool, before: seq<Put>, puts: seq<Put>, mine: seq<Put>) {
    before <= puts && if shared then Subseq(mine, puts[|before|..]) else puts == before + mine
  }

  lemma SentNothing(shared: bool, puts: seq<Put>)
    ensures Sent(shared, puts, puts, [])
  {
  }

  /** Others may post in between; the driver goes on posting. */
  lemma SentMore(shared: bool, before: seq<Put>, puts: seq<Put>, mine: seq<Put>, later: seq<Put>, more: seq<Put>)
    requires Sent(shared, before, puts, mine) && Sent(shared, puts, later, more)
    ensures Sent(shared, before, later, mine + more)
  {
    hide Subseq;
    if shared {
      assert later[|before|..] == puts[|before|..] + later[|puts|..];
      SubseqAppend(mine, puts[|before|..], more, later[|puts|..]);
    }
  }

  lemma SentBeside(shared: bool, before: seq<Put>, puts: seq<Put>, mine: seq<Put>, later: seq<Put>)
    requires Sent(shared, before, puts, mine) && puts <= later && (!shared ==> later == puts)
    ensures Sent(shared, before, later, mine)
  {
    hide Subseq;
    if shared {
      assert later[|before|..] == puts[|before|..] + later[|puts|..];
      SubseqAppend(mine, puts[|before|..], [], later[|puts|..]) by { assert Subseq([], later[|puts|..]) by { NothingMine(later[|puts|..]); } }
      assert mine + [] == mine;
    }
  }

  lemma NothingMine(whole: seq<Put>)
    ensures Subseq([], whole)
  {
  }

  lemma SentExactly(shared: bool, before: seq<Put>, posted: seq<Put>)
    ensures Sent(shared, before, before + posted, posted)
  {
    hide Subseq;
    assert (before + posted)[|before|..] == posted;
    SubseqSelf(posted);
  }

  /** The writes outstanding leave no room for `n` more, or the transfer window is full. */
  predicate Blocks(p: Peer, n: nat, imm: bool) {
    && 1 <= n <= p.params.sendPool
    && (p.writesOut + n > |p.sendFree| || (imm && p.immOut >= p.params.peerSplit))
  }

  /** Back-pressure with nothing in flight means a transfer window of zero. */
  lemma StallMeansNoWindow(p: Peer, o: Peer, n: nat, imm: bool)
    requires Inv(p, o) && Blocks(p, n, imm)
    requires |p.sendFree| >= p.params.sendPool && p.writesOut == 0
    ensures imm && p.params.peerSplit == 0
  {
    hide SendOk, RecvOk, Safe, Lossless, Flat;
    ImmsAreWrites(p.sq);
    ImmsAreWrites(p.unacked);
    ImmDonesAreWrites(p.cq);
  }

  lemma {:induction false} ImmsAreWrites(ws: seq<WorkRequest>)
    ensures |Flat(WrImm, ws)| <= |Flat(PutOf, ws)|
  {
    if ws != [] {
      ImmsAreWrites(ws[1..]);
    }
  }

  lemma {:induction false} ImmDonesAreWrites(cq: seq<Completion>)
    ensures |Flat(ImmDone, cq)| <= |Flat(WriteDone, cq)|
  {
    if cq != [] {
      ImmDonesAreWrites(cq[1..]);
    }
  }

  /** The run of `EarlyReturn`: an end posts a write, the other end an immediate, which is
      delivered; then the first end's queue refuses posts. */
  function JammedRun(): seq<Move> {
    [Move(true, BeginWrite([Put(0, [7], None)], 1)), Move(false, BeginWrite([Put(0, [], Some(1))], 1)),
     Move(false, Deliver), Move(true, Accept(false))]
  }

  /** Its write is with the NIC over a connection that works, and handling its next
      completion fails, because the receive cannot be posted again. */
  lemma Jammed()
    ensures var params := Params(64, 8, 4, 1, true, 1, 1);
      && Compatible(params, params)
      && var s := Exec(Start(params, params), JammedRun());
         && s.a.alive && !s.a.closed && s.a.writesOut == 1 && s.a.sq != [] && s.a.sq[0].OneSided? && CanDeliver(s.a, s.b)
         && s.a.cq != [] && HandleFails(s.a, s.a.cq[0])
  {
    hide Exec, Step, Fresh, PostPuts, Land;
    var params := Params(64, 8, 4, 1, true, 1, 1);
    var p0, m := Fresh(params, 4), JammedRun();
    var data, id := [Put(0, [7], None)], [Put(0, [], Some(1))];
    FreshWrites(params);
    var p1, o1 := PostPuts(p0, data, 1), PostPuts(p0, id, 1);
    assert Step(Sys(p0, p0), m[0]) == Sys(p1, p0) by { FirstWrite(p0, p0, data); }
    assert Step(Sys(p1, p0), m[1]) == Sys(p1, o1) by { OtherWrite(p1, p0, id); }
    FirstWrite(p0, p0, data);
    OtherWrite(p1, p0, id);
    ImmLands(p1, o1);
    var t := Step(Sys(p1, o1), m[2]);
    JamStep(t);
    ExecSnoc(Sys(p0, p0), [], m[0]);
    ExecSnoc(Sys(p0, p0), m[..1], m[1]);
    ExecSnoc(Sys(p0, p0), m[..2], m[2]);
    ExecSnoc(Sys(p0, p0), m[..3], m[3]);
    assert [] + [m[0]] == m[..1] && m[..1] + [m[1]] == m[..2] && m[..2] + [m[2]] == m[..3] && m[..3] + [m[3]] == m;
    assert Compatible(params, params);
  }

  lemma FreshWrites(params: Params)
    requires params.sendPool == 1 && params.peerSplit == 1
    ensures var p := Fresh(params, 4);
      && p.sendFree == [0] && Posts(p) && !p.closed && p.writesOut == 0 && p.immOut == 0 && p.sq == [] && p.cq == []
      && p.params == params && p.posted == UpTo(params.Slots()) && |p.posted| == params.Slots()
  {
    assert DownFrom(1) == [0];
  }

  lemma FirstWrite(p: Peer, o: Peer, puts: seq<Put>)
    requires |puts| == 1 && !p.closed && Posts(p) && p.sendFree == [0] && p.writesOut == 0 && p.immOut == 0 && p.sq == []
    requires p.params.sendPool == 1 && p.params.peerSplit == 1
    ensures Step(Sys(p, o), Move(true, BeginWrite(puts, 1))) == Sys(PostPuts(p, puts, 1), o)
    ensures var q := PostPuts(p, puts, 1);
      && q.writesOut == 1 && q.sq == [OneSided(0, puts[0])] && !q.closed && Posts(q) && q.params == p.params && q.cq == p.cq
      && q.posted == p.posted
  {
    assert puts[..1] == puts && Wrs(puts, 0) == [OneSided(0, puts[0])] + Wrs(puts[1..], 1) && puts[1..] == [];
  }

  lemma OtherWrite(o: Peer, p: Peer, puts: seq<Put>)
    requires |puts| == 1 && !p.closed && Posts(p) && p.sendFree == [0] && p.writesOut == 0 && p.immOut == 0 && p.sq == []
    requires p.params.sendPool == 1 && p.params.peerSplit == 1
    ensures Step(Sys(o, p), Move(false, BeginWrite(puts, 1))) == Sys(o, PostPuts(p, puts, 1))
    ensures var q := PostPuts(p, puts, 1); q.sq == [OneSided(0, puts[0])] && Posts(q)
  {
    hide PostPuts;
    FirstWrite(p, p, puts);
  }

  lemma ImmLands(p: Peer, o: Peer)
    requires Posts(p) && Posts(o) && o.sq == [OneSided(0, Put(0, [], Some(1)))] && p.posted != [] && p.cq == []
    ensures var t := Step(Sys(p, o), Move(false, Deliver));
      && t.a.cq == [Completion(RecvId(p.posted[0]), true, OpRecvRdmaWithImm, 0, 1)] && t.a.sq == p.sq && t.a.writesOut == p.writesOut
      && t.a.alive && t.a.closed == p.closed && t.b.alive
  {
  }

  lemma JamStep(s: Sys)
    ensures Step(s, Move(true, Accept(false))) == Sys(s.a.(accepts := false), s.b)
  {
  }

  /** One batch further: what is posted so far, the batch, and what is left. */
  lemma NextPuts(maxSge: nat, budget: nat, mem: Memory, segs: seq<Segment>, start: nat, n: nat,
                 addr: nat, imm: Option<nat>, whole: seq<Put>, sent: seq<Put>)
    requires start < |segs| && n == NextBatch(Clamp(maxSge), budget, segs[start..])
    requires whole == sent + BatchedPuts(maxSge, budget, mem, segs[start..], addr, imm)
    ensures var end := start + n;
      var batch := GatherPuts(maxSge, mem, segs[start..end], addr, if end == |segs| then imm else None);
      && sent + batch <= whole
      && (end == |segs| ==> whole == sent + batch)
      && (end < |segs| ==>
            whole == sent + batch + BatchedPuts(maxSge, budget, mem, segs[end..], addr + |Stream(segs[start..end])|, imm))
  {
    hide GatherPuts, NextBatch, Stream;
    var end := start + n;
    assert segs[start..][..n] == segs[start..end] && segs[start..][n..] == segs[end..];
    assert n == |segs[start..]| ==> segs[start..][..n] == segs[start..];
  }

  lemma NoSegments(maxSge: nat, budget: nat, mem: Memory, addr: nat, imm: Option<nat>)
    ensures BatchedPuts(maxSge, budget, mem, [], addr, imm) == GatherPuts(maxSge, mem, [], addr, imm)
    ensures |GatherPuts(maxSge, mem, [], addr, imm)| <= 1
  {
  }

  lemma CompatibleSend(pa: Params, pb: Params)
    requires Compatible(pa, pb)
    ensures Max(pa.sendPool, 1) == pa.sendPool >= 1
  {
  }

  /** Whatever part of the batch was posted, what is posted is a prefix of the whole. */
  lemma PrefixOfWhole(sent: seq<Put>, part: seq<Put>, batch: seq<Put>, whole: seq<Put>)
    requires part <= batch && sent + batch <= whole
    ensures sent + part <= whole
  {
    assert batch == part + batch[|part|..];
    assert sent + batch == (sent + part) + batch[|part|..];
  }

  /** How a driver ends; `all` says that every write of its gather was posted. A blocking
      one succeeds exactly when they all were, none is outstanding and the stream is open;
      and a driver is cut off only with nothing left to handle. */
  predicate Ends(r: Outcome, shared: bool, p: Peer, fate: seq<Burst>, all: bool, imm: Option<nat>) {
    match r
    case Finished => all && p.writesOut == 0 && !p.closed
    case CutOff => fate == [] && p.cq == [] && (all && !shared ==> p.writesOut > 0)
    case Failed(TooLong) => !all
    case Failed(Stalled) => !all && imm.Some? && p.params.peerSplit == 0
    case Failed(_) => p.closed
  }

  /** What the attempts to post `whole`, from `p0` on, have come to: too long exactly when
      the send pool is too small for it, and otherwise nothing but back-pressure and a
      closed stream keep it from being posted. */
  predicate Tried(r: Begun, mine: seq<Put>, whole: seq<Put>, p0: Peer, p: Peer, imm: Option<nat>) {
    && mine <= whole && p.params == p0.params
    && (r.Posted? <==> mine == whole && !p.closed)
    && (r == Refused(TooLong) <==> !p0.closed && |whole| > p.params.sendPool)
    && (r == Refused(Stalled) ==> imm.Some? && p.params.peerSplit == 0 && p.writesOut == 0)
    && (r.Refused? && !r.error.TooLong? && !r.error.Stalled? ==> p.closed)
    && (r.WouldBlock? || (r.Refused? && !r.error.PostFailed?) ==> mine == [])
    && (r.WouldBlock? || r == Refused(Stalled) ==> whole != [])
    && (p0.closed ==> r == Refused(BrokenPipe))
    && (p0.closed || r == Refused(TooLong) ==> p.writesOut == p0.writesOut)
    && r != Refused(Aborted)
  }

  lemma TriedStall(whole: seq<Put>, p0: Peer, p: Peer, imm: Option<nat>)
    requires Tried(Begun.WouldBlock, [], whole, p0, p, imm) && imm.Some? && p.params.peerSplit == 0 && p.writesOut == 0 && !p.closed
    ensures Tried(Refused(Stalled), [], whole, p0, p, imm)
  {
  }

  /** Waiting leaves an attempt that would block where it was. */
  lemma TriedBeside(whole: seq<Put>, p0: Peer, q: Peer, p: Peer, imm: Option<nat>)
    requires Tried(Begun.WouldBlock, [], whole, p0, q, imm) && p.params == q.params
    ensures Tried(Begun.WouldBlock, [], whole, p0, p, imm) && !p0.closed && |whole| <= p0.params.sendPool && p.params == p0.params
    ensures p.closed ==> Tried(Refused(PollFailed), [], whole, p0, p, imm)
  {
  }

  /** Some segment alone is more than the whole send pool can carry. */
  predicate TooLongIn(sendPool: nat, segs: seq<Segment>) {
    exists i :: 0 <= i < |segs| && segs[i].len > sendPool * WRITE_WR_MAX
  }

  lemma NotTooLong(sendPool: nat)
    ensures !TooLongIn(sendPool, [])
  {
  }

  lemma GatherCount(maxSge: nat, mem: Memory, segs: seq<Segment>, addr: nat, imm: Option<nat>)
    ensures var n := Count(Clamp(maxSge), segs);
      |GatherPuts(maxSge, mem, segs, addr, imm)| == if n == 0 && imm.Some? then 1 else n
  {
    hide Pack, Puts;
  }

  /** A batch is too long for the send pool exactly when it is one segment that is. */
  lemma BatchLengths(maxSge: nat, sendPool: nat, mem: Memory, segs: seq<Segment>, start: nat, n: nat, at: nat, imm: Option<nat>)
    requires start < |segs| && n == NextBatch(Clamp(maxSge), sendPool, segs[start..]) && sendPool >= 1
    ensures var batch := segs[start..start + n];
      |GatherPuts(maxSge, mem, batch, at, imm)| > sendPool <==> TooLongIn(sendPool, batch)
    ensures TooLongIn(sendPool, segs[start..start + n]) ==> TooLongIn(sendPool, segs)
  {
    hide GatherPuts, Count, Longest;
    var m, batch := Clamp(maxSge), segs[start..start + n];
    GatherCount(maxSge, mem, batch, at, imm);
    LongestIs(m, sendPool, segs[start..], n);
    assert segs[start..][..n] == batch;
    assert n == 1 ==> batch == [batch[0]];
    SoloCount(m, batch[0], sendPool);
    if TooLongIn(sendPool, batch) {
      var i :| 0 <= i < |batch| && batch[i].len > sendPool * WRITE_WR_MAX;
      assert batch[i..i + 1] == [batch[i]] && batch[i] == segs[start + i];
      SoloCount(m, batch[i], sendPool);
      CountSlice(m, batch, i, i + 1);
    }
  }

  lemma TooLongAppend(sendPool: nat, segs: seq<Segment>, start: nat, end: nat)
    requires start <= end <= |segs|
    ensures TooLongIn(sendPool, segs[..end]) <==> TooLongIn(sendPool, segs[..start]) || TooLongIn(sendPool, segs[start..end])
  {
    if TooLongIn(sendPool, segs[..end]) {
      var i :| 0 <= i < end && segs[..end][i].len > sendPool * WRITE_WR_MAX;
      if i < start {
        assert segs[..start][i] == segs[i];
      } else {
        assert segs[start..end][i - start] == segs[i];
      }
    }
    if TooLongIn(sendPool, segs[..start]) {
      var i :| 0 <= i < start && segs[..start][i].len > sendPool * WRITE_WR_MAX;
      assert segs[..end][i] == segs[i];
    }
    if TooLongIn(sendPool, segs[start..end]) {
      var i :| 0 <= i < end - start && segs[start..end][i].len > sendPool * WRITE_WR_MAX;
      assert segs[..end][start + i] == segs[start + i];
    }
  }

  /** The stage is shorter than a message in every run. */
  lemma RunStage(pa: Params, pb: Params, moves: seq<Move>)
    requires Compatible(pa, pb)
    ensures var p := Exec(Start(pa, pb), moves).a; |p.txStage| < p.params.cap
  {
    hide Exec, Inv;
    RunInv(pa, pb, moves);
    StageShort(Exec(Start(pa, pb), moves).a, Exec(Start(pa, pb), moves).b);
  }

  lemma StageShort(p: Peer, o: Peer)
    requires Inv(p, o)
    ensures |p.txStage| < p.params.cap
  {
    hide RecvOk, WriteOk, Safe, Lossless;
  }

  lemma StepFlush(s: Sys)
    requires 1 <= |s.a.txStage| <= s.a.params.cap
    ensures var t := Step(s, Move(true, Credit));
      && t.a.wrote == s.a.wrote && t.a.cq == s.a.cq && (CanReturn(s.a) && !Posts(s.a) ==> t.a.closed)
      && t.a.txStage == s.a.txStage && (CanSend(t.a) ==> CanSend(s.a)) && !CanReturn(t.a)
    ensures CanSend(s.a) ==>
      var t := Step(s, Move(true, Post([]))); t.a.wrote == s.a.wrote && t.a.cq == s.a.cq && t.a.txStage == [] && (!Posts(s.a) ==> t.a.closed)
  {
    hide Store;
    assert s.a.wrote + [] == s.a.wrote;
  }

  /** Where `flush` ends, `FlushBarrier` applies. */
  lemma RunFlushed(pa: Params, pb: Params, moves: seq<Move>)
    requires Compatible(pa, pb)
    ensures var s := Exec(Start(pa, pb), moves);
      s.a.txStage == [] && |s.a.sendFree| >= pa.sendPool && s.a.writesOut == 0 ==>
        && Flushed(s.a)
        && (!s.a.closed ==> s.a.wrote == Arrived(s.b))
  {
    hide Exec, Inv, FramesIn, HeldBytes, Flat;
    var s := Exec(Start(pa, pb), moves);
    RunInv(pa, pb, moves);
    FreeAtMost(s.a, s.b);
    FlushBarrier(pa, pb, moves);
  }

  lemma FreeAtMost(p: Peer, o: Peer)
    requires Inv(p, o)
    ensures |p.sendFree| <= p.params.sendPool
  {
    hide RecvOk, WriteOk, Safe, Lossless, Flat, FramesOut, All, CtrlOk;
    AllCount(p.params.sendPool);
    assert |SendOwners(p)| ==
           |p.sendFree| + |Flat(DataSlot, p.sq)| + |Flat(DataSlot, p.unacked)| + |Flat(SendDone, p.cq)|;
  }

  // ---- a driver's own moves in the run ---------------------------------------------------

  /** A run continued; `own` marks the moves of the driver. */
  predicate Grown(m0: seq<Move>, o0: seq<bool>, m1: seq<Move>, o1: seq<bool>) {
    m0 <= m1 && o0 <= o1 && |o0| == |m0| && |o1| == |m1|
  }

  /** The driver's `k`th move polled a completion that could not be handled: its receive
      was to be posted again and the queue refused it (`StreamState.HandleFails`). */
  predicate BadPoll(pa: Params, pb: Params, moves: seq<Move>, own: seq<bool>, k: nat) {
    && k < |moves| && k < |own| && own[k] && moves[k] == Move(true, PollOne)
    && var p := Exec(Start(pa, pb), moves[..k]).a; p.cq != [] && HandleFails(p, p.cq[0])
  }

  /** The driver has polled a completion since. */
  predicate Polled(moves: seq<Move>, own: seq<bool>, since: nat) {
    exists k :: since <= k < |moves| && k < |own| && own[k] && moves[k] == Move(true, PollOne)
  }

  ghost predicate Broke(pa: Params, pb: Params, moves: seq<Move>, own: seq<bool>, since: nat) {
    exists k: nat :: since <= k && BadPoll(pa, pb, moves, own, k)
  }

  lemma SamePoll(pa: Params, pb: Params, m0: seq<Move>, o0: seq<bool>, m1: seq<Move>, o1: seq<bool>, k: nat)
    requires Grown(m0, o0, m1, o1) && k < |m0|
    ensures BadPoll(pa, pb, m1, o1, k) == BadPoll(pa, pb, m0, o0, k)
  {
    hide Exec, HandleFails;
    assert m1[..k] == m0[..k];
  }

  lemma BrokeSplit(pa: Params, pb: Params, m0: seq<Move>, o0: seq<bool>, m1: seq<Move>, o1: seq<bool>, since: nat)
    requires Grown(m0, o0, m1, o1) && since <= |m0|
    ensures Broke(pa, pb, m1, o1, since) <==> Broke(pa, pb, m0, o0, since) || Broke(pa, pb, m1, o1, |m0|)
  {
    hide Exec, HandleFails;
    if Broke(pa, pb, m1, o1, since) {
      var k: nat :| since <= k && BadPoll(pa, pb, m1, o1, k);
      if k < |m0| {
        SamePoll(pa, pb, m0, o0, m1, o1, k);
      }
    }
    if Broke(pa, pb, m0, o0, since) {
      var k: nat :| since <= k && BadPoll(pa, pb, m0, o0, k);
      SamePoll(pa, pb, m0, o0, m1, o1, k);
    }
    if Broke(pa, pb, m1, o1, |m0|) {
      var k: nat :| |m0| <= k && BadPoll(pa, pb, m1, o1, k);
    }
  }

  /** Nobody else's moves are the driver's. */
  lemma OthersNotBroke(pa: Params, pb: Params, moves: seq<Move>, own: seq<bool>, since: nat)
    requires |own| == |moves| && forall k :: since <= k < |own| ==> !own[k]
    ensures !Broke(pa, pb, moves, own, since)
  {
    hide Exec, HandleFails;
  }

  lemma OneMove(pa: Params, pb: Params, moves: seq<Move>, own: seq<bool>, a: Action)
    requires |own| == |moves|
    ensures var p := Exec(Start(pa, pb), moves).a;
      Broke(pa, pb, moves + [Move(true, a)], own + [true], |moves|) <==> a.PollOne? && p.cq != [] && HandleFails(p, p.cq[0])
  {
    hide Exec, HandleFails;
    var m, o := moves + [Move(true, a)], own + [true];
    assert m[..|moves|] == moves;
    if a.PollOne? && BadPoll(pa, pb, m, o, |moves|) {
      assert Broke(pa, pb, m, o, |moves|);
    }
  }

  class Driver {
    const pa: Params
    const pb: Params
    const maxSge: nat
    var s: Sys
    var fate: seq<Burst>
    var room: nat
    ghost var moves: seq<Move>
    ghost var own: seq<bool>

    /** The driver's end is `s.a`, and `s` is where a run has brought the two ends. */
    ghost predicate Valid()
      reads this
    {
      Compatible(pa, pb) && s == Exec(Start(pa, pb), moves) && |own| == |moves|
    }

    /** A completion this driver polled since could not be handled. */
    ghost predicate BrokeSince(since: nat)
      reads this
    {
      Broke(pa, pb, moves, own, since)
    }

    constructor (pa: Params, pb: Params, maxSge: nat, before: seq<Move>, room: nat, fate: seq<Burst>)
      requires Compatible(pa, pb)
      ensures Valid() && moves == before && this.pa == pa && this.pb == pb && this.fate == fate
    {
      this.pa, this.pb, this.maxSge, this.fate, this.room := pa, pb, maxSge, fate, room;
      s := Exec(Start(pa, pb), before);
      moves, own := before, seq(|before|, _ => false);
    }

    /** A move of the driver. */
    method Act(a: Action)
      requires Valid()
      modifies `s, `moves, `own
      ensures Valid() && s == Step(old(s), Move(true, a)) && moves == old(moves) + [Move(true, a)] && own == old(own) + [true]
      ensures BrokeSince(|old(moves)|) <==> a.PollOne? && old(s.a.cq) != [] && HandleFails(old(s.a), old(s.a.cq)[0])
    {
      hide Exec, Step, Broke, HandleFails;
      ExecSnoc(Start(pa, pb), moves, Move(true, a));
      OneMove(pa, pb, moves, own, a);
      s := Step(s, Move(true, a));
      moves, own := moves + [Move(true, a)], own + [true];
    }

    /** Everybody else's turn. */
    method Turn(shared: bool, b: Burst)
      requires Valid()
      modifies `s, `moves, `own, `room
      ensures Valid() && Grown(old(moves), old(own), moves, own) && Beside(shared, old(s.a), s.a)
      ensures !shared ==> Untouched(old(s.a), s.a)
      ensures !BrokeSince(|old(moves)|)
    {
      hide Exec, Step, Broke;
      var ms := OutsideOf(shared, b.moves);
      ExecAppend(Start(pa, pb), moves, ms);
      OutsideRun(shared, s, b.moves);
      s := Exec(s, ms);
      moves, own := moves + ms, own + seq(|ms|, _ => false);
      room := b.room;
      OthersNotBroke(pa, pb, moves, own, |old(moves)|);
    }

    /** Poll one completion. */
    method PollNext() returns (ok: bool)
      requires Valid() && s.a.cq != []
      modifies `s, `moves, `own
      ensures Valid() && Grown(old(moves), old(own), moves, own) && Beside(false, old(s.a), s.a) && |s.a.cq| < |old(s.a.cq)|
      ensures ok <==> !HandleFails(old(s.a), old(s.a.cq)[0])
      ensures !ok <==> BrokeSince(|old(moves)|)
      ensures !ok ==> s.a.closed && s.a.refused && s.a.writesOut == old(s.a.writesOut) && s.a.alive == old(s.a.alive)
      ensures moves == old(moves) + [Move(true, PollOne)] && own == old(own) + [true]
    {
      hide Exec, Inv, Step, Poll, HandleFails, Broke;
      RunInv(pa, pb, moves);
      FailsRefused(s.a, s.b);
      PollFrame(s.a);
      StepPoll(s);
      ok := !HandleFails(s.a, s.a.cq[0]);
      Act(PollOne);
    }

    /** Wait for something to happen. Whenever the driver looks at its queue, the network
        has moved on before. `pump(true)` of a blocking write then handles one completion;
        the reactor of an asynchronous one (`shared`) drains every one there is, and while
        it is parked other tasks use the same end. It breaks off exactly when a completion
        cannot be handled. */
    method Wait(shared: bool) returns (w: Wake)
      requires Valid()
      modifies `s, `fate, `moves, `own, `room
      ensures Valid() && Grown(old(moves), old(own), moves, own) && Beside(shared, old(s.a), s.a)
      ensures w.Broken? <==> BrokeSince(|old(moves)|)
      ensures w.Broken? ==> s.a.closed && s.a.refused && (!shared ==> s.a.writesOut == old(s.a.writesOut))
      ensures w.Woken? ==> |fate| < |old(fate)| || (|fate| == |old(fate)| && |s.a.cq| < |old(s.a.cq)|)
      ensures w.Woken? ==> (s.a.closed || Polled(moves, own, |old(moves)|)) && (shared ==> s.a.cq == [])
      ensures w.Asleep? ==> fate == [] && s.a.cq == [] && (!shared ==> Untouched(old(s.a), s.a))
      ensures |fate| <= |old(fate)|
      ensures old(fate) == [] && old(s.a.cq) != [] && HandleFails(old(s.a), old(s.a.cq)[0]) ==>
        w.Broken? && s.a.writesOut == old(s.a.writesOut) && s.a.alive == old(s.a.alive)
    {
      hide Exec, Step, Compatible, Broke, HandleFails, Polled;
      var first := true;
      OthersNotBroke(pa, pb, moves, own, |moves|);
      while fate != [] && (first || s.a.cq == [])
        invariant Valid() && Grown(old(moves), old(own), moves, own) && Beside(shared, old(s.a), s.a)
        invariant if first then fate == old(fate) && s == old(s) && moves == old(moves) && own == old(own) else |fate| < |old(fate)|
        invariant !BrokeSince(|old(moves)|) && (!shared ==> Untouched(old(s.a), s.a))
        decreases |fate|
      {
        var b := fate[0];
        fate, first := fate[1..], false;
        ghost var m, o := moves, own;
        Turn(shared, b);
        BrokeSplit(pa, pb, m, o, moves, own, |old(moves)|);
        if b.hangup && s.a.cq == [] {
          HangUp(|old(moves)|);
          return Woken;
        }
      }
      if s.a.cq == [] {
        return Asleep;
      }
      var ok := Reap(shared, |old(moves)|);
      w := if ok then Woken else Broken;
    }

    /** The other end is gone. */
    method HangUp(ghost since: nat)
      requires Valid() && since <= |moves| && !BrokeSince(since)
      modifies `s, `moves, `own
      ensures Valid() && Grown(old(moves), old(own), moves, own) && !BrokeSince(since)
      ensures s.a == old(s.a).(closed := true)
    {
      hide Exec, Step, Compatible, Broke;
      StepFlags(s);
      Act(MarkClosed);
      BrokeSplit(pa, pb, old(moves), old(own), moves, own, since);
    }

    /** Handle one completion, or every one there is. */
    method Reap(shared: bool, ghost since: nat) returns (ok: bool)
      requires Valid() && s.a.cq != [] && since <= |moves| && !BrokeSince(since)
      modifies `s, `fate, `moves, `own, `room
      ensures Valid() && Grown(old(moves), old(own), moves, own) && Beside(false, old(s.a), s.a)
      ensures Polled(moves, own, since) && (!ok <==> BrokeSince(since)) && (shared && ok ==> s.a.cq == [])
      ensures !ok ==> s.a.closed && s.a.refused && (!shared ==> s.a.writesOut == old(s.a.writesOut))
      ensures |fate| < |old(fate)| || (|fate| == |old(fate)| && |s.a.cq| < |old(s.a.cq)|)
      ensures HandleFails(old(s.a), old(s.a.cq)[0]) ==> !ok && s.a.writesOut == old(s.a.writesOut) && s.a.alive == old(s.a.alive)
    {
      hide Exec, Step, Compatible, Broke, HandleFails;
      ghost var m, o := moves, own;
      ok := PollNext();
      assert moves[|m|] == Move(true, PollOne) && own[|m|];
      BrokeSplit(pa, pb, m, o, moves, own, since);
      if shared && ok {
        ok := DrainQueue(since);
        assert moves[|m|] == Move(true, PollOne) && own[|m|];
      }
    }

    /** The rest of `drain_completions`; the NIC goes on meanwhile. */
    method DrainQueue(ghost since: nat) returns (ok: bool)
      requires Valid() && since <= |moves| && !BrokeSince(since)
      modifies `s, `fate, `moves, `own, `room
      ensures Valid() && Grown(old(moves), old(own), moves, own) && Beside(false, old(s.a), s.a)
      ensures !ok <==> BrokeSince(since)
      ensures if ok then s.a.cq == [] else s.a.closed && s.a.refused
      ensures |fate| < |old(fate)| || (|fate| == |old(fate)| && |s.a.cq| <= |old(s.a.cq)|)
    {
      hide Exec, Step, Compatible, Broke, HandleFails;
      ok := true;
      while ok && s.a.cq != []
        invariant Valid() && Grown(old(moves), old(own), moves, own) && Beside(false, old(s.a), s.a)
        invariant |fate| < |old(fate)| || (|fate| == |old(fate)| && |s.a.cq| <= |old(s.a.cq)|)
        invariant (!ok <==> BrokeSince(since)) && (!ok ==> s.a.closed && s.a.refused)
        decreases |fate|, |s.a.cq|
      {
        ghost var m, o := moves, own;
        if fate != [] {
          var b := fate[0];
          fate := fate[1..];
          Turn(false, b);
          BrokeSplit(pa, pb, m, o, moves, own, since);
          m, o := moves, own;
        }
        ok := PollNext();
        BrokeSplit(pa, pb, m, o, moves, own, since);
      }
    }

    /** `begin_rdma_write_gather_inner`: posts the gather's writes in order, all of them or
        as many as the queue takes, or none: closed, too long for the send pool, or would
        block. */
    method Begin(mem: Memory, segs: seq<Segment>, addr: nat, imm: Option<nat>) returns (r: Begun, ghost posted: seq<Put>)
      requires Valid()
      modifies `s, `moves, `own
      ensures Valid() && Grown(old(moves), old(own), moves, own) && s.a.cq == old(s.a.cq) && !BrokeSince(|old(moves)|)
      ensures posted <= GatherPuts(maxSge, mem, segs, addr, imm) && s.a.puts == old(s.a.puts) + posted
      ensures s.a.writesOut == old(s.a.writesOut) + |posted| && s.a.closed == (old(s.a.closed) || r == Refused(PostFailed))
      ensures s.a.params == old(s.a.params)
      ensures posted == [] ==> s.a == old(s.a).(closed := s.a.closed, refused := s.a.refused)
      ensures r.WouldBlock? || (r.Refused? && !r.error.PostFailed?) ==> s == old(s) && posted == []
      ensures r == Refused(BrokenPipe) <==> old(s.a.closed)
      ensures var n := |GatherPuts(maxSge, mem, segs, addr, imm)|;
        && (r == Refused(TooLong) <==> !old(s.a.closed) && n > old(s.a.params.sendPool))
        && (r.WouldBlock? <==> !old(s.a.closed) && Blocks(old(s.a), n, imm.Some?))
        && (r == Refused(PostFailed) <==>
              && !old(s.a.closed) && 1 <= n <= old(s.a.params.sendPool) && !Blocks(old(s.a), n, imm.Some?)
              && (!Posts(old(s.a)) || room < n))
        && (r.Posted? <==> !old(s.a.closed) && posted == GatherPuts(maxSge, mem, segs, addr, imm))
      ensures r != Refused(Stalled) && r != Refused(PollFailed) && r != Refused(Aborted)
    {
      hide Exec, Step, Inv, GatherPuts, Broke, ImmAtEnd, Compatible;
      posted := [];
      assert s.a.puts + [] == s.a.puts;
      OthersNotBroke(pa, pb, moves, own, |moves|);
      if s.a.closed {
        return Refused(BrokenPipe), [];
      }
      var puts, n := PlanWrites(maxSge, mem, segs, addr, imm);
      if n == 0 {
        return Posted, [];
      }
      var admission := CheckCapacity(s.a, n, imm.Some?);
      if admission.TooManyWrs? {
        return Refused(TooLong), [];
      }
      if admission.WouldBlock? {
        return Begun.WouldBlock, [];
      }
      r, posted := PostAdmitted(puts, imm);
    }

    /** The posting pass, once admitted. */
    method PostAdmitted(puts: seq<Put>, imm: Option<nat>) returns (r: Begun, ghost posted: seq<Put>)
      requires Valid() && !s.a.closed && puts != [] && ImmAtEnd(puts, imm) && CheckCapacity(s.a, |puts|, imm.Some?) == Admit
      modifies `s, `moves, `own
      ensures Valid() && Grown(old(moves), old(own), moves, own) && s.a.cq == old(s.a.cq) && !BrokeSince(|old(moves)|)
      ensures posted <= puts && s.a.puts == old(s.a.puts) + posted
      ensures s.a.writesOut == old(s.a.writesOut) + |posted| && s.a.params == old(s.a.params)
      ensures posted == [] ==> s.a == old(s.a).(closed := s.a.closed, refused := s.a.refused)
      ensures if Posts(old(s.a)) && |puts| <= room then r == Posted && posted == puts && !s.a.closed
        else r == Refused(PostFailed) && s.a.closed && |posted| == (if Posts(old(s.a)) then room else 0)
    {
      hide Exec, Step, Broke, Compatible;
      var n := |puts|;
      var good := if s.a.alive && s.a.accepts then Min(n, room) else 0;
      StepBegin(s, puts, good);
      Act(BeginWrite(puts, good));
      assert puts[..good] <= puts && (good == n <==> puts[..good] == puts);
      return if good == n then Posted else Refused(PostFailed), puts[..good];
    }

    /** One attempt of a driver that began in `p0`. */
    method TryOnce(mem: Memory, segs: seq<Segment>, addr: nat, imm: Option<nat>, ghost p0: Peer, ghost whole: seq<Put>)
      returns (r: Begun, ghost mine: seq<Put>)
      requires Valid() && whole == GatherPuts(maxSge, mem, segs, addr, imm) && s.a.params == p0.params
      requires s.a == p0 || (!p0.closed && |whole| <= p0.params.sendPool)
      modifies `s, `moves, `own
      ensures Valid() && Grown(old(moves), old(own), moves, own) && !BrokeSince(|old(moves)|) && s.a.cq == old(s.a.cq)
      ensures Tried(r, mine, whole, p0, s.a, imm) && s.a.puts == old(s.a.puts) + mine
      ensures r.WouldBlock? ==> mine == [] && !s.a.closed && Blocks(s.a, |whole|, imm.Some?)
      ensures r != Refused(Stalled) && r != Refused(PollFailed)
    {
      hide Exec, Step, GatherPuts, Inv, Compatible, Broke, Grown;
      r, mine := Begin(mem, segs, addr, imm);
    }

    /** The first loop of `drive_write_all`: post, retrying while the send queue or the
        transfer window is full. It is cut off (`WouldBlock`) only with nothing left to
        handle. */
    method PostRetrying(shared: bool, mem: Memory, segs: seq<Segment>, addr: nat, imm: Option<nat>)
      returns (posted: Begun, ghost mine: seq<Put>)
      requires Valid()
      modifies `s, `fate, `moves, `own, `room
      ensures Valid() && Grown(old(moves), old(own), moves, own) && Sent(shared, old(s.a.puts), s.a.puts, mine)
      ensures Tried(posted, mine, GatherPuts(maxSge, mem, segs, addr, imm), old(s.a), s.a, imm)
      ensures posted.WouldBlock? ==> fate == [] && s.a.cq == []
      ensures posted == Refused(PollFailed) <==> BrokeSince(|old(moves)|)
    {
      hide Exec, Step, GatherPuts, Blocks, Inv, Compatible, Sent, Broke, Grown, Tried;
      ghost var p0, m0, o0 := s.a, moves, own;
      ghost var whole := GatherPuts(maxSge, mem, segs, addr, imm);
      posted, mine := TryOnce(mem, segs, addr, imm, p0, whole);
      SentExactly(shared, p0.puts, mine);
      while posted.WouldBlock?
        invariant Valid() && Grown(m0, o0, moves, own) && Sent(shared, p0.puts, s.a.puts, mine) && !BrokeSince(|m0|)
        invariant Tried(posted, mine, whole, p0, s.a, imm)
        invariant posted.WouldBlock? ==> mine == [] && !s.a.closed && Blocks(s.a, |whole|, imm.Some?)
        invariant posted != Refused(Stalled) && posted != Refused(PollFailed)
        decreases |fate|, |s.a.cq|
      {
        ghost var q, m, o := s.a, moves, own;
        if |s.a.sendFree| >= s.a.params.sendPool && s.a.writesOut == 0 {
          RunInv(pa, pb, moves);
          StallMeansNoWindow(s.a, s.b, |whole|, imm.Some?);
          TriedStall(whole, p0, s.a, imm);
          return Refused(Stalled), mine;
        }
        var w := Wait(shared);
        SentBeside(shared, p0.puts, q.puts, [], s.a.puts);
        StillGrown(pa, pb, m0, o0, m, o, moves, own);
        TriedBeside(whole, p0, q, s.a, imm);
        if w.Asleep? {
          return;
        }
        if w.Broken? {
          return Refused(PollFailed), [];
        }
        q, m, o := s.a, moves, own;
        posted, mine := TryOnce(mem, segs, addr, imm, p0, whole);
        StillGrown(pa, pb, m0, o0, m, o, moves, own);
        SentExactly(shared, q.puts, mine);
        SentMore(shared, p0.puts, q.puts, [], s.a.puts, mine);
        assert [] + mine == mine;
      }
    }

    /** `drive_write_all`, and `poll_rdma_write` across its polls: post, then drain every
        posted work request before reporting anything. It succeeds exactly when everything
        is posted, nothing is outstanding and the stream is open. The one exception: it
        returns at once, with what it has posted still with the NIC, exactly when it
        polled a completion that could not be handled. */
    method PostAndDrain(shared: bool, mem: Memory, segs: seq<Segment>, addr: nat, imm: Option<nat>)
      returns (r: Outcome, ghost mine: seq<Put>)
      requires Valid()
      modifies `s, `fate, `moves, `own, `room
      ensures Valid() && Grown(old(moves), old(own), moves, own)
      ensures mine <= GatherPuts(maxSge, mem, segs, addr, imm) && Sent(shared, old(s.a.puts), s.a.puts, mine)
      ensures Ends(r, shared, s.a, fate, mine == GatherPuts(maxSge, mem, segs, addr, imm), imm)
      ensures r == Failed(PollFailed) <==> BrokeSince(|old(moves)|)
      ensures r.Failed? && !BrokeSince(|old(moves)|) ==> Idle(s.a)
      ensures !shared && BrokeSince(|old(moves)|) && mine != [] ==> s.a.writesOut > 0
      ensures r == Failed(TooLong) <==>
        && !old(s.a.closed) && |GatherPuts(maxSge, mem, segs, addr, imm)| > pa.sendPool
        && !BrokeSince(|old(moves)|) && !r.CutOff?
      ensures old(s.a.writesOut) == 0 && !old(s.a.closed) && |GatherPuts(maxSge, mem, segs, addr, imm)| > pa.sendPool ==>
        r == Failed(TooLong)
      ensures old(s.a.writesOut) == 0 && old(s.a.closed) ==> r == Failed(BrokenPipe)
      ensures r.Finished? ==> |GatherPuts(maxSge, mem, segs, addr, imm)| <= pa.sendPool
    {
      hide Exec, Step, GatherPuts, Compatible, Sent, Broke, Grown, Inv;
      RunInv(pa, pb, moves);
      ghost var before, m0, o0 := s.a.puts, moves, own;
      var posted;
      posted, mine := PostRetrying(shared, mem, segs, addr, imm);
      if posted.WouldBlock? {
        return CutOff, mine;
      }
      if posted == Refused(PollFailed) {
        return Failed(PollFailed), mine;
      }
      ghost var p, m, o := s.a.puts, moves, own;
      r := Drain(shared);
      StillGrown(pa, pb, m0, o0, m, o, moves, own);
      SentBeside(shared, before, p, mine, s.a.puts);
      if r.Finished? && posted.Refused? {
        r := Failed(posted.error);
      } else if r.Finished? && s.a.closed {
        r := Failed(Aborted);
      }
    }

    /** Poll until no write is outstanding. */
    method Drain(shared: bool) returns (r: Outcome)
      requires Valid()
      modifies `s, `fate, `moves, `own, `room
      ensures Valid() && Grown(old(moves), old(own), moves, own) && Beside(shared, old(s.a), s.a)
      ensures r.Finished? ==> s.a.writesOut == 0
      ensures r.CutOff? ==> fate == [] && s.a.cq == [] && (!shared ==> s.a.writesOut > 0)
      ensures old(s.a.writesOut) == 0 ==> r.Finished? && s == old(s) && fate == old(fate)
      ensures r.Failed? <==> BrokeSince(|old(moves)|)
      ensures r.Failed? ==> r.error == PollFailed && s.a.closed && (!shared ==> s.a.writesOut > 0)
      ensures old(s.a.writesOut) > 0 && old(fate) == [] && old(s.a.cq) != [] && HandleFails(old(s.a), old(s.a.cq)[0]) ==>
        r.Failed? && s.a.writesOut == old(s.a.writesOut) && s.a.alive == old(s.a.alive)
    {
      hide Exec, Step, Compatible, Broke, HandleFails;
      ghost var m0, o0 := moves, own;
      OthersNotBroke(pa, pb, moves, own, |moves|);
      while s.a.writesOut > 0
        invariant Valid() && Grown(m0, o0, moves, own) && Beside(shared, old(s.a), s.a) && !BrokeSince(|m0|)
        invariant old(s.a.writesOut) == 0 ==> s == old(s) && fate == old(fate)
        invariant old(fate) == [] && old(s.a.cq) != [] && HandleFails(old(s.a), old(s.a.cq)[0]) ==> s == old(s) && fate == []
        decreases |fate|, |s.a.cq|
      {
        ghost var m, o := moves, own;
        var w := Wait(shared);
        StillGrown(pa, pb, m0, o0, m, o, moves, own);
        if w.Asleep? {
          return CutOff;
        }
        if w.Broken? {
          return Failed(PollFailed);
        }
      }
      return Finished;
    }

    /** One turn of either batch loop: plan the next batch at `start`, post it at `at`
        and drain it. */
    method NextBatchOf(shared: bool, mem: Memory, segs: seq<Segment>, start: nat, at: nat, imm: Option<nat>,
                       ghost before: seq<Put>, ghost sent: seq<Put>, ghost whole: seq<Put>)
      returns (r: Outcome, end: nat, size: nat, ghost sent': seq<Put>)
      requires Valid() && start < |segs| && Sent(shared, before, s.a.puts, sent)
      requires whole == sent + BatchedPuts(maxSge, pa.sendPool, mem, segs[start..], at, imm)
      modifies `s, `fate, `moves, `own, `room
      ensures Valid() && Grown(old(moves), old(own), moves, own) && start < end <= |segs|
      ensures sent' <= whole && Sent(shared, before, s.a.puts, sent')
      ensures r.Finished? ==>
        && s.a.writesOut == 0 && !s.a.closed
        && whole == sent' + if end == |segs| then [] else BatchedPuts(maxSge, pa.sendPool, mem, segs[end..], at + size, imm)
      ensures r == Failed(PollFailed) <==> BrokeSince(|old(moves)|)
      ensures r.Failed? && !BrokeSince(|old(moves)|) ==> Idle(s.a)
      ensures Ends(r, shared, s.a, fate, r.Finished? || sent' == whole, imm)
      ensures r == Failed(TooLong) ==> TooLongIn(pa.sendPool, segs)
      ensures r.Finished? ==> !TooLongIn(pa.sendPool, segs[start..end])
    {
      hide Exec, Step, GatherPuts, BatchedPuts, NextBatch, Stream, Pack, Compatible, Sent, Broke, Grown, Inv;
      CompatibleSend(pa, pb);
      var n;
      n, size := NextBatchLen(segs[start..], maxSge, pa.sendPool);
      end := start + n;
      var last := if end == |segs| then imm else None;
      NextPuts(maxSge, pa.sendPool, mem, segs, start, n, at, imm, whole, sent);
      assert segs[start..][..n] == segs[start..end];
      ghost var batch := GatherPuts(maxSge, mem, segs[start..end], at, last);
      ghost var p, mine := s.a.puts, [];
      r, mine := PostAndDrain(shared, mem, segs[start..end], at, last);
      sent' := sent + mine;
      SentMore(shared, before, p, sent, s.a.puts, mine);
      PrefixOfWhole(sent, mine, batch, whole);
      BatchLengths(maxSge, pa.sendPool, mem, segs, start, n, at, last);
      RunInv(pa, pb, moves);
    }

    /** `rdma_write_gather_all_inner`: a gather in batches the send queue can hold. What
        has been posted when it stops is what `BatchedPuts` starts with, and all of it
        when it succeeds. */
    method GatherAll(mem: Memory, segs: seq<Segment>, addr: nat, imm: Option<nat>) returns (r: Outcome, ghost mine: seq<Put>)
      requires Valid()
      modifies `s, `fate, `moves, `own, `room
      ensures Valid() && Grown(old(moves), old(own), moves, own) && s.a.puts == old(s.a.puts) + mine
      ensures var whole := BatchedPuts(maxSge, pa.sendPool, mem, segs, addr, imm);
        && mine <= whole && Ends(r, false, s.a, fate, mine == whole, imm)
        && (r == Failed(TooLong) ==> TooLongIn(pa.sendPool, segs)) && (r.Finished? ==> !TooLongIn(pa.sendPool, segs))
      ensures r == Failed(PollFailed) <==> BrokeSince(|old(moves)|)
      ensures r.Failed? && !BrokeSince(|old(moves)|) ==> Idle(s.a)
    {
      hide Exec, Step, GatherPuts, BatchedPuts, Compatible, Sent, Broke, Grown, TooLongIn;
      assert !TooLongIn(pa.sendPool, []) by { NotTooLong(pa.sendPool); }
      ghost var before, whole := s.a.puts, BatchedPuts(maxSge, pa.sendPool, mem, segs, addr, imm);
      ghost var m0, o0 := moves, own;
      if segs == [] {
        NoSegments(maxSge, pa.sendPool, mem, addr, imm);
        CompatibleSend(pa, pb);
        r, mine := PostAndDrain(false, mem, [], addr, imm);
        SentAlone(before, s.a.puts, mine);
        return;
      }
      var start, base := 0, 0;
      mine := [];
      SentNothing(false, before);
      GrownNothing(pa, pb, moves, own);
      assert segs[0..] == segs && [] + whole == whole;
      r := Finished;
      while start < |segs|
        invariant Valid() && Grown(m0, o0, moves, own) && start <= |segs| && Sent(false, before, s.a.puts, mine) && r.Finished?
        invariant !BrokeSince(|m0|)
        invariant whole == mine + if start == |segs| then [] else BatchedPuts(maxSge, pa.sendPool, mem, segs[start..], addr + base, imm)
        invariant start == |segs| ==> s.a.writesOut == 0 && !s.a.closed
        invariant !TooLongIn(pa.sendPool, segs[..start])
        decreases |segs| - start
      {
        var size;
        ghost var m, o, first := moves, own, start;
        r, start, size, mine := NextBatchOf(false, mem, segs, start, addr + base, imm, before, mine, whole);
        StillGrown(pa, pb, m0, o0, m, o, moves, own);
        TooLongAppend(pa.sendPool, segs, first, start);
        if !r.Finished? {
          SentAlone(before, s.a.puts, mine);
          return;
        }
        base := base + size;
      }
      assert segs[..|segs|] == segs;
      SentAlone(before, s.a.puts, mine);
    }

    /** `drive_write`: the asynchronous form, whose guard tears the connection down when
        it is dropped with work requests posted. Whatever other tasks read, write and
        post on the same end meanwhile, it posts the same work requests as the blocking
        form, in the same order, among theirs; on success all of them have landed; and
        its sources can be released however it ends, unless it polled a completion that
        could not be handled, which is exactly when it reports that. */
    method DriveWrite(mem: Memory, segs: seq<Segment>, addr: nat, imm: Option<nat>) returns (r: Outcome, ghost mine: seq<Put>)
      requires Valid()
      modifies `s, `fate, `moves, `own, `room
      ensures Valid() && Grown(old(moves), old(own), moves, own) && Sent(true, old(s.a.puts), s.a.puts, mine)
      ensures var whole := BatchedPuts(maxSge, pa.sendPool, mem, segs, addr, imm);
        && mine <= whole && Ends(r, true, s.a, fate, mine == whole, imm)
        && (r == Failed(TooLong) ==> TooLongIn(pa.sendPool, segs)) && (r.Finished? ==> !TooLongIn(pa.sendPool, segs))
      ensures r.Finished? ==> old(s.a.puts) <= s.b.landed && Subseq(mine, s.b.landed[|old(s.a.puts)|..])
      ensures r == Failed(PollFailed) <==> BrokeSince(|old(moves)|)
      ensures !BrokeSince(|old(moves)|) ==> Idle(s.a)
    {
      hide Exec, Step, BatchedPuts, Subseq, Broke;
      ghost var m0, o0 := moves, own;
      r, mine := DriveBatches(mem, segs, addr, imm);
      if r.Finished? {
        WritesLanded(pa, pb, moves);
      }
      if r.CutOff? {
        ghost var m, o := moves, own;
        Dropped();
        StillGrown(pa, pb, m0, o0, m, o, moves, own);
      }
    }

    /** The body of the asynchronous driver, up to completion or to where it is dropped. */
    method DriveBatches(mem: Memory, segs: seq<Segment>, addr: nat, imm: Option<nat>) returns (r: Outcome, ghost mine: seq<Put>)
      requires Valid()
      modifies `s, `fate, `moves, `own, `room
      ensures Valid() && Grown(old(moves), old(own), moves, own) && Sent(true, old(s.a.puts), s.a.puts, mine)
      ensures var whole := BatchedPuts(maxSge, pa.sendPool, mem, segs, addr, imm);
        && mine <= whole && Ends(r, true, s.a, fate, mine == whole, imm)
        && (r == Failed(TooLong) ==> TooLongIn(pa.sendPool, segs)) && (r.Finished? ==> !TooLongIn(pa.sendPool, segs))
      ensures r == Failed(PollFailed) <==> BrokeSince(|old(moves)|)
      ensures r.Failed? && !BrokeSince(|old(moves)|) ==> Idle(s.a)
    {
      hide Exec, Step, GatherPuts, BatchedPuts, Compatible, Sent, Broke, Grown, TooLongIn;
      assert !TooLongIn(pa.sendPool, []) by { NotTooLong(pa.sendPool); }
      ghost var before, whole := s.a.puts, BatchedPuts(maxSge, pa.sendPool, mem, segs, addr, imm);
      ghost var m0, o0 := moves, own;
      if segs == [] {
        NoSegments(maxSge, pa.sendPool, mem, addr, imm);
        CompatibleSend(pa, pb);
        r, mine := PostAndDrain(true, mem, [], addr, imm);
        return;
      }
      var start, base, size := 0, 0, 0;
      mine := [];
      SentNothing(true, before);
      GrownNothing(pa, pb, moves, own);
      assert segs[0..] == segs && [] + whole == whole;
      while true
        invariant Valid() && Grown(m0, o0, moves, own) && start < |segs| && !BrokeSince(|m0|)
        invariant Sent(true, before, s.a.puts, mine)
        invariant whole == mine + BatchedPuts(maxSge, pa.sendPool, mem, segs[start..], addr + base, imm)
        invariant !TooLongIn(pa.sendPool, segs[..start])
        decreases |segs| - start
      {
        ghost var m, o, first := moves, own, start;
        r, start, size, mine := NextBatchOf(true, mem, segs, start, addr + base, imm, before, mine, whole);
        StillGrown(pa, pb, m0, o0, m, o, moves, own);
        TooLongAppend(pa.sendPool, segs, first, start);
        if !r.Finished? || start == |segs| {
          assert segs[..|segs|] == segs;
          return;
        }
        base := base + size;
      }
    }

    /** `WriteCancelGuard`, dropped while armed. */
    method Dropped()
      requires Valid()
      modifies `s, `moves, `own
      ensures Valid() && Grown(old(moves), old(own), moves, own) && Idle(s.a) && s.b == old(s.b)
      ensures s.a == if old(s.a.writesOut) > 0 then old(s.a).(alive := false) else old(s.a)
      ensures !BrokeSince(|old(moves)|)
    {
      hide Exec, Step, Broke;
      OthersNotBroke(pa, pb, moves, own, |moves|);
      if s.a.writesOut > 0 {
        StepFlags(s);
        Act(Kill);
      }
    }

    // ---- the blocking stream -------------------------------------------------------------

    /** `try_flush_stage` as moves of the system. */
    method FlushStage() returns (r: Result<bool, WriteError>)
      requires Valid()
      modifies `s, `moves, `own
      ensures Valid() && Grown(old(moves), old(own), moves, own) && s.a.wrote == old(s.a.wrote) && s.a.cq == old(s.a.cq)
      ensures r.Ok? ==> if r.value then s.a.txStage == [] else s.a.txStage != [] && !CanSend(s.a) && !CanReturn(s.a)
      ensures r.Err? ==> s.a.closed
    {
      hide Exec, Step, Compatible, Broke;
      if s.a.txStage == [] {
        return Ok(true);
      }
      RunStage(pa, pb, moves);
      StepFlush(s);
      var works := s.a.alive && s.a.accepts;
      if !CanSend(s.a) {
        if !CanReturn(s.a) {
          return Ok(false);
        }
        Act(Credit);
        return if works then Ok(false) else Err(PostFailed);
      }
      Act(Post([]));
      return if works then Ok(true) else Err(PostFailed);
    }

    /** The blocking `flush`. Success means nothing is staged or outstanding; and if the
        stream is then not closed, every byte ever accepted has arrived. */
    method Flush() returns (r: Outcome)
      requires Valid()
      modifies `s, `fate, `moves, `own, `room
      ensures Valid() && Grown(old(moves), old(own), moves, own) && s.a.wrote == old(s.a.wrote)
      ensures r.Finished? ==> Flushed(s.a)
      ensures r.Failed? ==> s.a.closed
      ensures r.CutOff? ==> fate == [] && s.a.cq == [] && !Flushed(s.a) && !s.a.closed
      ensures r.Finished? && !s.a.closed ==>
        s.a.wrote == Arrived(s.b)
    {
      hide Exec, Step, Compatible, FramesIn, HeldBytes, Flat, Broke, Inv;
      var clear := FlushStage();
      while clear.Ok? && !clear.value
        invariant Valid() && Grown(old(moves), old(own), moves, own) && s.a.wrote == old(s.a.wrote)
        invariant if clear.Err? then s.a.closed else clear.value <==> s.a.txStage == []
        decreases |fate|, |s.a.cq|
      {
        if s.a.closed {
          return Failed(BrokenPipe);
        }
        var w := Wait(false);
        if !w.Woken? {
          return if w.Asleep? then CutOff else Failed(PollFailed);
        }
        clear := FlushStage();
      }
      if clear.Err? {
        return Failed(clear.error);
      }
      r := AwaitAcks();
      RunInv(pa, pb, moves);
      if r.Finished? {
        RunFlushed(pa, pb, moves);
      }
    }

    /** The second half of `flush`: wait for every data send and one-sided write. */
    method AwaitAcks() returns (r: Outcome)
      requires Valid() && s.a.txStage == []
      modifies `s, `fate, `moves, `own, `room
      ensures Valid() && Grown(old(moves), old(own), moves, own) && s.a.wrote == old(s.a.wrote)
      ensures r.Finished? ==> s.a.txStage == [] && |s.a.sendFree| >= pa.sendPool && s.a.writesOut == 0
      ensures r.Failed? ==> s.a.closed
      ensures r.CutOff? ==> fate == [] && s.a.cq == [] && (|s.a.sendFree| < pa.sendPool || s.a.writesOut > 0) && !s.a.closed
    {
      hide Exec, Step, Compatible, Broke;
      while |s.a.sendFree| < pa.sendPool || s.a.writesOut > 0
        invariant Valid() && Grown(old(moves), old(own), moves, own) && s.a.wrote == old(s.a.wrote) && s.a.txStage == []
        decreases |fate|, |s.a.cq|
      {
        if s.a.closed {
          return Failed(BrokenPipe);
        }
        var w := Wait(false);
        if !w.Woken? {
          return if w.Asleep? then CutOff else Failed(PollFailed);
        }
      }
      return Finished;
    }

    /** `try_write` as moves of the system. It takes a prefix of the buffer, in order, and
        takes nothing only when no message can be sent. */
    method TryWrite(buf: seq<byte>) returns (r: Result<nat, WriteError>, ghost taken: nat)
      requires Valid()
      modifies `s, `moves, `own
      ensures Valid() && Grown(old(moves), old(own), moves, own) && s.a.cq == old(s.a.cq)
      ensures taken <= |buf| && s.a.wrote == old(s.a.wrote) + buf[..taken]
      ensures r.Ok? ==> r.value == taken && (taken < |buf| ==> !CanSend(s.a) && !CanReturn(s.a)) && (old(s.a.closed) ==> buf == [])
      ensures r.Err? ==> s.a.closed
    {
      hide Exec, Step, Compatible, Broke;
      taken := 0;
      assert s.a.wrote + buf[..0] == s.a.wrote;
      if s.a.closed {
        return Err(BrokenPipe), 0;
      }
      var n: nat := 0;
      while |s.a.txStage| + |buf| - n >= s.a.params.cap
        invariant Valid() && Grown(old(moves), old(own), moves, own) && s.a.cq == old(s.a.cq) && !s.a.closed
        invariant n == taken <= |buf| && s.a.wrote == old(s.a.wrote) + buf[..n]
        decreases |buf| - n
      {
        RunStage(pa, pb, moves);
        var works := s.a.alive && s.a.accepts;
        if !CanSend(s.a) {
          if CanReturn(s.a) {
            StepCredit(s);
            Act(Credit);
          }
          return if s.a.closed then Err(PostFailed) else Ok(n), n;
        }
        var k := s.a.params.cap - |s.a.txStage|;
        StepPost(s, buf[n..n + k]);
        Act(Post(buf[n..n + k]));
        if !works {
          return Err(PostFailed), n;
        }
        assert buf[..n] + buf[n..n + k] == buf[..n + k];
        n, taken := n + k, n + k;
      }
      if n < |buf| {
        StepStage(s, buf[n..]);
        Act(Stage(buf[n..]));
        assert buf[..n] + buf[n..] == buf && buf[..|buf|] == buf;
      }
      return Ok(|buf|), |buf|;
    }

    /** The blocking `write`: every byte is accepted, in order; it fails only on a closed
        stream, and then a prefix was accepted. */
    method Write(data: seq<byte>) returns (r: Outcome, ghost taken: nat)
      requires Valid()
      modifies `s, `fate, `moves, `own, `room
      ensures Valid() && Grown(old(moves), old(own), moves, own)
      ensures taken <= |data| && s.a.wrote == old(s.a.wrote) + data[..taken]
      ensures r.Finished? ==> taken == |data|
      ensures r.Failed? ==> s.a.closed
      ensures r.CutOff? ==> fate == [] && s.a.cq == [] && taken < |data| && !CanReturn(s.a)
      ensures old(s.a.closed) ==> r == Failed(BrokenPipe) && taken == 0
    {
      hide Exec, Step, Compatible, Broke;
      taken := 0;
      assert s.a.wrote + data[..0] == s.a.wrote;
      if s.a.closed {
        return Failed(BrokenPipe), 0;
      }
      var off := 0;
      while off < |data|
        invariant Valid() && Grown(old(moves), old(own), moves, own)
        invariant 0 <= off == taken <= |data| && s.a.wrote == old(s.a.wrote) + data[..off]
        decreases |data| - off, |fate|, |s.a.cq|
      {
        var n;
        ghost var k;
        n, k := TryWrite(data[off..]);
        assert data[..off] + data[off..][..k] == data[..off + k];
        taken := off + k;
        if n.Err? {
          return Failed(n.error), taken;
        }
        if n.value == 0 {
          var w := Wait(false);
          if !w.Woken? {
            return if w.Asleep? then CutOff else Failed(PollFailed), taken;
          }
        }
        off := off + n.value;
      }
      return Finished, taken;
    }

    /** The copying loop of `try_read` as moves of the system: it hands over the oldest held
        bytes, as many as fit, and then returns credits from the threshold on. */
    method TryRead(len: nat) returns (ok: bool, n: nat)
      requires Valid() && s.a.rxReady != [] && len > 0
      modifies `s, `moves, `own
      ensures Valid() && Grown(old(moves), old(own), moves, own)
      ensures s.a.got + Held(s.a) == old(s.a.got + Held(s.a)) && 1 <= n <= len && |s.a.got| == |old(s.a.got)| + n
      ensures ok ==> n == Min(len, |Held(old(s.a))|) && (n == len || s.a.rxReady == [])
      ensures ok ==> s.a.grantPending < pa.Threshold() || !CanReturn(s.a)
      ensures !ok ==> s.a.closed
    {
      hide Exec, Step, Compatible, Broke, HeldBytes, RxOk;
      n := 0;
      while n < len && s.a.rxReady != []
        invariant Valid() && Grown(old(moves), old(own), moves, own)
        invariant s.a.got + Held(s.a) == old(s.a.got + Held(s.a)) && n <= len && |s.a.got| == |old(s.a.got)| + n
        invariant n == 0 ==> s.a.rxReady != []
        decreases len - n
      {
        RunHeld(pa, pb, moves);
        var r := s.a.rxReady[0];
        var take := Min(r.end - r.start, len - n);
        var works := s.a.alive && s.a.accepts;
        StepRead(s, take);
        Act(Action.Read(take));
        n := n + take;
        if take == r.end - r.start && !works {
          return false, n;
        }
      }
      HeldLength(s.a, old(s.a), n);
      ok := true;
      if s.a.grantPending >= pa.Threshold() && CanReturn(s.a) {
        StepCredit(s);
        Act(Credit);
        ok := !s.a.closed;
      }
    }

    /** The blocking `read`: some of the next bytes of the stream, or the end of it. */
    method Read(len: nat) returns (r: Outcome, n: nat)
      requires Valid()
      modifies `s, `fate, `moves, `own, `room
      ensures Valid() && Grown(old(moves), old(own), moves, own)
      ensures n <= len && old(s.a.got) <= s.a.got && |s.a.got| == |old(s.a.got)| + n
      ensures r.Finished? && n == 0 && len > 0 ==> s.a.closed && s.a.rxReady == []
      ensures r.Failed? ==> s.a.closed
      ensures r.CutOff? ==>
        && fate == [] && s.a.cq == [] && n == 0 && s.a.rxReady == [] && !s.a.closed
        && (s.a.grantPending < pa.Threshold() || !CanReturn(s.a))
      ensures r.Finished? ==> n == len || s.a.rxReady == []
    {
      hide Exec, Step, Compatible, Broke, HeldBytes;
      n := 0;
      if len == 0 {
        return Finished, 0;
      }
      while s.a.rxReady == []
        invariant Valid() && Grown(old(moves), old(own), moves, own) && s.a.got == old(s.a.got)
        decreases |fate|, |s.a.cq|
      {
        if s.a.closed {
          return Finished, 0;
        }
        if s.a.grantPending >= pa.Threshold() && CanReturn(s.a) {
          StepCredit(s);
          Act(Credit);
          if s.a.closed {
            return Failed(PostFailed), 0;
          }
        }
        var w := Wait(false);
        if !w.Woken? {
          return if w.Asleep? then CutOff else Failed(PollFailed), 0;
        }
      }
      var ok;
      ghost var p := s.a;
      ok, n := TryRead(len);
      PrefixRead(p.got, Held(p), s.a.got, Held(s.a));
      return if ok then Finished else Failed(PostFailed), n;
    }
  }

  /** A driver that returns with its write still with the NIC: from the run above, the
      loop both drivers drain with reports the failed poll at once, over a connection
      that works. */
  method EarlyReturn(shared: bool) returns (d: Driver, r: Outcome)
    ensures fresh(d) && d.Valid() && r == Failed(PollFailed) && d.s.a.alive && !Idle(d.s.a)
  {
    hide Exec, Broke, HandleFails;
    Jammed();
    var params := Params(64, 8, 4, 1, true, 1, 1);
    d := new Driver(params, params, 1, JammedRun(), 0, []);
    r := d.Drain(shared);
  }

  lemma StillGrown(pa: Params, pb: Params, m0: seq<Move>, o0: seq<bool>, m: seq<Move>, o: seq<bool>, m1: seq<Move>, o1: seq<bool>)
    requires Grown(m0, o0, m, o) && Grown(m, o, m1, o1)
    ensures Grown(m0, o0, m1, o1)
    ensures Broke(pa, pb, m1, o1, |m0|) <==> Broke(pa, pb, m, o, |m0|) || Broke(pa, pb, m1, o1, |m|)
  {
    hide Broke;
    BrokeSplit(pa, pb, m, o, m1, o1, |m0|);
  }

  lemma GrownNothing(pa: Params, pb: Params, m: seq<Move>, o: seq<bool>)
    requires |m| == |o|
    ensures Grown(m, o, m, o) && !Broke(pa, pb, m, o, |m|)
  {
    hide Broke;
    OthersNotBroke(pa, pb, m, o, |m|);
  }

  lemma StepCredit(s: Sys)
    requires CanReturn(s.a)
    ensures var t := Step(s, Move(true, Credit));
      && t.a.wrote == s.a.wrote && t.a.cq == s.a.cq && t.a.closed == !Posts(s.a) && t.a.got == s.a.got && !CanReturn(t.a)
      && t.a.rxReady == s.a.rxReady && t.a.recvMem == s.a.recvMem && t.a.sendFree == s.a.sendFree && t.a.sendCredits == s.a.sendCredits
  {
    hide Store;
  }

  lemma StepPost(s: Sys, bs: seq<byte>)
    requires CanSend(s.a) && 1 <= |s.a.txStage| + |bs| <= s.a.params.cap
    ensures var t := Step(s, Move(true, Post(bs)));
      && t.a.cq == s.a.cq && t.a.txStage == [] && t.a.params == s.a.params && t.a.closed == !Posts(s.a)
      && t.a.wrote == if Posts(s.a) then s.a.wrote + bs else s.a.wrote
  {
    hide Store;
  }

  /** What is held can be read, in every run. */
  lemma RunHeld(pa: Params, pb: Params, moves: seq<Move>)
    requires Compatible(pa, pb)
    ensures var p := Exec(Start(pa, pb), moves).a; p.rxReady != [] ==> ReadyOk(p.recvMem, p.rxReady[0])
  {
    hide Exec, SendOk, WriteOk, Safe, Lossless, InOrder, FramesIn, Flat;
    RunInv(pa, pb, moves);
  }

  lemma StepRead(s: Sys, k: nat)
    requires CanRead(s.a, k)
    ensures var t := Step(s, Move(true, Action.Read(k)));
      && t.a.got + Held(t.a) == s.a.got + Held(s.a) && |t.a.got| == |s.a.got| + k
      && t.a.closed == (s.a.closed || (!Posts(s.a) && k == s.a.rxReady[0].end - s.a.rxReady[0].start))
  {
    hide HeldBytes, ReadSome;
    ReadBytes(s.a, k, ReadSome(s.a, k));
    ReadMoves(s.a, k, ReadSome(s.a, k));
  }

  lemma HeldLength(p: Peer, p0: Peer, n: nat)
    requires p.got + Held(p) == p0.got + Held(p0) && |p.got| == |p0.got| + n
    ensures n <= |Held(p0)| && (p.rxReady == [] ==> n == |Held(p0)|)
  {
    assert |p.got + Held(p)| == |p.got| + |Held(p)| && |p0.got + Held(p0)| == |p0.got| + |Held(p0)|;
  }

  lemma PrefixRead(g0: seq<byte>, h0: seq<byte>, g: seq<byte>, h: seq<byte>)
    requires g + h == g0 + h0 && |g0| <= |g|
    ensures g0 <= g
  {
    assert g0 == (g0 + h0)[..|g0|] && g == (g + h)[..|g|];
  }

  lemma StepStage(s: Sys, bs: seq<byte>)
    requires !s.a.closed && bs != [] && |s.a.txStage| + |bs| < s.a.params.cap
    ensures var t := Step(s, Move(true, Stage(bs))); t.a.wrote == s.a.wrote + bs && t.a.cq == s.a.cq && t.a.closed == s.a.closed
  {
  }

  lemma SentAlone(before: seq<Put>, puts: seq<Put>, mine: seq<Put>)
    requires Sent(false, before, puts, mine)
    ensures puts == before + mine
  {
  }
}
