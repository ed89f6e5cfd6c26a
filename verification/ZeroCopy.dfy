/** Serving a zero-copy response: the decision, the write, and what the reported status
    is worth. */
module ZeroCopy {
  import opened Basics
  import opened StreamState
  import opened StreamSystem
  import opened StreamSteps
  import opened StreamRuns
  import opened GatherPlan
  import opened GatherWrites
  import opened SplitPlane
  import opened WriteDrivers
  import opened SourcePools
  import opened HeaderCodec

  datatype Served = Status(status: RdmaWriteStatus) | Error | StillWriting

  /** The peer's memory holds the object at the address it gave, and nothing else that
      was posted since touched it: every posted write has landed, and those posted since
      `before` change exactly `[addr, addr + |content|)`. */
  ghost predicate Placed(s: Sys, before: seq<Put>, addr: nat, content: seq<byte>) {
    && s.b.landed == s.a.puts && before <= s.a.puts
    && forall a: nat, b: byte :: GatherWrites.After(s.a.puts[|before|..], a, b) ==
         if addr <= a < addr + |content| then content[a - addr] else b
  }

  lemma PlacedBy(pa: Params, pb: Params, moves: seq<Move>, before: seq<Put>, puts: seq<Put>, addr: nat, content: seq<byte>)
    requires Compatible(pa, pb) && Tiles(puts, addr, content)
    requires var s := Exec(Start(pa, pb), moves); s.a.puts == before + puts && s.a.writesOut == 0 && !s.a.closed
    ensures Placed(Exec(Start(pa, pb), moves), before, addr, content)
  {
    hide Exec, Tiles;
    var s := Exec(Start(pa, pb), moves);
    WritesLanded(pa, pb, moves);
    assert s.a.puts[|before|..] == puts;
    forall a: nat, b: byte
      ensures GatherWrites.After(puts, a, b) == if addr <= a < addr + |content| then content[a - addr] else b
    {
      TilesAfter(puts, addr, content, a, b);
    }
  }

  /** A batched gather whose driver finished has put its segments, one after the other,
      at the address it was given, and has changed nothing else. */
  lemma GatherPlaced(pa: Params, pb: Params, moves: seq<Move>, before: seq<Put>,
                     maxSge: nat, mem: Memory, segs: seq<Segment>, addr: nat, imm: Option<nat>)
    requires Compatible(pa, pb)
    ensures var s := Exec(Start(pa, pb), moves);
      s.a.puts == before + BatchedPuts(maxSge, pa.sendPool, mem, segs, addr, imm) && s.a.writesOut == 0 && !s.a.closed ==>
        Placed(s, before, addr, Contents(mem, segs))
  {
    hide Exec, BatchedPuts, Placed, Tiles;
    var s, puts := Exec(Start(pa, pb), moves), BatchedPuts(maxSge, pa.sendPool, mem, segs, addr, imm);
    BatchedPutsAre(maxSge, pa.sendPool, mem, segs, addr, imm);
    if s.a.puts == before + puts && s.a.writesOut == 0 && !s.a.closed {
      PlacedBy(pa, pb, moves, before, puts, addr, Contents(mem, segs));
    }
  }

  /** The same for an asynchronous write that shared its end: its bytes are in the peer's
      memory at every address that no other write posted since has touched. */
  lemma GatherPlacedAmong(pa: Params, pb: Params, moves: seq<Move>, before: seq<Put>,
                          maxSge: nat, mem: Memory, segs: seq<Segment>, addr: nat, imm: Option<nat>, a: nat, b: byte)
    requires Compatible(pa, pb)
    ensures var s, data := Exec(Start(pa, pb), moves), Contents(mem, segs);
      before <= s.a.puts && s.a.writesOut == 0 && !s.a.closed && addr <= a < addr + |data|
      && Among(BatchedPuts(maxSge, pa.sendPool, mem, segs, addr, imm), s.a.puts[|before|..], a) ==>
        s.b.landed == s.a.puts && GatherWrites.After(s.b.landed, a, b) == data[a - addr]
  {
    hide Exec, BatchedPuts, Tiles, Among, Contents;
    var s, data := Exec(Start(pa, pb), moves), Contents(mem, segs);
    var puts := BatchedPuts(maxSge, pa.sendPool, mem, segs, addr, imm);
    WritesLanded(pa, pb, moves);
    BatchedPutsAre(maxSge, pa.sendPool, mem, segs, addr, imm);
    if before <= s.a.puts && s.a.writesOut == 0 && !s.a.closed && addr <= a < addr + |data|
       && Among(puts, s.a.puts[|before|..], a) {
      assert s.a.puts == before + s.a.puts[|before|..];
      AfterAppend(before, s.a.puts[|before|..], a, b);
      AmongAfter(puts, s.a.puts[|before|..], addr, data, a, GatherWrites.After(before, a, b));
    }
  }

  lemma OneSegment(mem: Memory, g: Segment)
    ensures Contents(mem, [g]) == ReadSegment(mem, g)
  {
    assert [g][..0] == [];
    assert Contents(mem, []) + ReadSegment(mem, g) == ReadSegment(mem, g);
  }

  /** When no write is outstanding, or the queue pair is gone, the NIC reads no source
      any more: nothing it can still deliver is a one-sided write. */
  lemma SourceReleasable(pa: Params, pb: Params, moves: seq<Move>)
    requires Compatible(pa, pb)
    ensures var s := Exec(Start(pa, pb), moves);
      WriteDrivers.Idle(s.a) ==> !s.a.alive || (forall w <- s.a.sq + s.a.unacked :: !w.OneSided?)
  {
    hide Exec, SendOk, RecvOk, Safe, Lossless, Flat;
    var s := Exec(Start(pa, pb), moves);
    RunInv(pa, pb, moves);
    if s.a.writesOut == 0 {
      NoPuts(s.a.sq);
      NoPuts(s.a.unacked);
    }
  }

  lemma {:induction false} NoPuts(ws: seq<WorkRequest>)
    requires Flat(PutOf, ws) == []
    ensures forall w <- ws :: !w.OneSided?
  {
    if ws != [] {
      FlatHead(PutOf, ws);
      NoPuts(ws[1..]);
      assert ws == [ws[0]] + ws[1..];
    }
  }

  /** The IDs a write announces: the one it is given, once, or none. */
  function Announced(id: Option<nat>): seq<nat> { if id.Some? then [id.value] else [] }

  lemma {:induction false} NoIds(puts: seq<Put>)
    requires forall i :: 0 <= i < |puts| ==> puts[i].imm.None?
    ensures Ids(puts) == []
  {
    if puts != [] {
      NoIds(puts[1..]);
    }
  }

  lemma ImmIds(puts: seq<Put>, imm: Option<nat>)
    requires ImmAtEnd(puts, imm)
    ensures Ids(puts) == Announced(imm)
  {
    if puts != [] {
      var n := |puts| - 1;
      NoIds(puts[..n]);
      FlatSnoc(ImmOf, puts[..n], puts[n]);
      assert puts == puts[..n] + [puts[n]];
    }
  }

  /** One segment is too long for the send pool exactly when all of the pool's work
      requests could not carry it. */
  lemma OneTooLong(maxSge: nat, sendPool: nat, mem: Memory, src: Segment, addr: nat, imm: Option<nat>)
    requires sendPool >= 1
    ensures |GatherPuts(maxSge, mem, [src], addr, imm)| > sendPool <==> src.len > sendPool * WRITE_WR_MAX
  {
    hide GatherPuts, Count;
    GatherCount(maxSge, mem, [src], addr, imm);
    SoloCount(Clamp(maxSge), src, sendPool);
  }

  /** `run_write_plan` over an acquired source buffer of `bufLen` bytes, which the segment
      must not exceed: the bytes are written, and the ID if there is one. */
  method RunWritePlan(d: Driver, mem: Memory, src: Segment, addr: nat, imm: Option<nat>, ghost bufLen: nat) returns (r: Outcome)
    requires d.Valid() && src.len <= bufLen
    modifies d
    ensures d.Valid() && (r.Finished? ==> Placed(d.s, old(d.s.a.puts), addr, ReadSegment(mem, src)))
    ensures r.Finished? ==> old(d.s.a.puts) <= d.s.a.puts && Ids(d.s.a.puts[|old(d.s.a.puts)|..]) == Announced(imm)
    ensures Ends(r, false, d.s.a, d.fate, r.Finished?, imm) && d.s.a.params == d.pa
    ensures r == Failed(TooLong) ==> src.len > d.pa.sendPool * WRITE_WR_MAX
    ensures r.Finished? ==> src.len <= d.pa.sendPool * WRITE_WR_MAX
    ensures Grown(old(d.moves), old(d.own), d.moves, d.own)
    ensures r == Failed(PollFailed) <==> d.BrokeSince(|old(d.moves)|)
    ensures r.Failed? && !d.BrokeSince(|old(d.moves)|) ==> WriteDrivers.Idle(d.s.a)
  {
    hide Exec, Placed, GatherPuts, Sent, Broke, Ids, ImmAtEnd, Tiles, Inv;
    ghost var before, mine := d.s.a.puts, [];
    r, mine := d.PostAndDrain(false, mem, [src], addr, imm);
    SentAlone(before, d.s.a.puts, mine);
    OneTooLong(d.maxSge, d.pa.sendPool, mem, src, addr, imm);
    RunInv(d.pa, d.pb, d.moves);
    if r.Finished? {
      assert d.s.a.puts[|before|..] == mine;
      ImmIds(mine, imm) by { GatherPutsAre(d.maxSge, mem, [src], addr, imm); }
      GatherPutsAre(d.maxSge, mem, [src], addr, imm);
      OneSegment(mem, src);
      PlacedBy(d.pa, d.pb, d.moves, before, GatherPuts(d.maxSge, mem, [src], addr, imm), addr, ReadSegment(mem, src));
    }
  }

  /** `serve_rdma_write`. `registered` is where the source is, if registering works; the
      object is what `fill` puts there. Complete is reported only when the whole object
      is in the client's buffer; TooLarge writes nothing; and when the source is released
      nothing can still read it, unless the driver polled a completion that could not be
      handled (`WriteDrivers.EarlyReturn`), which is always an error. */
  method ServeRdmaWrite(d: Driver, req: RdmaWriteReq, objectSize: nat, mem: Memory, registered: Option<(nat, nat)>)
    returns (r: Served)
    requires d.Valid()
    modifies d
    ensures d.Valid()
    ensures r.Status? && r.status.Complete? ==>
      && r.status.bytesWritten == objectSize <= req.len
      && ((d.s == old(d.s) && objectSize == 0) ||
          (registered.Some? && Placed(d.s, old(d.s.a.puts), req.addr,
             ReadSegment(mem, Segment(registered.value.0, registered.value.1, objectSize)))))
    ensures r.Status? && r.status.Complete? ==>
      && old(d.s.a.puts) <= d.s.a.puts
      && Ids(d.s.a.puts[|old(d.s.a.puts)|..]) == Announced(if d.pa.splitOn then req.id else None)
    ensures r.Status? && r.status.TooLarge? ==> d.s == old(d.s) && r.status.objectSize == objectSize
    ensures r.Status? && r.status.TooLarge? <==> objectSize > req.len || objectSize > USIZE_MAX
    ensures r != Status(Declined)
    ensures r.Error? ==>
      || registered.None? || d.s.a.closed || objectSize > d.pa.sendPool * WRITE_WR_MAX
      || (d.pa.splitOn && req.id.Some? && d.pa.peerSplit == 0)
    ensures r.StillWriting? ==> d.fate == [] && d.s.a.cq == []
    ensures d.BrokeSince(|old(d.moves)|) ==> r.Error?
    ensures r.Error? && !d.BrokeSince(|old(d.moves)|) ==> registered.None? || WriteDrivers.Idle(d.s.a)
  {
    hide Exec, Placed, Broke, Ids;
    GrownNothing(d.pa, d.pb, d.moves, d.own);
    assert Ids(d.s.a.puts[|d.s.a.puts|..]) == [] by { NoIds([]); assert d.s.a.puts[|d.s.a.puts|..] == []; }
    var action := Decide(req, objectSize, d.pa.splitOn);
    if action.Respond? {
      return Status(action.status);
    }
    if registered.None? {
      return Error;
    }
    var src := Segment(registered.value.0, registered.value.1, action.payloadLen);
    var outcome := RunWritePlan(d, mem, src, req.addr, action.transferId, action.sourceLen);
    match outcome {
      case Finished => r := Status(Complete(action.payloadLen));
      case Failed(_) => r := Error;
      case CutOff => r := StillWriting;
    }
  }

  /** `serve_rdma_write_pooled`: the same with a leased source, which goes back to the
      pool when the write is over. */
  method ServeRdmaWritePooled(d: Driver, pool: SourcePool, req: RdmaWriteReq, objectSize: nat, mem: Memory, mr: Option<nat>)
    returns (r: Served, ghost src: Segment)
    requires d.Valid() && PoolOk(pool.View()) && (mr.Some? ==> mr.value == pool.made)
    modifies d, pool
    ensures d.Valid() && PoolOk(pool.View())
    ensures r.Status? && r.status.Complete? ==>
      && r.status.bytesWritten == objectSize <= req.len
      && ((d.s == old(d.s) && objectSize == 0) ||
          (src.len == objectSize && Placed(d.s, old(d.s.a.puts), req.addr, ReadSegment(mem, src))))
    ensures r.Status? && r.status.Complete? ==>
      && old(d.s.a.puts) <= d.s.a.puts
      && Ids(d.s.a.puts[|old(d.s.a.puts)|..]) == Announced(if d.pa.splitOn then req.id else None)
    ensures r.Status? && r.status.TooLarge? ==>
      d.s == old(d.s) && pool.View() == old(pool.View()) && r.status.objectSize == objectSize
    ensures r.Status? && r.status.TooLarge? <==> objectSize > req.len || objectSize > USIZE_MAX
    ensures r != Status(Declined)
    ensures r.Error? && mr.Some? ==>
      || d.s.a.closed || objectSize > d.pa.sendPool * WRITE_WR_MAX
      || (d.pa.splitOn && req.id.Some? && d.pa.peerSplit == 0)
    ensures r.StillWriting? ==> d.fate == [] && d.s.a.cq == []
    ensures !r.StillWriting? ==> pool.out == old(pool.out)
    ensures d.BrokeSince(|old(d.moves)|) ==> r.Error?
    ensures r.Error? && mr.Some? && !d.BrokeSince(|old(d.moves)|) ==> WriteDrivers.Idle(d.s.a)
  {
    hide Exec, Placed, PoolOk, Acquire, Broke, Ids;
    GrownNothing(d.pa, d.pb, d.moves, d.own);
    assert Ids(d.s.a.puts[|d.s.a.puts|..]) == [] by { NoIds([]); assert d.s.a.puts[|d.s.a.puts|..] == []; }
    src := Segment(0, 0, 0);
    var action := Decide(req, objectSize, d.pa.splitOn);
    if action.Respond? {
      return Status(action.status), src;
    }
    var lease := pool.AcquireBuffer(action.sourceLen, mr);
    if lease.None? {
      return Error, src;
    }
    var source := Segment(lease.value.buf.id, 0, action.payloadLen);
    src := source;
    var outcome := RunWritePlan(d, mem, source, req.addr, action.transferId, lease.value.buf.len);
    if outcome.CutOff? {
      return StillWriting, src;
    }
    ghost var i: nat := |pool.out| - 1;
    pool.DropLease(lease.value, i);
    assert pool.out == old(pool.out);
    r := if outcome.Finished? then Status(Complete(action.payloadLen)) else Error;
  }
}
