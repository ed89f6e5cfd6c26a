/** What a gather does to the peer's memory: it equals one contiguous copy. */
module GatherWrites {
  import opened Basics
  import opened StreamState
  import opened GatherPlan
  import opened GatherBatches

  /** Local registered memory, by key and address. */
  type Memory = (nat, nat) -> byte

  function ReadSources(mem: Memory, b: seq<Source>): (r: seq<byte>)
    ensures |r| == |b|
  {
    seq<byte>(|b|, i requires 0 <= i < |b| => mem(b[i].lkey, b[i].addr))
  }

  function ReadSegment(mem: Memory, g: Segment): (r: seq<byte>)
    ensures |r| == g.len
  {
    seq<byte>(g.len, i requires 0 <= i < g.len => mem(g.lkey, g.addr + i))
  }

  /** The bytes of the segments, one after the other. */
  function Contents(mem: Memory, segs: seq<Segment>): seq<byte> {
    if segs == [] then [] else Contents(mem, segs[..|segs| - 1]) + ReadSegment(mem, segs[|segs| - 1])
  }

  lemma {:induction false} ContentsIs(mem: Memory, segs: seq<Segment>)
    ensures Contents(mem, segs) == ReadSources(mem, Stream(segs))
  {
    hide Stream, SegmentBytes;
    if segs == [] {
      NoContents(mem);
    } else {
      var n := |segs| - 1;
      ContentsIs(mem, segs[..n]);
      StreamSnoc(segs, n);
      SegmentContents(mem, segs[n]);
      ReadAppend(mem, Stream(segs[..n]), SegmentBytes(segs[n]));
    }
  }

  lemma NoContents(mem: Memory)
    ensures Contents(mem, []) == [] && ReadSources(mem, Stream([])) == []
  {
  }

  lemma StreamSnoc(segs: seq<Segment>, n: nat)
    requires |segs| == n + 1
    ensures Stream(segs) == Stream(segs[..n]) + SegmentBytes(segs[n])
  {
    FlatSnoc(SegmentBytes, segs[..n], segs[n]);
    assert segs == segs[..n] + [segs[n]];
  }

  lemma SegmentContents(mem: Memory, g: Segment)
    ensures ReadSegment(mem, g) == ReadSources(mem, SegmentBytes(g))
  {
  }

  lemma ReadAppend(mem: Memory, a: seq<Source>, b: seq<Source>)
    ensures ReadSources(mem, a + b) == ReadSources(mem, a) + ReadSources(mem, b)
  {
  }

  lemma {:induction false} ContentsAppend(mem: Memory, a: seq<Segment>, b: seq<Segment>)
    ensures Contents(mem, a + b) == Contents(mem, a) + Contents(mem, b)
  {
    if b == [] {
      assert a + b == a;
    } else {
      assert (a + b)[..|a + b| - 1] == a + b[..|b| - 1];
      ContentsAppend(mem, a, b[..|b| - 1]);
    }
  }

  // ---- the posted writes ---------------------------------------------------------------

  function Puts(mem: Memory, wrs: seq<Wr>, addr: nat): (r: seq<Put>)
    ensures |r| == |wrs|
  {
    if wrs == [] then []
    else
      var n := |wrs| - 1;
      Puts(mem, wrs[..n], addr) + [Put(addr + |Carried(wrs[..n])|, ReadSources(mem, Bytes(wrs[n])), None)]
  }

  /** The immediate rides the last work request, or an empty one of its own. */
  function WithImm(puts: seq<Put>, addr: nat, imm: Option<nat>): seq<Put> {
    if imm.None? then puts
    else if puts == [] then [Put(addr, [], imm)]
    else puts[..|puts| - 1] + [puts[|puts| - 1].(imm := imm)]
  }

  /** What one `begin_rdma_write_gather` posts. */
  function GatherPuts(maxSge: nat, mem: Memory, segs: seq<Segment>, addr: nat, imm: Option<nat>): seq<Put> {
    WithImm(Puts(mem, Plan(maxSge, segs), addr), addr, imm)
  }

  /** What a whole batched gather posts when nothing fails. */
  function BatchedPuts(maxSge: nat, budget: nat, mem: Memory, segs: seq<Segment>, addr: nat, imm: Option<nat>): seq<Put>
    decreases |segs|
  {
    if segs == [] then GatherPuts(maxSge, mem, [], addr, imm)
    else
      var n := NextBatch(Clamp(maxSge), budget, segs);
      if n == |segs| then GatherPuts(maxSge, mem, segs, addr, imm)
      else
        GatherPuts(maxSge, mem, segs[..n], addr, None)
        + BatchedPuts(maxSge, budget, mem, segs[n..], addr + |Stream(segs[..n])|, imm)
  }

  function ReadEntry(mem: Memory, e: Sge): seq<byte> { ReadSegment(mem, Segment(e.lkey, e.addr, e.length)) }

  /** What the NIC gathers for one work request. */
  function ReadEntries(mem: Memory, sges: seq<Sge>): seq<byte> {
    if sges == [] then [] else ReadEntries(mem, sges[..|sges| - 1]) + ReadEntry(mem, sges[|sges| - 1])
  }

  lemma {:induction false} ReadEntriesIs(mem: Memory, w: Wr)
    ensures ReadEntries(mem, Entries(w)) == ReadSources(mem, Bytes(w))
  {
    if w != [] {
      var n := |w| - 1;
      ReadEntriesIs(mem, w[..n]);
      FlatSnoc(Span, w[..n], w[n]);
      assert w == w[..n] + [w[n]];
      assert Entries(w)[..n] == Entries(w[..n]);
      assert ReadEntry(mem, Entry(w[n])) == ReadSources(mem, Span(w[n]));
    }
  }

  lemma {:induction false} EmittedAt(wrs: seq<Wr>, i: nat)
    requires i < |wrs|
    ensures Emitted(wrs)[i] == GatherWr(|Carried(wrs[..i])|, Entries(wrs[i]))
  {
    hide Carried;
    var n := |wrs| - 1;
    if i < n {
      EmittedAt(wrs[..n], i);
      assert wrs[..n][..i] == wrs[..i];
    }
  }

  lemma PutsSnoc(mem: Memory, wrs: seq<Wr>, addr: nat, i: nat)
    requires i < |wrs|
    ensures Puts(mem, wrs[..i + 1], addr) == Puts(mem, wrs[..i], addr) +
      [Put(addr + |Carried(wrs[..i])|, ReadSources(mem, Bytes(wrs[i])), None)]
  {
    hide Carried;
    assert wrs[..i + 1][..i] == wrs[..i];
  }

  /** The posting pass of `begin_rdma_write_gather_inner`: the immediate on the last of
      the planned work requests, or on an empty one when nothing was planned. */
  method DescribeWrites(mem: Memory, plan: seq<GatherWr>, addr: nat, imm: Option<nat>, ghost wrs: seq<Wr>)
    returns (puts: seq<Put>)
    requires plan == Emitted(wrs)
    ensures puts == WithImm(Puts(mem, wrs, addr), addr, imm)
  {
    hide Puts, Carried, Emitted;
    puts := [];
    assert wrs[..0] == [] && Puts(mem, [], addr) == [] && wrs[..|wrs|] == wrs;
    if |plan| == 0 {
      if imm.Some? {
        puts := [Put(addr, [], imm)];
      }
      return;
    }
    for i := 0 to |plan|
      invariant i < |plan| ==> puts == Puts(mem, wrs[..i], addr)
      invariant i == |plan| ==> puts == WithImm(Puts(mem, wrs, addr), addr, imm)
    {
      EmittedAt(wrs, i);
      ReadEntriesIs(mem, wrs[i]);
      PutsSnoc(mem, wrs, addr, i);
      var here := if i == |plan| - 1 then imm else None;
      puts := puts + [Put(addr + plan[i].off, ReadEntries(mem, plan[i].sges), here)];
      if i == |plan| - 1 {
        assert Puts(mem, wrs, addr)[..i] == Puts(mem, wrs[..i], addr);
      }
    }
  }

  // ---- memory --------------------------------------------------------------------------

  predicate Covers(t: Put, a: nat) { t.addr <= a < t.addr + |t.data| }

  /** The byte at address `a` after the writes, in order, over an initial `b`. */
  function After(puts: seq<Put>, a: nat, b: byte): byte {
    if puts == [] then b
    else
      var t := puts[|puts| - 1];
      if Covers(t, a) then t.data[a - t.addr] else After(puts[..|puts| - 1], a, b)
  }

  lemma {:induction false} AfterAppend(p: seq<Put>, q: seq<Put>, a: nat, b: byte)
    ensures After(p + q, a, b) == After(q, a, After(p, a, b))
  {
    if q == [] {
      assert p + q == p;
    } else {
      assert (p + q)[..|p + q| - 1] == p + q[..|q| - 1];
      AfterAppend(p, q[..|q| - 1], a, b);
    }
  }

  /** The writes lay `data` down at `addr` without a gap or an overlap. */
  predicate Tiles(puts: seq<Put>, addr: nat, data: seq<byte>) {
    if puts == [] then data == []
    else
      var n, t := |puts| - 1, puts[|puts| - 1];
      |t.data| <= |data| && t.addr == addr + |data| - |t.data| && t.data == data[|data| - |t.data|..]
      && Tiles(puts[..n], addr, data[..|data| - |t.data|])
  }

  lemma {:induction false} TilesAfter(puts: seq<Put>, addr: nat, data: seq<byte>, a: nat, b: byte)
    requires Tiles(puts, addr, data)
    ensures After(puts, a, b) == if addr <= a < addr + |data| then data[a - addr] else b
  {
    if puts != [] {
      TilesAfter(puts[..|puts| - 1], addr, data[..|data| - |puts[|puts| - 1].data|], a, b);
    }
  }

  lemma TilesSnoc(puts: seq<Put>, addr: nat, data: seq<byte>, t: Put)
    requires Tiles(puts, addr, data) && t.addr == addr + |data|
    ensures Tiles(puts + [t], addr, data + t.data)
  {
    assert (puts + [t])[..|puts|] == puts;
    assert (data + t.data)[..|data|] == data && (data + t.data)[|data|..] == t.data;
  }

  lemma TilesLast(puts: seq<Put>, addr: nat, data: seq<byte>)
    requires Tiles(puts, addr, data) && puts != []
    ensures var t := puts[|puts| - 1];
      && |t.data| <= |data| && t.addr == addr + |data| - |t.data|
      && data == data[..|data| - |t.data|] + t.data && Tiles(puts[..|puts| - 1], addr, data[..|data| - |t.data|])
  {
    var t := puts[|puts| - 1];
    assert data == data[..|data| - |t.data|] + data[|data| - |t.data|..];
  }

  lemma {:induction false} TilesAppend(p: seq<Put>, q: seq<Put>, addr: nat, x: seq<byte>, y: seq<byte>)
    requires Tiles(p, addr, x) && Tiles(q, addr + |x|, y)
    ensures Tiles(p + q, addr, x + y)
    decreases q, 1
  {
    if q == [] {
      assert p + q == p && x + y == x;
    } else {
      TilesMore(p, q, addr, x, y);
    }
  }

  lemma {:induction false} TilesMore(p: seq<Put>, q: seq<Put>, addr: nat, x: seq<byte>, y: seq<byte>)
    requires Tiles(p, addr, x) && Tiles(q, addr + |x|, y) && q != []
    ensures Tiles(p + q, addr, x + y)
    decreases q, 0
  {
    hide Tiles;
    var n, t := |q| - 1, q[|q| - 1];
    TilesLast(q, addr + |x|, y);
    var y' := y[..|y| - |t.data|];
    TilesAppend(p, q[..n], addr, x, y');
    TilesSnoc(p + q[..n], addr, x + y', t);
    assert q == q[..n] + [t];
    Associate(p, q[..n], [t]);
    Associate(x, y', t.data);
  }

  lemma {:induction false} PutsTile(mem: Memory, wrs: seq<Wr>, addr: nat)
    ensures Tiles(Puts(mem, wrs, addr), addr, ReadSources(mem, Carried(wrs)))
    ensures forall t <- Puts(mem, wrs, addr) :: t.imm.None?
  {
    hide Tiles;
    if wrs == [] {
      NothingTiles(addr);
      assert ReadSources(mem, Carried(wrs)) == [];
    } else {
      var n := |wrs| - 1;
      PutsTile(mem, wrs[..n], addr);
      CarriedSnoc(wrs[..n], wrs[n]);
      assert wrs == wrs[..n] + [wrs[n]];
      var before, here := ReadSources(mem, Carried(wrs[..n])), ReadSources(mem, Bytes(wrs[n]));
      assert before + here == ReadSources(mem, Carried(wrs));
      TilesSnoc(Puts(mem, wrs[..n], addr), addr, before, Put(addr + |before|, here, None));
    }
  }

  lemma NothingTiles(addr: nat)
    ensures Tiles([], addr, [])
  {
  }

  lemma WithImmTiles(puts: seq<Put>, addr: nat, data: seq<byte>, imm: Option<nat>)
    requires Tiles(puts, addr, data)
    ensures Tiles(WithImm(puts, addr, imm), addr, data)
  {
    if imm.Some? {
      if puts == [] {
        TilesSnoc([], addr, [], Put(addr, [], imm));
        assert [] + [Put(addr, [], imm)] == [Put(addr, [], imm)];
      } else {
        var n, t := |puts| - 1, puts[|puts| - 1];
        assert (puts[..n] + [t.(imm := imm)])[..n] == puts[..n];
      }
    }
  }

  /** The immediate, if there is one, is on the last write and on no other. */
  predicate ImmAtEnd(puts: seq<Put>, imm: Option<nat>) {
    && ImmLast(puts) && (imm.Some? ==> puts != []) && (puts != [] ==> puts[|puts| - 1].imm == imm)
  }

  lemma WithImmEnds(puts: seq<Put>, addr: nat, imm: Option<nat>)
    requires forall t <- puts :: t.imm.None?
    ensures ImmAtEnd(WithImm(puts, addr, imm), imm)
  {
  }

  lemma GatherPutsAre(maxSge: nat, mem: Memory, segs: seq<Segment>, addr: nat, imm: Option<nat>)
    ensures Tiles(GatherPuts(maxSge, mem, segs, addr, imm), addr, Contents(mem, segs))
    ensures ImmAtEnd(GatherPuts(maxSge, mem, segs, addr, imm), imm)
  {
    hide Tiles, Pack, Puts, WithImm, ImmAtEnd, Contents, ReadSources, Packed, Carried, Stream;
    var wrs := Plan(maxSge, segs);
    PackSound(Clamp(maxSge), segs);
    ContentsIs(mem, segs);
    PutsTile(mem, wrs, addr);
    WithImmTiles(Puts(mem, wrs, addr), addr, Contents(mem, segs), imm);
    WithImmEnds(Puts(mem, wrs, addr), addr, imm);
  }

  lemma {:induction false} BatchedPutsAre(maxSge: nat, budget: nat, mem: Memory, segs: seq<Segment>, addr: nat, imm: Option<nat>)
    ensures Tiles(BatchedPuts(maxSge, budget, mem, segs, addr, imm), addr, Contents(mem, segs))
    ensures ImmAtEnd(BatchedPuts(maxSge, budget, mem, segs, addr, imm), imm)
    decreases |segs|
  {
    hide Tiles, GatherPuts, Contents, Stream, ImmAtEnd, NextBatch;
    GatherPutsAre(maxSge, mem, segs, addr, imm);
    if segs != [] {
      var n := NextBatch(Clamp(maxSge), budget, segs);
      if n < |segs| {
        var size := |Stream(segs[..n])|;
        GatherPutsAre(maxSge, mem, segs[..n], addr, None);
        BatchedPutsAre(maxSge, budget, mem, segs[n..], addr + size, imm);
        ContentsIs(mem, segs[..n]);
        ContentsAppend(mem, segs[..n], segs[n..]);
        assert segs == segs[..n] + segs[n..];
        var p, q := GatherPuts(maxSge, mem, segs[..n], addr, None), BatchedPuts(maxSge, budget, mem, segs[n..], addr + size, imm);
        TilesAppend(p, q, addr, Contents(mem, segs[..n]), Contents(mem, segs[n..]));
        ImmAppend(p, q, imm);
      }
    }
  }

  lemma ImmAppend(p: seq<Put>, q: seq<Put>, imm: Option<nat>)
    requires ImmAtEnd(p, None) && ImmAtEnd(q, imm)
    ensures ImmAtEnd(p + q, imm)
  {
    if q == [] { assert p + q == p; }
  }

  /** Both passes of `begin_rdma_write_gather_inner`: the plan is counted, and described
      with the immediate in its place. */
  method PlanWrites(maxSge: nat, mem: Memory, segs: seq<Segment>, addr: nat, imm: Option<nat>) returns (puts: seq<Put>, n: nat)
    ensures puts == GatherPuts(maxSge, mem, segs, addr, imm) && n == |puts|
    ensures ImmAtEnd(puts, imm)
  {
    hide Pack, Emitted, Puts;
    var plan, count := PlanGather(segs, maxSge);
    puts := DescribeWrites(mem, plan, addr, imm, Plan(maxSge, segs));
    n := if count == 0 && imm.Some? then 1 else count;
    GatherPutsAre(maxSge, mem, segs, addr, imm);
  }

  /** Gather equals one copy: the batched write changes exactly
      `[addr, addr + total)`, which then holds the segments one after the other, and an
      immediate rides exactly once, on the very last work request. */
  lemma GatherIsOneCopy(maxSge: nat, budget: nat, mem: Memory, segs: seq<Segment>, addr: nat, imm: Option<nat>, a: nat, b: byte)
    ensures var puts, data := BatchedPuts(maxSge, budget, mem, segs, addr, imm), Contents(mem, segs);
      && After(puts, a, b) == (if addr <= a < addr + |data| then data[a - addr] else b)
      && ImmAtEnd(puts, imm)
  {
    hide BatchedPuts, Contents;
    BatchedPutsAre(maxSge, budget, mem, segs, addr, imm);
    TilesAfter(BatchedPuts(maxSge, budget, mem, segs, addr, imm), addr, Contents(mem, segs), a, b);
  }

  // ---- among other writes ------------------------------------------------------------------

  /** The writes `t` are among `whole`, in order. */
  predicate Subseq(t: seq<Put>, whole: seq<Put>) {
    t == [] ||
    (whole != [] &&
     var n := |whole| - 1;
     ((t[|t| - 1] == whole[n] && Subseq(t[..|t| - 1], whole[..n])) || Subseq(t, whole[..n])))
  }

  lemma {:induction false} SubseqAppend(a: seq<Put>, x: seq<Put>, b: seq<Put>, y: seq<Put>)
    requires Subseq(a, x) && Subseq(b, y)
    ensures Subseq(a + b, x + y)
    decreases |y|
  {
    if y == [] {
      assert b == [] && a + b == a && x + y == x;
    } else {
      var n := |y| - 1;
      assert (x + y)[|x + y| - 1] == y[n] && (x + y)[..|x + y| - 1] == x + y[..n];
      if b != [] && b[|b| - 1] == y[n] && Subseq(b[..|b| - 1], y[..n]) {
        SubseqAppend(a, x, b[..|b| - 1], y[..n]);
        assert (a + b)[|a + b| - 1] == b[|b| - 1] && (a + b)[..|a + b| - 1] == a + b[..|b| - 1];
      } else {
        SubseqAppend(a, x, b, y[..n]);
      }
    }
  }

  lemma {:induction false} SubseqSelf(t: seq<Put>)
    ensures Subseq(t, t)
  {
    if t != [] {
      SubseqSelf(t[..|t| - 1]);
    }
  }

  lemma {:induction false} SubseqIn(t: seq<Put>, whole: seq<Put>, u: Put)
    requires Subseq(t, whole) && u in t
    ensures u in whole
    decreases |whole|
  {
    var n := |whole| - 1;
    if t[|t| - 1] == whole[n] && Subseq(t[..|t| - 1], whole[..n]) {
      if u != whole[n] {
        assert t == t[..|t| - 1] + [whole[n]];
        SubseqIn(t[..|t| - 1], whole[..n], u);
      }
    } else {
      SubseqIn(t, whole[..n], u);
    }
  }

  /** Every write of a tiling puts the right byte at the addresses it covers, and some
      write covers each. */
  lemma {:induction false} TilesByte(t: seq<Put>, addr: nat, data: seq<byte>, a: nat)
    requires Tiles(t, addr, data)
    ensures forall u <- t :: Covers(u, a) ==> addr <= a < addr + |data| && u.data[a - u.addr] == data[a - addr]
    ensures addr <= a < addr + |data| ==> exists u :: u in t && Covers(u, a)
  {
    if t != [] {
      var n, w := |t| - 1, t[|t| - 1];
      var rest := data[..|data| - |w.data|];
      TilesByte(t[..n], addr, rest, a);
      assert t == t[..n] + [w];
      if addr <= a < addr + |rest| {
        var u :| u in t[..n] && Covers(u, a);
        assert u in t;
      } else if addr <= a < addr + |data| {
        assert w in t && Covers(w, a);
      }
    }
  }

  /** `t` is among `whole` and no other write of `whole` touches address `a`. */
  predicate Among(t: seq<Put>, whole: seq<Put>, a: nat) {
    Subseq(t, whole) && forall u <- whole :: Covers(u, a) ==> u in t
  }

  lemma {:induction false} LastCovers(whole: seq<Put>, a: nat, b: byte, x: byte)
    requires forall u <- whole :: Covers(u, a) ==> u.data[a - u.addr] == x
    requires exists u :: u in whole && Covers(u, a)
    ensures After(whole, a, b) == x
  {
    var n := |whole| - 1;
    assert whole == whole[..n] + [whole[n]];
    if Covers(whole[n], a) {
      assert whole[n] in whole;
    } else {
      var u :| u in whole && Covers(u, a);
      assert u in whole[..n];
      LastCovers(whole[..n], a, b, x);
    }
  }

  /** A tiling among other writes has its bytes where none of those touch. */
  lemma AmongAfter(t: seq<Put>, whole: seq<Put>, addr: nat, data: seq<byte>, a: nat, b: byte)
    requires Tiles(t, addr, data) && Among(t, whole, a) && addr <= a < addr + |data|
    ensures After(whole, a, b) == data[a - addr]
  {
    hide Tiles, Subseq, After;
    TilesByte(t, addr, data, a);
    var u :| u in t && Covers(u, a);
    SubseqIn(t, whole, u);
    LastCovers(whole, a, b, data[a - addr]);
  }
}
