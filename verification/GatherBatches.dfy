/** Cutting a gather that needs more work requests than the send queue holds into
    batches (`next_batch_len`), and the loops that plan. */
module GatherBatches {
  import opened Basics
  import opened GatherPlan

  /** The longest prefix that packs into `budget` work requests. */
  function Longest(m: nat, budget: nat, segs: seq<Segment>): (r: nat)
    ensures r <= |segs|
  {
    if segs == [] then 0
    else
      var k := Longest(m, budget, segs[..|segs| - 1]);
      if k == |segs| - 1 && Count(m, segs) <= budget then |segs| else k
  }

  lemma {:induction false} LongestIs(m: nat, budget: nat, segs: seq<Segment>, j: nat)
    requires m >= 1 && j <= |segs|
    ensures Count(m, segs[..j]) <= budget <==> j <= Longest(m, budget, segs)
  {
    hide Count;
    assert segs[..|segs|] == segs;
    if segs == [] {
      EmptyCount(m);
    } else {
      var front := segs[..|segs| - 1];
      if j < |segs| {
        assert front[..j] == segs[..j];
        LongestIs(m, budget, front, j);
      } else {
        assert front[..|front|] == front;
        LongestIs(m, budget, front, |front|);
        CountSlice(m, segs, 0, |front|);
        assert segs[0..|front|] == front;
      }
    }
  }

  lemma EmptyCount(m: nat)
    ensures Count(m, []) == 0
  {
  }

  /** A segment too large for any batch makes a batch by itself. */
  function NextBatch(m: nat, budget: nat, segs: seq<Segment>): (r: nat)
    requires segs != []
    ensures 1 <= r <= |segs|
  {
    Max(1, Longest(m, budget, segs))
  }

  function Batches(m: nat, budget: nat, segs: seq<Segment>): seq<seq<Segment>> {
    if segs == [] then []
    else
      var n := NextBatch(m, budget, segs);
      [segs[..n]] + Batches(m, budget, segs[n..])
  }

  function Affordable(m: nat, budget: nat): seq<Segment> -> bool { s => Count(m, s) <= budget }

  lemma AffordableHereditary(m: nat, budget: nat)
    requires m >= 1
    ensures Hereditary(Affordable(m, budget))
  {
    hide Count;
    forall s: seq<Segment>, x: nat, y: nat | x <= y <= |s| && Affordable(m, budget)(s)
      ensures Affordable(m, budget)(s[x..y])
    {
      CountSlice(m, s, x, y);
    }
  }

  /** The batches tile the source, and each is as long as it can be. */
  lemma {:induction false} BatchesAre(m: nat, budget: nat, segs: seq<Segment>)
    requires m >= 1
    ensures Join(Batches(m, budget, segs)) == segs
    ensures Greedy(Affordable(m, budget), Batches(m, budget, segs))
  {
    hide NextBatch, Affordable, Join, Greedy;
    if segs == [] {
      NoBatches(m, budget);
    } else {
      var n := NextBatch(m, budget, segs);
      var rest := Batches(m, budget, segs[n..]);
      BatchesAre(m, budget, segs[n..]);
      assert segs == segs[..n] + segs[n..];
      if n < |segs| {
        FirstOf(Affordable(m, budget), rest, segs[n..]);
        TooMuch(m, budget, segs);
        assert segs[..n] + [rest[0][0]] == segs[..n + 1];
      }
      GreedyCons(Affordable(m, budget), segs[..n], rest);
    }
  }

  lemma NoBatches(m: nat, budget: nat)
    ensures Join<Segment>([]) == [] && Greedy(Affordable(m, budget), [])
  {
  }

  /** One more segment does not fit. */
  lemma TooMuch(m: nat, budget: nat, segs: seq<Segment>)
    requires m >= 1 && segs != [] && NextBatch(m, budget, segs) < |segs|
    ensures !Affordable(m, budget)(segs[..NextBatch(m, budget, segs) + 1])
  {
    hide Count, Longest;
    LongestIs(m, budget, segs, NextBatch(m, budget, segs) + 1);
  }

  /** Every batch passes the send-pool check, unless it is one segment that no batch can
      hold. */
  lemma {:induction false} BatchesFit(m: nat, budget: nat, segs: seq<Segment>)
    requires m >= 1
    ensures forall b <- Batches(m, budget, segs) :: Count(m, b) <= budget || |b| == 1
  {
    hide Count, Longest;
    if segs != [] {
      var n := NextBatch(m, budget, segs);
      BatchesFit(m, budget, segs[n..]);
      LongestIs(m, budget, segs, n);
    }
  }

  lemma FirstOf<T>(ok: seq<T> -> bool, parts: seq<seq<T>>, s: seq<T>)
    requires Join(parts) == s && s != [] && Greedy(ok, parts)
    ensures parts != [] && parts[0] != [] && parts[0][0] == s[0]
  {
  }

  lemma GreedyCons<T>(ok: seq<T> -> bool, p: seq<T>, parts: seq<seq<T>>)
    requires Greedy(ok, parts) && p != []
    requires parts != [] ==> parts[0] != [] && !ok(p + [parts[0][0]])
    ensures Greedy(ok, [p] + parts) && Join([p] + parts) == p + Join(parts)
  {
    var r := [p] + parts;
    assert r[1..] == parts;
    forall i | 0 <= i < |r| - 1 ensures !ok(r[i] + [r[i + 1][0]]) {
      if i > 0 { assert r[i] == parts[i - 1] && r[i + 1] == parts[i]; }
    }
  }

  /** Fewest batches: no way to cut the source at segment boundaries into batches that
      fit the send queue makes fewer batches. */
  lemma BatchesOptimal(m: nat, budget: nat, segs: seq<Segment>, other: seq<seq<Segment>>)
    requires m >= 1 && Join(other) == segs && forall i :: 0 <= i < |other| ==> Count(m, other[i]) <= budget
    ensures |Batches(m, budget, segs)| <= |other|
  {
    hide Count, Batches;
    BatchesAre(m, budget, segs);
    AffordableHereditary(m, budget);
    assert [] + segs == segs;
    StaysAhead(Affordable(m, budget), Batches(m, budget, segs), other, []);
  }

  // ---- the planning loops ------------------------------------------------------------

  lemma PackSnoc(m: nat, segs: seq<Segment>, i: nat)
    requires i < |segs|
    ensures Pack(m, segs[..i + 1]) == AddFrom(m, Pack(m, segs[..i]), segs[i], 0)
    ensures |Stream(segs[..i + 1])| == |Stream(segs[..i])| + segs[i].len
  {
    assert segs[..i + 1][..i] == segs[..i] && segs[..i + 1] == segs[..i] + [segs[i]];
    FlatSnoc(SegmentBytes, segs[..i], segs[i]);
  }

  /** The packer's counters describe the work requests `wrs`. */
  ghost predicate Counts(wrs: seq<Wr>, wrCount: nat, nSge: nat, wrBytes: nat) {
    && wrCount == SaturatingSub(|wrs|, 1) && nSge == |Last(wrs)| && wrBytes == |Bytes(Last(wrs))|
    && forall i :: 0 <= i < |wrs| ==> |wrs[i]| > 0
  }

  lemma CountsStep(m: nat, wrs: seq<Wr>, wrCount: nat, nSge: nat, wrBytes: nat, t: Piece)
    requires m >= 1 && Counts(wrs, wrCount, nSge, wrBytes)
    ensures Opens(m, wrs) == (wrs == [] || nSge == m || wrBytes >= WRITE_WR_MAX)
    ensures wrs == [] ==> nSge == 0 && wrBytes == 0 && wrCount == 0
    ensures Room(m, wrs) == if Opens(m, wrs) then WRITE_WR_MAX else WRITE_WR_MAX - wrBytes
    ensures var r := AddPiece(m, wrs, t);
      if wrs == [] then Counts(r, 0, 1, t.len)
      else if Opens(m, wrs) then Counts(r, wrCount + 1, 1, t.len)
      else Counts(r, wrCount, nSge + 1, wrBytes + t.len)
  {
    hide Bytes;
    BytesSnoc(Last(wrs), t);
    BytesSnoc([], t);
    assert [] + [t] == [t];
  }

  lemma BytesSnoc(w: Wr, t: Piece)
    ensures |Bytes(w + [t])| == |Bytes(w)| + t.len && |Bytes([])| == 0
  {
    FlatSnoc(Span, w, t);
  }

  /** One segment through the counting loop of `next_batch_len`. */
  method CountSegment(g: Segment, m: nat, wrCount0: nat, nSge0: nat, wrBytes0: nat, ghost wrs0: seq<Wr>)
    returns (wrCount: nat, nSge: nat, wrBytes: nat)
    requires m >= 1 && Counts(wrs0, wrCount0, nSge0, wrBytes0)
    ensures Counts(AddFrom(m, wrs0, g, 0), wrCount, nSge, wrBytes)
  {
    hide Counts, Opens, AddPiece, Room;
    wrCount, nSge, wrBytes := wrCount0, nSge0, wrBytes0;
    var off := 0;
    ghost var wrs := wrs0;
    while off < g.len
      invariant off <= g.len && Counts(wrs, wrCount, nSge, wrBytes)
      invariant AddFrom(m, wrs, g, off) == AddFrom(m, wrs0, g, 0)
    {
      ghost var k := Min(g.len - off, Room(m, wrs));
      CountsStep(m, wrs, wrCount, nSge, wrBytes, PieceAt(g, off, k));
      wrs := AddPiece(m, wrs, PieceAt(g, off, k));
      if nSge == m || wrBytes >= WRITE_WR_MAX {
        wrCount, nSge, wrBytes := wrCount + 1, 0, 0;
      }
      var take := Min(g.len - off, WRITE_WR_MAX - wrBytes);
      nSge, wrBytes, off := nSge + 1, wrBytes + take, off + take;
    }
  }

  /** `next_batch_len`: the longest prefix whose packing fits the budget, or the first
      segment alone, with its exact size. */
  method NextBatchLen(segs: seq<Segment>, maxSge: nat, wrBudget: nat) returns (n: nat, size: nat)
    requires segs != []
    ensures n == NextBatch(Clamp(maxSge), Max(wrBudget, 1), segs)
    ensures size == |Stream(segs[..n])|
    ensures Count(Clamp(maxSge), segs[..n]) <= Max(wrBudget, 1) || n == 1
    ensures forall j :: n < j <= |segs| ==> Count(Clamp(maxSge), segs[..j]) > Max(wrBudget, 1)
  {
    hide Counts, Stream, Pack, Longest;
    var m, budget := Clamp(maxSge), Max(wrBudget, 1);
    var wrCount, nSge, wrBytes, bytes, fit, fitBytes := 0, 0, 0, 0, 0, 0;
    EmptyPlan(m);
    assert segs[..0] == [];
    var i := 0;
    while i < |segs|
      invariant i == fit <= |segs| && fitBytes == bytes == |Stream(segs[..i])|
      invariant Counts(Pack(m, segs[..i]), wrCount, nSge, wrBytes) && Count(m, segs[..i]) <= budget
    {
      PackSnoc(m, segs, i);
      wrCount, nSge, wrBytes := CountSegment(segs[i], m, wrCount, nSge, wrBytes, Pack(m, segs[..i]));
      SealedIs(Pack(m, segs[..i + 1]), wrCount, nSge, wrBytes);
      bytes := bytes + segs[i].len;
      var sealed := wrCount + if nSge > 0 then 1 else 0;
      if sealed > budget {
        break;
      }
      fit, fitBytes := fit + 1, bytes;
      i := i + 1;
    }
    FitIsLongest(m, budget, segs, fit);
    if fit == 0 {
      n, size := 1, segs[0].len;
      PackSnoc(m, segs, 0);
    } else {
      n, size := fit, fitBytes;
    }
  }

  lemma EmptyPlan(m: nat)
    ensures Counts(Pack(m, []), 0, 0, 0) && Count(m, []) == 0 && |Stream([])| == 0 && Carried([]) == []
  {
  }

  lemma SealedIs(wrs: seq<Wr>, wrCount: nat, nSge: nat, wrBytes: nat)
    requires Counts(wrs, wrCount, nSge, wrBytes)
    ensures |wrs| == wrCount + if nSge > 0 then 1 else 0
  {
  }

  lemma FitIsLongest(m: nat, budget: nat, segs: seq<Segment>, fit: nat)
    requires m >= 1 && fit <= |segs| && Count(m, segs[..fit]) <= budget
    requires fit < |segs| ==> Count(m, segs[..fit + 1]) > budget
    ensures Longest(m, budget, segs) == fit
    ensures forall j :: fit < j <= |segs| ==> Count(m, segs[..j]) > budget
  {
    hide Count, Longest;
    LongestIs(m, budget, segs, fit);
    if fit < |segs| { LongestIs(m, budget, segs, fit + 1); }
    forall j | fit < j <= |segs| ensures Count(m, segs[..j]) > budget { LongestIs(m, budget, segs, j); }
  }

  // ---- plan_gather ---------------------------------------------------------------------

  datatype Sge = Sge(addr: nat, length: nat, lkey: nat)

  /** One call of the packer's callback. */
  datatype GatherWr = GatherWr(off: nat, sges: seq<Sge>)

  function Entry(t: Piece): Sge { Sge(t.addr, t.len, t.lkey) }

  function Entries(w: Wr): seq<Sge> { seq(|w|, i requires 0 <= i < |w| => Entry(w[i])) }

  /** Every work request at the offset of its first byte in the gather. */
  function Emitted(wrs: seq<Wr>): (r: seq<GatherWr>)
    ensures |r| == |wrs|
  {
    if wrs == [] then []
    else
      var n := |wrs| - 1;
      Emitted(wrs[..n]) + [GatherWr(|Carried(wrs[..n])|, Entries(wrs[n]))]
  }

  /** The packer's variables describe the work requests `wrs`, the last of them still in
      the entry array. */
  ghost predicate Staged(wrs: seq<Wr>, out: seq<GatherWr>, sges: seq<Sge>, wrBytes: nat, off: nat) {
    && (forall i :: 0 <= i < |wrs| ==> |wrs[i]| > 0)
    && sges == Entries(Last(wrs)) && wrBytes == |Bytes(Last(wrs))|
    && (if wrs == [] then out == [] && off == 0
        else out == Emitted(wrs[..|wrs| - 1]) && off == |Carried(wrs[..|wrs| - 1])|)
  }

  lemma StagedStep(m: nat, wrs: seq<Wr>, out: seq<GatherWr>, sges: seq<Sge>, wrBytes: nat, off: nat, t: Piece)
    requires m >= 1 && Staged(wrs, out, sges, wrBytes, off)
    ensures Opens(m, wrs) == (wrs == [] || |sges| == m || wrBytes >= WRITE_WR_MAX)
    ensures wrs == [] ==> |sges| == 0 && wrBytes == 0
    ensures Room(m, wrs) == if Opens(m, wrs) then WRITE_WR_MAX else WRITE_WR_MAX - wrBytes
    ensures wrs != [] && Opens(m, wrs) ==>
      Staged(AddPiece(m, wrs, t), out + [GatherWr(off, sges)], [Entry(t)], t.len, off + wrBytes)
    ensures wrs == [] || !Opens(m, wrs) ==>
      Staged(AddPiece(m, wrs, t), out, sges + [Entry(t)], wrBytes + t.len, off)
  {
    hide Staged, AddPiece;
    StagedFacts(wrs, out, sges, wrBytes, off);
    if wrs == [] {
      StagedFirst(m, out, sges, wrBytes, off, t);
    } else if Opens(m, wrs) {
      StagedNew(m, wrs, out, sges, wrBytes, off, t);
    } else {
      StagedSame(m, wrs, out, sges, wrBytes, off, t);
    }
  }

  lemma StagedFacts(wrs: seq<Wr>, out: seq<GatherWr>, sges: seq<Sge>, wrBytes: nat, off: nat)
    requires Staged(wrs, out, sges, wrBytes, off)
    ensures |sges| == |Last(wrs)| && wrBytes == |Bytes(Last(wrs))|
  {
    hide Bytes, Carried, Emitted;
  }

  lemma StagedFirst(m: nat, out: seq<GatherWr>, sges: seq<Sge>, wrBytes: nat, off: nat, t: Piece)
    requires Staged([], out, sges, wrBytes, off)
    ensures Staged(AddPiece(m, [], t), out, sges + [Entry(t)], wrBytes + t.len, off)
  {
    hide Bytes, Carried;
    BytesSnoc([], t);
    EmptyPlan(m);
    assert [] + [t] == [t] && AddPiece(m, [], t) == [[t]] && [[t]][..0] == [];
    assert sges == [] && [] + [Entry(t)] == [Entry(t)] && Entries([t]) == [Entry(t)];
  }

  lemma StagedNew(m: nat, wrs: seq<Wr>, out: seq<GatherWr>, sges: seq<Sge>, wrBytes: nat, off: nat, t: Piece)
    requires Staged(wrs, out, sges, wrBytes, off) && wrs != [] && Opens(m, wrs)
    ensures Staged(AddPiece(m, wrs, t), out + [GatherWr(off, sges)], [Entry(t)], t.len, off + wrBytes)
  {
    hide Bytes, Carried;
    var n := |wrs| - 1;
    BytesSnoc([], t);
    CarriedSnoc(wrs[..n], wrs[n]);
    assert [] + [t] == [t] && wrs == wrs[..n] + [wrs[n]];
    assert AddPiece(m, wrs, t)[..|wrs|] == wrs && Entries([t]) == [Entry(t)];
  }

  lemma StagedSame(m: nat, wrs: seq<Wr>, out: seq<GatherWr>, sges: seq<Sge>, wrBytes: nat, off: nat, t: Piece)
    requires Staged(wrs, out, sges, wrBytes, off) && !Opens(m, wrs)
    ensures Staged(AddPiece(m, wrs, t), out, sges + [Entry(t)], wrBytes + t.len, off)
  {
    hide Bytes, Carried, Emitted;
    var n := |wrs| - 1;
    BytesSnoc(Last(wrs), t);
    assert AddPiece(m, wrs, t)[..n] == wrs[..n];
    assert Entries(Last(wrs)) + [Entry(t)] == Entries(Last(wrs) + [t]);
  }

  lemma CarriedSnoc(wrs: seq<Wr>, w: Wr)
    ensures Carried(wrs + [w]) == Carried(wrs) + Bytes(w)
  {
    FlatSnoc(Bytes, wrs, w);
  }

  lemma StagedEnds(wrs: seq<Wr>, out: seq<GatherWr>, sges: seq<Sge>, wrBytes: nat, off: nat)
    requires Staged(wrs, out, sges, wrBytes, off)
    ensures Emitted(wrs) == if |sges| > 0 then out + [GatherWr(off, sges)] else out
  {
    hide Carried;
  }

  /** `plan_gather`: fills the entry array and hands over each work request when it is
      full; what it hands over is the packing `Plan`. */
  method PlanGather(segs: seq<Segment>, maxSge: nat) returns (out: seq<GatherWr>, wrCount: nat)
    ensures out == Emitted(Plan(maxSge, segs)) && wrCount == |Plan(maxSge, segs)|
  {
    hide Staged, Pack, Emitted;
    var m := Clamp(maxSge);
    var sges := new Sge[MAX_WRITE_SGE](_ => Sge(0, 0, 0));
    var nSge: nat, wrBytes: nat, remoteOff: nat := 0, 0, 0;
    out := [];
    StagedEmpty(m);
    assert segs[..0] == [] && sges[..0] == [];
    var i := 0;
    while i < |segs|
      invariant i <= |segs| && nSge <= m
      invariant Staged(Pack(m, segs[..i]), out, sges[..nSge], wrBytes, remoteOff)
    {
      PackSnoc(m, segs, i);
      out, nSge, wrBytes, remoteOff := PlanSegment(segs[i], m, sges, out, nSge, wrBytes, remoteOff, Pack(m, segs[..i]));
      i := i + 1;
    }
    assert segs[..|segs|] == segs;
    StagedEnds(Pack(m, segs), out, sges[..nSge], wrBytes, remoteOff);
    if nSge > 0 {
      out := out + [GatherWr(remoteOff, sges[..nSge])];
    }
    wrCount := |out|;
  }

  lemma StagedEmpty(m: nat)
    ensures Staged(Pack(m, []), [], [], 0, 0)
  {
  }

  method PlanSegment(g: Segment, m: nat, sges: array<Sge>, out0: seq<GatherWr>, nSge0: nat, wrBytes0: nat, off0: nat, ghost wrs0: seq<Wr>)
    returns (out: seq<GatherWr>, nSge: nat, wrBytes: nat, remoteOff: nat)
    requires 1 <= m <= sges.Length && nSge0 <= m && Staged(wrs0, out0, sges[..nSge0], wrBytes0, off0)
    modifies sges
    ensures nSge <= m && Staged(AddFrom(m, wrs0, g, 0), out, sges[..nSge], wrBytes, remoteOff)
  {
    hide Staged, Opens, AddPiece, Room;
    out, nSge, wrBytes, remoteOff := out0, nSge0, wrBytes0, off0;
    var off := 0;
    ghost var wrs := wrs0;
    while off < g.len
      invariant off <= g.len && nSge <= m && Staged(wrs, out, sges[..nSge], wrBytes, remoteOff)
      invariant AddFrom(m, wrs, g, off) == AddFrom(m, wrs0, g, 0)
    {
      ghost var k := Min(g.len - off, Room(m, wrs));
      StagedStep(m, wrs, out, sges[..nSge], wrBytes, remoteOff, PieceAt(g, off, k));
      wrs := AddPiece(m, wrs, PieceAt(g, off, k));
      if nSge == m || wrBytes >= WRITE_WR_MAX {
        out := out + [GatherWr(remoteOff, sges[..nSge])];
        remoteOff, nSge, wrBytes := remoteOff + wrBytes, 0, 0;
      }
      var take := Min(g.len - off, WRITE_WR_MAX - wrBytes);
      ghost var filled := sges[..nSge];
      sges[nSge] := Sge(g.addr + off, take, g.lkey);
      assert sges[..nSge + 1] == filled + [Entry(PieceAt(g, off, k))];
      assert nSge == 0 ==> filled == [] && filled + [Entry(PieceAt(g, off, k))] == [Entry(PieceAt(g, off, k))];
      nSge, wrBytes, off := nSge + 1, wrBytes + take, off + take;
    }
  }
}
