/** The packing of a scatter-gather write into work requests (`plan_gather`), and why no
    packing needs fewer of them. */
module GatherPlan {
  import opened Basics

  const MAX_WRITE_SGE := 16
  const WRITE_WR_MAX := 1073741824

  /** A span of registered local memory. */
  datatype Segment = Segment(lkey: nat, addr: nat, len: nat)

  /** Part of one segment, as one scatter-gather entry; `first` says that the segment
      starts here. */
  datatype Piece = Piece(lkey: nat, addr: nat, len: nat, first: bool)

  /** One byte of a gather: where it is read, and whether its segment starts there. */
  datatype Source = Source(lkey: nat, addr: nat, first: bool)

  type Wr = seq<Piece>

  function Span(t: Piece): (r: seq<Source>)
    ensures |r| == t.len
  {
    seq(t.len, i requires 0 <= i < t.len => Source(t.lkey, t.addr + i, t.first && i == 0))
  }

  function Whole(g: Segment): Piece { Piece(g.lkey, g.addr, g.len, true) }

  function SegmentBytes(g: Segment): seq<Source> { Span(Whole(g)) }

  /** A gather as one string of bytes. */
  function Stream(segs: seq<Segment>): seq<Source> { Flat(SegmentBytes, segs) }

  function Bytes(w: Wr): seq<Source> { Flat(Span, w) }

  function Carried(wrs: seq<Wr>): seq<Source> { Flat(Bytes, wrs) }

  /** What the device allows, but at least one entry and no more than the array holds. */
  function Clamp(maxSge: nat): (m: nat)
    ensures m == if maxSge == 0 then 1 else if maxSge <= 16 then maxSge else 16
  {
    Max(1, Min(maxSge, MAX_WRITE_SGE))
  }

  // ---- the packer ------------------------------------------------------------------

  predicate Full(m: nat, w: Wr) { |w| == m || |Bytes(w)| >= WRITE_WR_MAX }

  function Last(wrs: seq<Wr>): Wr { if wrs == [] then [] else wrs[|wrs| - 1] }

  /** The next byte needs a new work request. */
  predicate Opens(m: nat, wrs: seq<Wr>) { wrs == [] || Full(m, Last(wrs)) }

  function Room(m: nat, wrs: seq<Wr>): (r: nat)
    ensures r >= 1
  {
    if Opens(m, wrs) then WRITE_WR_MAX else WRITE_WR_MAX - |Bytes(Last(wrs))|
  }

  function AddPiece(m: nat, wrs: seq<Wr>, t: Piece): (r: seq<Wr>)
    ensures |wrs| <= |r| && r != []
  {
    if Opens(m, wrs) then wrs + [[t]] else wrs[..|wrs| - 1] + [Last(wrs) + [t]]
  }

  function PieceAt(g: Segment, off: nat, k: nat): Piece { Piece(g.lkey, g.addr + off, k, off == 0) }

  /** Pack what is left of a segment from `off`. The last element of `wrs` is the work
      request in progress. */
  function AddFrom(m: nat, wrs: seq<Wr>, g: Segment, off: nat): (r: seq<Wr>)
    requires off <= g.len
    ensures |wrs| <= |r|
    decreases g.len - off
  {
    if off == g.len then wrs
    else
      var k := Min(g.len - off, Room(m, wrs));
      AddFrom(m, AddPiece(m, wrs, PieceAt(g, off, k)), g, off + k)
  }

  function Pack(m: nat, segs: seq<Segment>): seq<Wr> {
    if segs == [] then [] else AddFrom(m, Pack(m, segs[..|segs| - 1]), segs[|segs| - 1], 0)
  }

  /** The work requests of a gather on a connection with `maxSge` entries per request. */
  function Plan(maxSge: nat, segs: seq<Segment>): seq<Wr> { Pack(Clamp(maxSge), segs) }

  // ---- what a work request may hold ----------------------------------------------------

  function Firsts(b: seq<Source>): nat {
    if b == [] then 0 else (if b[0].first then 1 else 0) + Firsts(b[1..])
  }

  /** How many segments a string of bytes touches, so how many entries it needs. */
  function Runs(b: seq<Source>): nat { if b == [] then 0 else 1 + Firsts(b[1..]) }

  predicate Fits(m: nat, b: seq<Source>) { |b| <= WRITE_WR_MAX && Runs(b) <= m }

  lemma {:induction false} FirstsAppend(a: seq<Source>, b: seq<Source>)
    ensures Firsts(a + b) == Firsts(a) + Firsts(b)
  {
    if a == [] {
      assert a + b == b;
    } else {
      assert (a + b)[1..] == a[1..] + b;
      FirstsAppend(a[1..], b);
    }
  }

  lemma RunsAppend(a: seq<Source>, b: seq<Source>)
    requires a != []
    ensures Runs(a + b) == Runs(a) + Firsts(b)
  {
    assert (a + b)[1..] == a[1..] + b;
    FirstsAppend(a[1..], b);
  }

  lemma FitsSlice(m: nat, b: seq<Source>, x: nat, y: nat)
    requires Fits(m, b) && x <= y <= |b|
    ensures Fits(m, b[x..y])
  {
    if x < y {
      assert b[1..] == b[1..x + 1] + b[x + 1..y] + b[y..];
      FirstsAppend(b[1..x + 1] + b[x + 1..y], b[y..]);
      FirstsAppend(b[1..x + 1], b[x + 1..y]);
      assert b[x..y][1..] == b[x + 1..y];
    }
  }

  lemma {:induction false} NoFirsts(b: seq<Source>)
    requires forall s <- b :: !s.first
    ensures Firsts(b) == 0
  {
    if b != [] {
      NoFirsts(b[1..]);
    }
  }

  lemma SpanFirsts(t: Piece)
    ensures t.len > 0 ==> Firsts(Span(t)) == if t.first then 1 else 0
    ensures t.len > 0 ==> Runs(Span(t)) == 1
    ensures t.len == 0 ==> Span(t) == []
  {
    if t.len > 0 {
      NoFirsts(Span(t)[1..]);
    }
  }

  /** An entry lies inside one segment, so a work request has at least one entry for
      every segment it touches. */
  lemma {:induction false} RunsAtMost(w: Wr)
    ensures Runs(Bytes(w)) <= |w|
  {
    if w != [] {
      var front, t := w[..|w| - 1], w[|w| - 1];
      RunsAtMost(front);
      FlatSnoc(Span, front, t);
      assert w == front + [t];
      SpanFirsts(t);
      if Bytes(front) == [] {
        assert Bytes(w) == Span(t);
      } else {
        RunsAppend(Bytes(front), Span(t));
      }
    }
  }

  // ---- the packing is full and in order ----------------------------------------------

  predicate Sound(m: nat, w: Wr) {
    && 1 <= |w| <= m && |Bytes(w)| <= WRITE_WR_MAX && (forall t <- w :: t.len >= 1)
    && Bytes(w) != [] && Runs(Bytes(w)) == |w|
  }

  /** A work request is only left behind when the next byte does not fit in it. */
  predicate Filled(m: nat, w: Wr, next: Wr) {
    Bytes(next) != [] && !Fits(m, Bytes(w) + [Bytes(next)[0]])
  }

  predicate Packed(m: nat, wrs: seq<Wr>) {
    && (forall w <- wrs :: Sound(m, w))
    && (forall i :: 0 <= i < |wrs| - 1 ==> Filled(m, wrs[i], wrs[i + 1]))
  }

  /** The rest of a segment already begun only ever starts a work request. */
  predicate Joins(m: nat, wrs: seq<Wr>, t: Piece) {
    1 <= t.len <= Room(m, wrs) && (t.first || (wrs != [] && |Bytes(Last(wrs))| >= WRITE_WR_MAX))
  }

  lemma SinglePiece(m: nat, t: Piece)
    requires m >= 1 && 1 <= t.len <= WRITE_WR_MAX
    ensures Sound(m, [t]) && Bytes([t]) == Span(t)
  {
    hide Flat, Span, Runs;
    OnePiece(t);
    SpanFirsts(t);
    assert |Bytes([t])| == t.len;
  }

  lemma OnePiece(t: Piece)
    ensures Bytes([t]) == Span(t)
  {
    assert [t][1..] == [];
    assert Flat(Span, [t]) == Span(t) + Flat(Span, []);
    assert Span(t) + [] == Span(t);
  }

  lemma MorePiece(m: nat, w: Wr, t: Piece)
    requires Sound(m, w) && !Full(m, w) && 1 <= t.len <= WRITE_WR_MAX - |Bytes(w)| && t.first
    ensures Sound(m, w + [t]) && Bytes(w + [t]) == Bytes(w) + Span(t)
  {
    FlatSnoc(Span, w, t);
    SpanFirsts(t);
    RunsAppend(Bytes(w), Span(t));
  }

  lemma FullFilled(m: nat, w: Wr, t: Piece)
    requires Sound(m, w) && Full(m, w) && t.len >= 1 && (t.first || |Bytes(w)| >= WRITE_WR_MAX)
    requires Bytes([t]) == Span(t)
    ensures Filled(m, w, [t])
  {
    var b := Span(t)[0];
    RunsAppend(Bytes(w), [b]);
    assert [b][1..] == [];
    assert Firsts([b]) == if b.first then 1 else 0;
  }

  lemma AddPieceKeeps(m: nat, wrs: seq<Wr>, t: Piece)
    requires m >= 1 && Packed(m, wrs) && Joins(m, wrs, t)
    ensures Packed(m, AddPiece(m, wrs, t)) && Carried(AddPiece(m, wrs, t)) == Carried(wrs) + Span(t)
  {
    hide Sound, Filled, Bytes, Full;
    var r := AddPiece(m, wrs, t);
    if Opens(m, wrs) {
      SinglePiece(m, t);
      FlatSnoc(Bytes, wrs, [t]);
      if wrs != [] {
        FullFilled(m, Last(wrs), t);
      }
    } else {
      var n := |wrs| - 1;
      MorePiece(m, wrs[n], t);
      FlatSnoc(Bytes, wrs[..n], wrs[n]);
      FlatSnoc(Bytes, wrs[..n], wrs[n] + [t]);
      assert wrs == wrs[..n] + [wrs[n]];
      if n > 0 {
        SameHead(m, wrs[n - 1], wrs[n], t);
      }
    }
  }

  lemma SameHead(m: nat, v: Wr, w: Wr, t: Piece)
    requires Filled(m, v, w) && Bytes(w + [t]) == Bytes(w) + Span(t)
    ensures Filled(m, v, w + [t])
  {
  }

  lemma {:induction false} AddFromKeeps(m: nat, wrs: seq<Wr>, g: Segment, off: nat)
    requires m >= 1 && Packed(m, wrs) && off <= g.len
    requires 0 < off < g.len ==> wrs != [] && |Bytes(Last(wrs))| >= WRITE_WR_MAX
    ensures Packed(m, AddFrom(m, wrs, g, off))
    ensures Carried(AddFrom(m, wrs, g, off)) == Carried(wrs) + SegmentBytes(g)[off..]
    decreases g.len - off
  {
    hide Packed, Carried, Bytes, AddPiece, Room, SegmentBytes, Span;
    if off < g.len {
      var k := Min(g.len - off, Room(m, wrs));
      var t := PieceAt(g, off, k);
      AddPieceKeeps(m, wrs, t);
      LastLen(m, wrs, t);
      AddFromKeeps(m, AddPiece(m, wrs, t), g, off + k);
      SegmentSplit(g, off, k);
      assert Carried(wrs) + Span(t) + SegmentBytes(g)[off + k..] == Carried(wrs) + (Span(t) + SegmentBytes(g)[off + k..]);
    } else {
      SegmentEnd(g);
      assert Carried(wrs) + [] == Carried(wrs);
    }
  }

  lemma SegmentSplit(g: Segment, off: nat, k: nat)
    requires off + k <= g.len
    ensures |SegmentBytes(g)| == g.len
    ensures SegmentBytes(g)[off..] == Span(PieceAt(g, off, k)) + SegmentBytes(g)[off + k..]
  {
  }

  lemma SegmentEnd(g: Segment)
    ensures |SegmentBytes(g)| == g.len && SegmentBytes(g)[g.len..] == []
  {
  }

  lemma LastLen(m: nat, wrs: seq<Wr>, t: Piece)
    ensures |Bytes(Last(AddPiece(m, wrs, t)))| == WRITE_WR_MAX - Room(m, wrs) + t.len && AddPiece(m, wrs, t) != []
  {
    FlatSnoc(Span, Last(wrs), t);
    OnePiece(t);
  }

  /** `plan_gather`: every work request has 1 to `m` non-empty entries and 1 to
      `WRITE_WR_MAX` bytes; together they carry the segments, each byte once, in order;
      and each is full in the sense that the byte after it would not fit. */
  lemma {:induction false} PackSound(m: nat, segs: seq<Segment>)
    requires m >= 1
    ensures Packed(m, Pack(m, segs)) && Carried(Pack(m, segs)) == Stream(segs)
  {
    hide Packed, AddFrom, Carried, Stream, SegmentBytes, Flat;
    if segs == [] {
      EmptyPacked(m);
    } else {
      var front, g := segs[..|segs| - 1], segs[|segs| - 1];
      PackSound(m, front);
      AddFromKeeps(m, Pack(m, front), g, 0);
      StreamSnoc(front, g);
      assert segs == front + [g];
      assert SegmentBytes(g)[0..] == SegmentBytes(g);
    }
  }

  lemma EmptyPacked(m: nat)
    ensures Packed(m, []) && Carried([]) == Stream([]) == []
  {
  }

  lemma StreamSnoc(segs: seq<Segment>, g: Segment)
    ensures Stream(segs + [g]) == Stream(segs) + SegmentBytes(g)
  {
    FlatSnoc(SegmentBytes, segs, g);
  }

  // ---- optimality ------------------------------------------------------------------

  function Join<T>(parts: seq<seq<T>>): seq<T> { if parts == [] then [] else parts[0] + Join(parts[1..]) }

  ghost predicate Hereditary<T(!new)>(ok: seq<T> -> bool) {
    forall s: seq<T>, x: nat, y: nat :: x <= y <= |s| && ok(s) ==> ok(s[x..y])
  }

  /** Cutting as late as possible: no part could take the first element of the next. */
  ghost predicate Greedy<T>(ok: seq<T> -> bool, parts: seq<seq<T>>) {
    && (forall i :: 0 <= i < |parts| ==> |parts[i]| > 0)
    && forall i :: 0 <= i < |parts| - 1 ==> !ok(parts[i] + [parts[i + 1][0]])
  }

  ghost predicate AllOk<T>(ok: seq<T> -> bool, parts: seq<seq<T>>) {
    forall i :: 0 <= i < |parts| ==> ok(parts[i])
  }

  /** Greedy cutting stays ahead of every other way to cut the same string (here even of
      one that has `before` more to cut), so it makes the fewest parts. */
  lemma {:induction false} StaysAhead<T(!new)>(ok: seq<T> -> bool, greedy: seq<seq<T>>, other: seq<seq<T>>, before: seq<T>)
    requires Hereditary(ok) && Greedy(ok, greedy) && AllOk(ok, other) && Join(other) == before + Join(greedy)
    ensures |greedy| <= |other|
    decreases |greedy|
  {
    if |greedy| > 0 {
      var g, gs := greedy[0], Join(greedy[1..]);
      assert Join(greedy) == g + gs && |g| > 0;
      if |greedy| > 1 && |other| > 0 {
        var q, qs := other[0], Join(other[1..]);
        assert Join(other) == q + qs;
        assert gs == greedy[1] + Join(greedy[1..][1..]) && |greedy[1]| > 0;
        assert q + qs == before + g + gs;
        CutBehind(ok, before, g, gs, q, qs);
        StaysAhead(ok, greedy[1..], other[1..], (before + g)[|q|..]);
      }
    }
  }

  /** A part that cannot take one more element ends no earlier than any legal part that
      starts no later. */
  lemma CutBehind<T(!new)>(ok: seq<T> -> bool, before: seq<T>, g: seq<T>, gs: seq<T>, q: seq<T>, qs: seq<T>)
    requires Hereditary(ok) && ok(q) && q + qs == before + g + gs && gs != [] && !ok(g + [gs[0]])
    ensures |q| <= |before| + |g| && qs == (before + g)[|q|..] + gs
  {
    if |q| > |before| + |g| {
      CutAhead(before, g, gs, q, qs);
      assert false;
    }
    var whole := q + qs;
    assert whole[|q|..] == qs && whole[|q|..] == (before + g)[|q|..] + gs;
  }

  lemma CutAhead<T>(before: seq<T>, g: seq<T>, gs: seq<T>, q: seq<T>, qs: seq<T>)
    requires q + qs == before + g + gs && gs != [] && |q| > |before| + |g|
    ensures q[|before|..|before| + |g| + 1] == g + [gs[0]]
  {
    var whole, n := q + qs, |before| + |g|;
    assert q[|before|..n + 1] == whole[|before|..n + 1];
  }

  /** The bytes of each work request. */
  function Parts(wrs: seq<Wr>): (r: seq<seq<Source>>)
    ensures |r| == |wrs| && forall i :: 0 <= i < |r| ==> r[i] == Bytes(wrs[i])
    ensures Join(r) == Carried(wrs)
  {
    if wrs == [] then [] else
      var r := [Bytes(wrs[0])] + Parts(wrs[1..]);
      assert r[1..] == Parts(wrs[1..]);
      r
  }

  function FitsIn(m: nat): seq<Source> -> bool { b => Fits(m, b) }

  lemma FitsHereditary(m: nat)
    ensures Hereditary(FitsIn(m))
  {
    forall b: seq<Source>, x: nat, y: nat | x <= y <= |b| && FitsIn(m)(b) ensures FitsIn(m)(b[x..y]) {
      FitsSlice(m, b, x, y);
    }
  }

  lemma PackGreedy(m: nat, segs: seq<Segment>)
    requires m >= 1
    ensures Greedy(FitsIn(m), Parts(Pack(m, segs))) && AllOk(FitsIn(m), Parts(Pack(m, segs)))
    ensures Join(Parts(Pack(m, segs))) == Stream(segs)
  {
    hide Bytes, Pack, Stream, Runs, Carried, Parts;
    PackSound(m, segs);
    var wrs := Pack(m, segs);
    forall i | 0 <= i < |wrs| ensures |Parts(wrs)[i]| > 0 && FitsIn(m)(Parts(wrs)[i]) {
      assert Sound(m, wrs[i]);
    }
    forall i | 0 <= i < |wrs| - 1 ensures !FitsIn(m)(Parts(wrs)[i] + [Parts(wrs)[i + 1][0]]) {
      assert Filled(m, wrs[i], wrs[i + 1]);
    }
  }

  /** Any other in-order packing of the same segments under both caps. */
  predicate Packing(m: nat, wrs: seq<Wr>, segs: seq<Segment>) {
    && (forall i :: 0 <= i < |wrs| ==> |wrs[i]| <= m && |Bytes(wrs[i])| <= WRITE_WR_MAX)
    && Carried(wrs) == Stream(segs)
  }

  /** Optimal packing: no in-order packing of the same segments under both caps uses
      fewer work requests than `plan_gather`. */
  lemma PlanOptimal(maxSge: nat, segs: seq<Segment>, wrs: seq<Wr>)
    requires Packing(Clamp(maxSge), wrs, segs)
    ensures Packing(Clamp(maxSge), Plan(maxSge, segs), segs)
    ensures |Plan(maxSge, segs)| <= |wrs|
  {
    hide Bytes, Runs;
    var m := Clamp(maxSge);
    PackSound(m, segs);
    forall i | 0 <= i < |Pack(m, segs)| ensures |Pack(m, segs)[i]| <= m && |Bytes(Pack(m, segs)[i])| <= WRITE_WR_MAX {
      assert Sound(m, Pack(m, segs)[i]);
    }
    PackGreedy(m, segs);
    FitsHereditary(m);
    forall i | 0 <= i < |wrs| ensures FitsIn(m)(Parts(wrs)[i]) { RunsAtMost(wrs[i]); }
    assert [] + Stream(segs) == Stream(segs);
    StaysAhead(FitsIn(m), Parts(Pack(m, segs)), Parts(wrs), []);
  }

  // ---- fewer bytes never need more work requests -----------------------------------

  /** The parts of a string restricted to the range `x..y` of it. */
  function Clip<T>(parts: seq<seq<T>>, x: nat, y: nat): (r: seq<seq<T>>)
    requires x <= y <= |Join(parts)|
    ensures |r| == |parts|
  {
    if parts == [] then [] else
      var n := |parts[0]|;
      [parts[0][Min(x, n)..Min(y, n)]] + Clip(parts[1..], SaturatingSub(x, n), SaturatingSub(y, n))
  }

  lemma {:induction false} ClipOk<T(!new)>(ok: seq<T> -> bool, parts: seq<seq<T>>, x: nat, y: nat)
    requires x <= y <= |Join(parts)| && Hereditary(ok) && AllOk(ok, parts)
    ensures AllOk(ok, Clip(parts, x, y)) && Join(Clip(parts, x, y)) == Join(parts)[x..y]
  {
    if parts != [] {
      var n := |parts[0]|;
      var x', y' := SaturatingSub(x, n), SaturatingSub(y, n);
      ClipOk(ok, parts[1..], x', y');
      var r := Clip(parts, x, y);
      assert r[1..] == Clip(parts[1..], x', y');
      assert Join(parts) == parts[0] + Join(parts[1..]);
      assert ok(parts[0]);
      assert ok(parts[0][Min(x, n)..Min(y, n)]);
    }
  }

  lemma SubStream(segs: seq<Segment>, x: nat, y: nat)
    requires x <= y <= |segs|
    ensures var a := |Stream(segs[..x])|;
      a + |Stream(segs[x..y])| <= |Stream(segs)| &&
      Stream(segs[x..y]) == Stream(segs)[a..a + |Stream(segs[x..y])|]
  {
    FlatAppend(SegmentBytes, segs[..x], segs[x..y]);
    FlatAppend(SegmentBytes, segs[..y], segs[y..]);
    assert segs[..x] + segs[x..y] == segs[..y] && segs[..y] + segs[y..] == segs;
  }

  function Count(m: nat, segs: seq<Segment>): nat { |Pack(m, segs)| }

  lemma CountSlice(m: nat, segs: seq<Segment>, x: nat, y: nat)
    requires m >= 1 && x <= y <= |segs|
    ensures Count(m, segs[x..y]) <= Count(m, segs)
  {
    hide Pack, Stream, FitsIn;
    var whole, part := Parts(Pack(m, segs)), Parts(Pack(m, segs[x..y]));
    PackGreedy(m, segs);
    PackGreedy(m, segs[x..y]);
    FitsHereditary(m);
    SubStream(segs, x, y);
    var a := |Stream(segs[..x])|;
    var b := a + |Stream(segs[x..y])|;
    ClipOk(FitsIn(m), whole, a, b);
    assert [] + Join(part) == Join(part);
    StaysAhead(FitsIn(m), part, Clip(whole, a, b), []);
  }

  /** How many work requests it takes to carry `x` bytes. */
  function Chunks(x: nat): nat { (x + WRITE_WR_MAX - 1) / WRITE_WR_MAX }

  /** Pieces of one segment fill a work request each. */
  lemma {:induction false} AddFromCount(m: nat, wrs: seq<Wr>, g: Segment, off: nat)
    requires off <= g.len && Opens(m, wrs)
    ensures |AddFrom(m, wrs, g, off)| == |wrs| + Chunks(g.len - off)
    decreases g.len - off
  {
    hide AddFrom, Opens, Chunks;
    ChunksOne(g.len - off);
    AddFromStep(m, wrs, g, off);
    if off < g.len {
      var k := Min(g.len - off, WRITE_WR_MAX);
      var t := PieceAt(g, off, k);
      AddFromStep(m, wrs + [[t]], g, off + k);
      if k == WRITE_WR_MAX {
        OpensNext(m, wrs, t);
        AddFromCount(m, wrs + [[t]], g, off + k);
      }
    }
  }

  lemma AddFromStep(m: nat, wrs: seq<Wr>, g: Segment, off: nat)
    requires off <= g.len
    ensures off == g.len ==> AddFrom(m, wrs, g, off) == wrs
    ensures off < g.len && Opens(m, wrs) ==>
      var k := Min(g.len - off, WRITE_WR_MAX);
      AddFrom(m, wrs, g, off) == AddFrom(m, wrs + [[PieceAt(g, off, k)]], g, off + k)
  {
    hide Opens;
  }

  lemma OpensNext(m: nat, wrs: seq<Wr>, t: Piece)
    requires t.len == WRITE_WR_MAX
    ensures Opens(m, wrs + [[t]])
  {
    hide Bytes;
    OnePiece(t);
  }

  lemma ChunksOne(x: nat)
    ensures Chunks(x) == if x == 0 then 0 else if x > WRITE_WR_MAX then 1 + Chunks(x - WRITE_WR_MAX) else 1
  {
  }

  /** A single segment needs more than `budget` work requests exactly when it is longer
      than they can carry. */
  lemma SoloCount(m: nat, g: Segment, budget: nat)
    ensures Count(m, [g]) > budget <==> g.len > budget * WRITE_WR_MAX
  {
    hide AddFrom;
    assert [g][..0] == [] && Pack(m, []) == [];
    assert Pack(m, [g]) == AddFrom(m, [], g, 0);
    AddFromCount(m, [], g, 0);
  }
}
