/** The pool of registered source buffers (`SourcePool`, `SourceLease`). */
module SourcePools {
  import opened Basics

  /** A registered buffer; registration number `id` made it. */
  datatype Buffer = Buffer(id: nat, len: nat)

  /** A buffer in use; `asked` is the length its holder asked for. */
  datatype Lease = Lease(buf: Buffer, pooled: bool, asked: nat)

  /** The pool with what is outside it: the leases held, the registrations made so far,
      and the most pooled leases there ever were at once. */
  datatype Pool = Pool(bufSize: nat, capacity: nat, free: seq<Buffer>, registered: nat, fallbacks: nat,
                       out: seq<Lease>, made: nat, peak: nat)

  function NewPool(capacity: nat, bufSize: nat): Pool {
    Pool(Max(bufSize, 1), capacity, [], 0, 0, [], 0, 0)
  }

  function LeaseId(l: Lease): seq<nat> { if l.pooled then [l.buf.id] else [] }

  function FreeId(b: Buffer): seq<nat> { [b.id] }

  /** The pooled buffers out on a lease. */
  function Lent(p: Pool): seq<nat> { Flat(LeaseId, p.out) }

  function Idle(p: Pool): seq<nat> { Flat(FreeId, p.free) }

  function LeaseOut(p: Pool, l: Lease): Pool {
    var q := p.(out := p.out + [l]);
    q.(peak := Max(p.peak, |Lent(q)|))
  }

  /** `acquire`, with a registration that works or not. */
  function Acquire(p: Pool, len: nat, works: bool): (r: (Pool, Option<Lease>)) {
    var n := |p.free| - 1;
    if len <= p.bufSize && n >= 0 then
      var l := Lease(p.free[n], true, len);
      (LeaseOut(p.(free := p.free[..n]), l), Some(l))
    else if !works then (p, None)
    else if len <= p.bufSize && p.registered < p.capacity then
      var l := Lease(Buffer(p.made, p.bufSize), true, len);
      (LeaseOut(p.(registered := p.registered + 1, made := p.made + 1), l), Some(l))
    else
      var l := Lease(Buffer(p.made, Max(len, 1)), false, len);
      (LeaseOut(p.(fallbacks := p.fallbacks + 1, made := p.made + 1), l), Some(l))
  }

  function Drop1(out: seq<Lease>, i: nat): seq<Lease>
    requires i < |out|
  {
    out[..i] + out[i + 1..]
  }

  /** Dropping the lease at `i`: a pooled buffer goes back. */
  function Release(p: Pool, i: nat): Pool
    requires i < |p.out|
  {
    var l := p.out[i];
    var q := p.(out := Drop1(p.out, i));
    if l.pooled then q.(free := p.free + [l.buf]) else q
  }

  datatype PoolOp = AcquireOp(len: nat, works: bool) | ReleaseOp(which: nat)

  function PoolStep(p: Pool, op: PoolOp): Pool {
    match op
    case AcquireOp(len, works) => Acquire(p, len, works).0
    case ReleaseOp(i) => if i < |p.out| then Release(p, i) else p
  }

  function PoolRun(p: Pool, ops: seq<PoolOp>): Pool {
    if ops == [] then p else PoolStep(PoolRun(p, ops[..|ops| - 1]), ops[|ops| - 1])
  }

  // ---- what every run keeps ---------------------------------------------------------

  function Holders(p: Pool): multiset<nat> { multiset(Idle(p)) + multiset(Lent(p)) }

  /** A lease is a slab that is long enough, or a buffer of the very length asked for, but
      never of length zero. */
  predicate LeaseOk(bufSize: nat, l: Lease) {
    l.asked <= l.buf.len == if l.pooled then bufSize else if l.asked == 0 then 1 else l.asked
  }

  predicate Sizes(p: Pool) {
    && p.bufSize >= 1 && (forall b <- p.free :: b.len == p.bufSize) && (forall l <- p.out :: LeaseOk(p.bufSize, l))
  }

  predicate Tally(p: Pool) {
    p.registered <= p.capacity && p.registered == p.peak && |p.free| + |Lent(p)| == p.registered
  }

  ghost predicate OnePlace(p: Pool) {
    (forall x :: Holders(p)[x] <= 1) && (forall x :: x in Holders(p) ==> x < p.made)
  }

  ghost predicate PoolOk(p: Pool) { Sizes(p) && Tally(p) && OnePlace(p) }

  lemma LentSnoc(p: Pool, l: Lease)
    ensures Flat(LeaseId, p.out + [l]) == Lent(p) + LeaseId(l)
    ensures multiset(Lent(p) + LeaseId(l)) == multiset(Lent(p)) + multiset(LeaseId(l))
  {
    FlatSnoc(LeaseId, p.out, l);
  }

  lemma FreeSnoc(free: seq<Buffer>, b: Buffer)
    ensures Flat(FreeId, free + [b]) == Flat(FreeId, free) + [b.id]
    ensures multiset(Flat(FreeId, free + [b])) == multiset(Flat(FreeId, free)) + multiset{b.id}
  {
    FlatSnoc(FreeId, free, b);
  }

  lemma LentDrop(out: seq<Lease>, i: nat)
    requires i < |out|
    ensures multiset(Flat(LeaseId, out)) == multiset(Flat(LeaseId, Drop1(out, i))) + multiset(LeaseId(out[i]))
    ensures |Flat(LeaseId, out)| == |Flat(LeaseId, Drop1(out, i))| + |LeaseId(out[i])|
  {
    hide Flat;
    assert out == (out[..i] + [out[i]]) + out[i + 1..];
    FlatSnoc(LeaseId, out[..i], out[i]);
    FlatAppend(LeaseId, out[..i] + [out[i]], out[i + 1..]);
    FlatAppend(LeaseId, out[..i], out[i + 1..]);
  }

  lemma AcquireKeeps(p: Pool, len: nat, works: bool)
    requires PoolOk(p)
    ensures PoolOk(Acquire(p, len, works).0)
  {
    hide Lent, Holders;
    AcquireTally(p, len, works);
    AcquirePlace(p, len, works);
  }

  lemma AcquireTally(p: Pool, len: nat, works: bool)
    requires Tally(p)
    ensures Tally(Acquire(p, len, works).0)
  {
    hide Flat;
    var r := Acquire(p, len, works).1;
    if r.Some? {
      LentSnoc(p, r.value);
    }
  }

  lemma AcquirePlace(p: Pool, len: nat, works: bool)
    requires OnePlace(p)
    ensures OnePlace(Acquire(p, len, works).0)
  {
    hide Flat;
    var (q, r) := Acquire(p, len, works);
    if r.Some? {
      var l := r.value;
      LentSnoc(p, l);
      if len <= p.bufSize && p.free != [] {
        var n := |p.free| - 1;
        FreeSnoc(p.free[..n], p.free[n]);
        assert p.free == p.free[..n] + [p.free[n]];
        assert Holders(q) == Holders(p);
      } else {
        assert Holders(q) == Holders(p) + multiset(LeaseId(l));
        assert p.made !in Holders(p);
      }
    }
  }

  lemma ReleaseKeeps(p: Pool, i: nat)
    requires PoolOk(p) && i < |p.out|
    ensures PoolOk(Release(p, i))
  {
    hide Flat, Holders;
    var q := Release(p, i);
    LentDrop(p.out, i);
    ReleasePlace(p, i);
    assert Sizes(q) by {
      forall l <- Drop1(p.out, i) ensures LeaseOk(p.bufSize, l) { assert l in p.out; }
      assert LeaseOk(p.bufSize, p.out[i]);
      assert forall b <- q.free :: b in p.free || b == p.out[i].buf;
    }
  }

  lemma ReleasePlace(p: Pool, i: nat)
    requires i < |p.out|
    ensures Holders(Release(p, i)) == Holders(p)
  {
    hide Flat;
    LentDrop(p.out, i);
    FreeSnoc(p.free, p.out[i].buf);
  }

  /** Over any sequence of acquires and drops: every pooled buffer is in exactly one of
      the free list and one lease; the number registered is the most that were ever lent
      at once, and never above the capacity; every lease is as long as was asked. */
  lemma {:induction false} PoolRuns(capacity: nat, bufSize: nat, ops: seq<PoolOp>)
    ensures PoolOk(PoolRun(NewPool(capacity, bufSize), ops))
    ensures var p := PoolRun(NewPool(capacity, bufSize), ops);
      p.capacity == capacity && p.bufSize == if bufSize == 0 then 1 else bufSize
  {
    hide PoolOk, Acquire, Release;
    if ops == [] {
      NewPoolOk(capacity, bufSize);
    } else {
      PoolRuns(capacity, bufSize, ops[..|ops| - 1]);
      var p, op := PoolRun(NewPool(capacity, bufSize), ops[..|ops| - 1]), ops[|ops| - 1];
      if op.AcquireOp? {
        AcquireKeeps(p, op.len, op.works);
        AcquireCapacity(p, op.len, op.works);
      } else if op.which < |p.out| {
        ReleaseKeeps(p, op.which);
        ReleaseCapacity(p, op.which);
      }
    }
  }

  lemma NewPoolOk(capacity: nat, bufSize: nat)
    ensures PoolOk(NewPool(capacity, bufSize))
  {
  }

  lemma AcquireCapacity(p: Pool, len: nat, works: bool)
    ensures Acquire(p, len, works).0.capacity == p.capacity && Acquire(p, len, works).0.bufSize == p.bufSize
  {
  }

  lemma ReleaseCapacity(p: Pool, i: nat)
    requires i < |p.out|
    ensures Release(p, i).capacity == p.capacity && Release(p, i).bufSize == p.bufSize
  {
  }

  /** A one-off registration happens exactly for a request above the slab size, or when
      the whole capacity is lent. */
  lemma FallbackOnlyWhenNeeded(capacity: nat, bufSize: nat, ops: seq<PoolOp>, len: nat)
    ensures var p := PoolRun(NewPool(capacity, bufSize), ops);
      var (q, r) := Acquire(p, len, true);
      && r.Some? && r.value.buf.len >= len
      && q.fallbacks == p.fallbacks + (if len > p.bufSize || |Lent(p)| == capacity then 1 else 0)
      && (r.value.pooled <==> q.fallbacks == p.fallbacks)
      && (Acquire(p, len, false).1.Some? <==> len <= p.bufSize && |Lent(p)| < p.registered)
  {
    hide PoolRun, OnePlace, Flat, NewPool;
    PoolRuns(capacity, bufSize, ops);
    AcquireLen(PoolRun(NewPool(capacity, bufSize), ops), len, true);
  }

  /** `SourcePool`: the fields `PoolInner` updates, and the leases outside it. */
  class SourcePool {
    const bufSize: nat
    const capacity: nat
    var free: seq<Buffer>
    var registered: nat
    var fallbacks: nat
    ghost var out: seq<Lease>
    ghost var made: nat
    ghost var peak: nat

    ghost function View(): Pool
      reads this
    {
      Pool(bufSize, capacity, free, registered, fallbacks, out, made, peak)
    }

    constructor (capacity: nat, bufSize: nat)
      ensures View() == NewPool(capacity, bufSize) && PoolOk(View())
    {
      this.bufSize, this.capacity := Max(bufSize, 1), capacity;
      free, registered, fallbacks := [], 0, 0;
      out, made, peak := [], 0, 0;
    }

    method Lend(l: Lease)
      modifies `out, `peak
      ensures View() == LeaseOut(old(View()), l)
    {
      out := out + [l];
      peak := Max(peak, |Flat(LeaseId, out)|);
    }

    /** `acquire`; `mr` is what registering returns if it is called. */
    method AcquireBuffer(len: nat, mr: Option<nat>) returns (r: Option<Lease>)
      requires PoolOk(View()) && (mr.Some? ==> mr.value == made)
      modifies this
      ensures PoolOk(View()) && (View(), r) == Acquire(old(View()), len, mr.Some?)
      ensures r.Some? ==> r.value.buf.len >= len && out == old(out) + [r.value]
      ensures r.None? ==> View() == old(View())
      ensures r.None? <==> mr.None? && (len > bufSize || old(free) == [])
    {
      hide PoolOk, Lent;
      AcquireKeeps(View(), len, mr.Some?);
      AcquireLen(View(), len, mr.Some?);
      if len <= bufSize && free != [] {
        var n := |free| - 1;
        r := Some(Lease(free[n], true, len));
        free := free[..n];
        Lend(r.value);
        return;
      }
      if mr.None? {
        return None;
      }
      if len <= bufSize && registered < capacity {
        registered, made := registered + 1, made + 1;
        r := Some(Lease(Buffer(mr.value, bufSize), true, len));
        Lend(r.value);
        return;
      }
      fallbacks, made := fallbacks + 1, made + 1;
      r := Some(Lease(Buffer(mr.value, Max(len, 1)), false, len));
      Lend(r.value);
    }

    /** A lease is dropped. */
    method DropLease(l: Lease, ghost i: nat)
      requires PoolOk(View()) && i < |out| && out[i] == l
      modifies `free, `out
      ensures PoolOk(View()) && View() == Release(old(View()), i)
    {
      ReleaseKeeps(View(), i);
      out := Drop1(out, i);
      if l.pooled {
        free := free + [l.buf];
      }
    }
  }

  lemma AcquireLen(p: Pool, len: nat, works: bool)
    requires PoolOk(p)
    ensures var r := Acquire(p, len, works);
      && (r.1.Some? ==> r.1.value.buf.len >= len && r.0.out == p.out + [r.1.value])
      && (r.1.None? ==> r.0 == p) && (r.1.None? <==> !works && (len > p.bufSize || p.free == []))
  {
    hide Flat;
  }
}
