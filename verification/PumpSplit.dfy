/** The multi-waiter split: one pump task drains the completion queue and wakes every
    parked handle; the handles never touch the queue. */
module PumpSplit {
  import opened Basics
  import opened StreamState
  import opened StreamSystem
  import opened StreamSteps
  import opened StreamRuns
  import opened StreamTheorems
  import opened StreamFlush
  import opened HordStreams
  import opened WriteDrivers

  datatype Handle = Reader | Writer | Plane

  /** What a parked handle is waiting to do. */
  datatype Wait = WaitRead | WaitWrite(len: nat) | WaitFlush | WaitId

  datatype Polled = Ready | Pending

  /** One task poll, one turn of the pump, or a stretch of what the NICs and the other end
      do. */
  datatype Event = ReadEvent(len: nat) | WriteEvent(buf: seq<byte>) | FlushEvent | NextEvent
                 | PumpEvent(disconnected: bool) | NetworkEvent(moves: seq<Move>)

  /** Polling the handle now would get somewhere: it would resolve, or (a flush) send
      what is staged. */
  predicate ReadyFor(p: Peer, w: Wait) {
    p.closed ||
    match w
    case WaitRead => p.rxReady != []
    case WaitWrite(len) => CanSend(p) || |p.txStage| + len < p.params.cap
    case WaitFlush =>
      if p.txStage != [] then CanSend(p) else |p.sendFree| >= p.params.sendPool && p.writesOut == 0
    case WaitId => p.done != []
  }

  predicate Fits(h: Handle, w: Wait) {
    match h
    case Reader => w.WaitRead?
    case Writer => w.WaitWrite? || w.WaitFlush?
    case Plane => w.WaitId?
  }

  predicate Kinds(parked: map<Handle, Wait>) { forall h <- parked :: Fits(h, parked[h]) }

  /** No parked handle has anything to do. */
  predicate Quiet(p: Peer, parked: map<Handle, Wait>) { forall h <- parked :: !ReadyFor(p, parked[h]) }

  /** The pump has something to drain, or a receive out that will bring it something: on a
      dead connection it is flushed. */
  predicate Audible(p: Peer) { p.posted != [] || p.cq != [] }

  /** `poll_read` closes the stream: reading does, or returning credit when there is
      nothing to read. */
  predicate PollReadCloses(p: Peer, n: nat) {
    if n > 0 && p.rxReady == [] then !Posts(p) && CanReturn(p) else ReadCloses(p, n)
  }

  lemma ClosedWakes(p: Peer, parked: map<Handle, Wait>)
    requires p.closed
    ensures Quiet(p, parked) <==> parked == map[]
  {
    if parked != map[] {
      var h :| h in parked;
      assert ReadyFor(p, parked[h]);
    }
  }

  /** An end that is not closed has at least the control slack posted or unread, so the
      pump will hear of whatever happens to the connection. */
  lemma OpenIsAudible(p: Peer, o: Peer)
    requires Inv(p, o) && !p.closed
    ensures Audible(p) && |p.posted| + |Flat(RecvSlot, p.cq)| >= CTRL_RECV_SLACK
  {
    hide SendOk, RecvOk, WriteOk, Lossless, InOrder, FramesIn, HeldBytes, DataCount, Grants;
    RecvCount(p);
    if p.cq == [] {
      NothingUnread();
    }
  }

  lemma NothingUnread()
    ensures Flat(RecvSlot, []) == []
  {
  }

  /** Between task polls. While the stream is open no wake-up is lost. A handle parked on a
      closed stream means that a post was refused, that the pump is still there, and that
      it will hear of the connection. */
  predicate Sound(p: Peer, parked: map<Handle, Wait>, stopped: bool) {
    && Kinds(parked) && (stopped ==> p.closed) && (!p.closed ==> Quiet(p, parked))
    && (p.closed && parked != map[] ==> p.refused && !stopped && Audible(p))
  }

  /** What a handle's poll does to the others: nothing they would wake for, unless a post
      is refused; and even then the pump stays audible. */
  lemma AfterPoll(p: Peer, q: Peer, parked: map<Handle, Wait>, stopped: bool)
    requires Sound(p, parked, stopped) && (!p.closed ==> Audible(p)) && (Audible(p) ==> Audible(q))
    requires (p.closed ==> q.closed) && (p.refused ==> q.refused) && (q.closed && !p.closed ==> q.refused)
    requires !q.closed ==> (Quiet(p, parked) ==> Quiet(q, parked))
    ensures Sound(q, parked, stopped)
    ensures Quiet(p, parked) ==> (Quiet(q, parked) <==> q.closed == p.closed || parked == map[])
  {
    hide Audible;
    if q.closed {
      ClosedWakes(q, parked);
    }
    if p.closed {
      ClosedWakes(p, parked);
    }
  }

  lemma AfterReads(p: Peer, acts: seq<Action>, parked: map<Handle, Wait>, stopped: bool)
    requires ReadsOnly(acts) && Sound(p, parked, stopped) && (!p.closed ==> Audible(p)) && Reader !in parked
    ensures Sound(Call(p, acts), parked, stopped)
    ensures Quiet(p, parked) ==> (Quiet(Call(p, acts), parked) <==> Call(p, acts).closed == p.closed || parked == map[])
  {
    hide Call;
    ReadsKeep(p, acts);
    AfterPoll(p, Call(p, acts), parked, stopped);
  }

  lemma AfterWrites(p: Peer, acts: seq<Action>, parked: map<Handle, Wait>, stopped: bool)
    requires WritesOnly(acts) && Sound(p, parked, stopped) && (!p.closed ==> Audible(p)) && Writer !in parked
    ensures Sound(Call(p, acts), parked, stopped)
    ensures Quiet(p, parked) ==> (Quiet(Call(p, acts), parked) <==> Call(p, acts).closed == p.closed || parked == map[])
  {
    hide Call;
    WritesKeep(p, acts);
    AfterPoll(p, Call(p, acts), parked, stopped);
  }

  lemma AfterTake(p: Peer, q: Peer, parked: map<Handle, Wait>, stopped: bool)
    requires Sound(p, parked, stopped) && Plane !in parked && q == p.(done := q.done, outIds := q.outIds)
    ensures Sound(q, parked, stopped) && (Quiet(p, parked) <==> Quiet(q, parked))
  {
    forall h <- parked
      ensures ReadyFor(p, parked[h]) == ReadyFor(q, parked[h])
    {
      assert Fits(h, parked[h]);
    }
  }

  lemma AfterNic(p: Peer, q: Peer, parked: map<Handle, Wait>, stopped: bool)
    requires Sound(p, parked, stopped) && NicOnly(p, q) && (Audible(p) ==> Audible(q))
    ensures Sound(q, parked, stopped) && (Quiet(p, parked) <==> Quiet(q, parked))
  {
    hide Audible;
    forall h <- parked
      ensures ReadyFor(p, parked[h]) == ReadyFor(q, parked[h])
    {
    }
  }

  lemma SoundResumed(p: Peer, parked: map<Handle, Wait>, stopped: bool, h: Handle)
    requires Sound(p, parked, stopped)
    ensures Sound(p, parked - {h}, stopped) && (Quiet(p, parked) ==> Quiet(p, parked - {h}))
  {
    hide ReadyFor, Audible;
  }

  lemma SoundParked(p: Peer, parked: map<Handle, Wait>, stopped: bool, h: Handle, w: Wait)
    requires Sound(p, parked, stopped) && Fits(h, w) && !p.closed && !ReadyFor(p, w)
    ensures Sound(p, parked[h := w], stopped) && Quiet(p, parked[h := w])
  {
    hide ReadyFor, Audible;
  }

  lemma SoundEmpty(p: Peer, stopped: bool)
    ensures Quiet(p, map[]) && ((stopped ==> p.closed) ==> Sound(p, map[], stopped))
  {
  }

  lemma SoundFacts(p: Peer, parked: map<Handle, Wait>, stopped: bool)
    requires Sound(p, parked, stopped)
    ensures (stopped ==> p.closed && parked == map[]) && (!p.closed ==> Quiet(p, parked))
    ensures p.closed && parked != map[] ==> p.refused && !stopped && Audible(p)
    ensures p.closed ==> (Quiet(p, parked) <==> parked == map[])
  {
    hide ReadyFor, Audible;
    if p.closed {
      ClosedWakes(p, parked);
    }
  }

  /** Every parked handle's task is on the list, which holds no task twice. */
  predicate Listed(tasks: Handle -> nat, parked: map<Handle, Wait>, wakers: seq<nat>) {
    && (forall h <- parked :: tasks(h) in wakers)
    && (forall i, j :: 0 <= i < j < |wakers| ==> wakers[i] != wakers[j])
  }

  /** A call of this end is a stretch of the run. */
  lemma CallRuns(pa: Params, pb: Params, moves: seq<Move>, p: Peer, o: Peer, acts: seq<Action>)
    requires Sys(p, o) == Exec(Start(pa, pb), moves)
    ensures Sys(Call(p, acts), o) == Exec(Start(pa, pb), moves + Moves(true, acts))
  {
    hide Exec, Call, Moves;
    CallIsRun(Sys(p, o), acts);
    ExecAppend(Start(pa, pb), moves, Moves(true, acts));
  }

  // ---- what the NIC changes -------------------------------------------------------------

  /** Only the queues, the receive memory and what has landed. */
  predicate NicOnly(p: Peer, q: Peer) {
    q == p.(sq := q.sq, unacked := q.unacked, posted := q.posted, cq := q.cq, alive := q.alive, accepts := q.accepts,
            recvMem := q.recvMem, landed := q.landed)
  }

  lemma LandIsNic(o: Peer, w: WorkRequest, mem: seq<Frame>)
    requires NeedsRecv(w) ==> o.posted != []
    ensures NicOnly(o, Land(o, w, mem)) && (Audible(o) ==> Audible(Land(o, w, mem)))
  {
    hide Land;
    LandFrame(o, w, mem);
  }

  lemma StepIsNic(s: Sys, m: Move)
    requires Outside(false, m)
    ensures NicOnly(s.a, Step(s, m).a) && (Audible(s.a) ==> Audible(Step(s, m).a))
  {
    hide Poll, PostStaged, CreditReturn, PostPuts, ReadSome, Land;
    if !m.byA && m.act.Deliver? && CanDeliver(s.b, s.a) {
      LandIsNic(s.a, s.b.sq[0], s.b.sendMem);
    }
  }

  lemma {:induction false} RunIsNic(s: Sys, ms: seq<Move>)
    ensures var t := Exec(s, OutsideOf(false, ms)); NicOnly(s.a, t.a) && (Audible(s.a) ==> Audible(t.a))
  {
    hide Step, Audible;
    if ms != [] {
      var front, m := ms[..|ms| - 1], ms[|ms| - 1];
      RunIsNic(s, front);
      if Outside(false, m) {
        var f := OutsideOf(false, front);
        assert (f + [m])[..|f|] == f;
        StepIsNic(Exec(s, f), m);
      } else {
        assert OutsideOf(false, ms) == OutsideOf(false, front);
      }
    }
  }

  lemma InvUsable(p: Peer, o: Peer)
    requires Inv(p, o)
    ensures Usable(p)
  {
    hide WriteOk, Safe, Lossless, InOrder, CqOk, RxOk;
  }

  // ---- draining -----------------------------------------------------------------------

  lemma NoneFail(p: Peer)
    ensures !LastFails(p, [])
  {
  }

  lemma NothingAccepted(p: Peer, len: nat)
    requires Accepted(p, len) == 0 && len > 0 && p.params.cap >= 1
    ensures |p.txStage| + len >= p.params.cap
  {
    MulGrows(0, Sendable(p), p.params.cap);
  }

  lemma CloseMove(s: Sys)
    ensures Step(s, Move(true, MarkClosed)) == Sys(s.a.(closed := true), s.b)
  {
  }

  // ---- the shared state -------------------------------------------------------------------

  /** State shared by the pump and the handles. Handles of one task share its waker. The
      connection is in the state some run has brought it to, with the other end in
      `other`. */
  class Shared {
    const pa: Params
    const pb: Params
    const stream: HordStream
    const readerTask: nat
    const writerTask: nat
    const planeTask: nat
    var other: Peer
    var wakers: seq<nat>
    var stopped: bool
    ghost var moves: seq<Move>
    ghost var parked: map<Handle, Wait>

    function Task(h: Handle): nat {
      match h
      case Reader => readerTask
      case Writer => writerTask
      case Plane => planeTask
    }

    ghost predicate Reached()
      reads this, stream
    {
      Compatible(pa, pb) && Sys(stream.View(), other) == Exec(Start(pa, pb), moves)
    }

    ghost predicate Valid()
      reads this, stream
    {
      Reached() && Sound(stream.View(), parked, stopped) && Listed(Task, parked, wakers)
    }

    /** No parked handle has anything to do. */
    ghost predicate NoLost()
      reads this, stream
    {
      Quiet(stream.View(), parked)
    }

    constructor (pa: Params, pb: Params, readerTask: nat, writerTask: nat, planeTask: nat)
      requires Compatible(pa, pb)
      ensures Valid() && NoLost() && parked == map[] && !stopped && moves == [] && fresh(stream)
      ensures this.pa == pa && this.pb == pb
    {
      this.pa, this.pb := pa, pb;
      stream := new HordStream(pa, pb.pool);
      other := Fresh(pb, pa.pool);
      this.readerTask, this.writerTask, this.planeTask := readerTask, writerTask, planeTask;
      wakers, stopped, parked, moves := [], false, map[], [];
    }

    lemma Facts()
      requires Reached()
      ensures stream.Valid() && Inv(stream.View(), other)
      ensures !stream.closed ==> Audible(stream.View())
    {
      hide Exec, Inv, Usable;
      RunInv(pa, pb, moves);
      InvUsable(stream.View(), other);
      if !stream.closed {
        OpenIsAudible(stream.View(), other);
      }
    }

    lemma ReachedParams()
      requires Reached()
      ensures stream.params == pa
    {
      hide Exec, Inv;
      RunInv(pa, pb, moves);
    }

    /** `register`, as a handle returns Pending. */
    method Register(h: Handle, w: Wait)
      requires Valid() && Fits(h, w) && !stream.closed && !ReadyFor(stream.View(), w)
      modifies `wakers, `parked
      ensures Valid() && parked == old(parked)[h := w] && NoLost()
    {
      hide Exec, ReadyFor, Sound, Quiet;
      SoundParked(stream.View(), parked, stopped, h, w);
      if Task(h) !in wakers {
        wakers := wakers + [Task(h)];
      }
      parked := parked[h := w];
    }

    ghost function StillParked(woken: seq<nat>): map<Handle, Wait>
      reads this
    {
      map h | h in parked && Task(h) !in woken :: parked[h]
    }

    /** `wake_all`: every task on the list runs again, and with it its handles. */
    method WakeAll()
      requires Reached() && (stopped ==> stream.closed) && Listed(Task, parked, wakers)
      modifies `wakers, `parked
      ensures Valid() && parked == map[] && wakers == [] && NoLost()
    {
      hide Exec, Sound, Quiet;
      SoundEmpty(stream.View(), stopped);
      parked := StillParked(wakers);
      wakers := [];
    }

    /** A handle is being polled, so it is not parked. */
    method Resume(h: Handle)
      requires Valid()
      modifies `parked
      ensures Valid() && parked == old(parked) - {h} && (old(NoLost()) ==> NoLost())
    {
      hide Exec, Sound, Quiet;
      SoundResumed(stream.View(), parked, stopped, h);
      parked := parked - {h};
    }

    /** `poll_read`. It waits exactly when there is room, nothing is held and the stream
        is open; zero bytes into a buffer with room mean the end of the stream. */
    method PollRead(out: array<byte>) returns (r: Polled, n: Result<nat, StreamError>)
      requires Valid()
      modifies this, stream, out
      ensures r.Pending? <==> out.Length > 0 && old(stream.rxReady) == [] && !stream.closed
      ensures r.Pending? ==> n == Ok(0) && !CanReturn(stream.View()) && parked == old(parked)[Reader := WaitRead]
      ensures n.Ok? && (old(stream.rxReady) == [] || out.Length == 0) ==> n.value == 0 && out[..] == old(out[..])
      ensures n.Ok? && old(stream.rxReady) != [] && out.Length > 0 ==>
        var held := Held(old(stream.View()));
        && 1 <= n.value == Min(out.Length, |held|) && out[..] == held[..n.value] + old(out[..])[n.value..]
        && stream.log.got == old(stream.log.got) + held[..n.value]
      ensures n.Err? ==> stream.closed && !stream.conn.Posts()
      ensures Valid() && stopped == old(stopped) && (old(stream.closed) ==> stream.closed && r.Ready?)
      ensures stream.closed == (old(stream.closed) || PollReadCloses(old(stream.View()), out.Length))
      ensures parked - {Reader} == old(parked) - {Reader}
      ensures old(NoLost()) ==> (NoLost() <==> !PollReadCloses(old(stream.View()), out.Length) || parked == map[])
    {
      hide Exec, Call, Moves, Inv, CqOk, RxOk, HeldBytes, Usable, Sound, Quiet, Listed, ReadsOnly, Audible;
      Facts();
      Resume(Reader);
      ghost var v := stream.View();
      SoundFacts(v, parked, stopped);
      var taken, acts := stream.TryRead(out);
      CallRuns(pa, pb, moves, v, other, acts);
      moves := moves + Moves(true, acts);
      AfterReads(v, acts, parked, stopped);
      if taken.Err? {
        return Ready, Err(taken.error);
      }
      if taken.value.Some? {
        return Ready, Ok(taken.value.value);
      }
      r, n := ParkReader();
    }

    /** Nothing to read: owed credit goes back, and the reader parks. */
    method ParkReader() returns (r: Polled, n: Result<nat, StreamError>)
      requires Valid() && Reader !in parked && !stream.closed && stream.rxReady == []
      modifies this, stream
      ensures Valid() && stopped == old(stopped) && parked - {Reader} == old(parked) - {Reader}
      ensures stream.closed == (!old(stream.conn.Posts()) && old(CanReturn(stream.View())))
      ensures if stream.closed then r.Ready? && n == Err(StreamError.PostFailed) && !stream.conn.Posts()
        else r.Pending? && n == Ok(0) && !CanReturn(stream.View()) && parked == old(parked)[Reader := WaitRead]
      ensures old(NoLost()) ==> (NoLost() <==> !stream.closed || parked == map[])
    {
      hide Exec, Call, Moves, Inv, CqOk, RxOk, HeldBytes, Usable, Sound, Quiet, Listed, ReadsOnly, Audible;
      Facts();
      ghost var v := stream.View();
      var ok, acts := stream.ReturnOwedCredits(true);
      CallRuns(pa, pb, moves, v, other, acts);
      moves := moves + Moves(true, acts);
      AfterReads(v, acts, parked, stopped);
      if !ok {
        return Ready, Err(StreamError.PostFailed);
      }
      Register(Reader, WaitRead);
      return Pending, Ok(0);
    }

    /** `poll_write`. It waits exactly when none of the buffer can be taken and the stream
        is open. */
    method PollWrite(buf: seq<byte>) returns (r: Polled, n: Result<nat, StreamError>)
      requires Valid()
      modifies this, stream
      ensures r.Pending? <==> buf != [] && Accepted(old(stream.View()), |buf|) == 0 && !stream.closed
      ensures r.Pending? ==> n == Ok(0) && !CanReturn(stream.View()) && parked == old(parked)[Writer := WaitWrite(|buf|)]
      ensures n.Ok? && buf != [] ==>
        && n.value == Accepted(old(stream.View()), |buf|) <= |buf|
        && stream.log.wrote == old(stream.log.wrote) + buf[..n.value]
      ensures buf == [] ==> n == Ok(0) && stream.View() == old(stream.View())
      ensures n.Err? ==> stream.closed
      ensures Valid() && stopped == old(stopped) && (old(stream.closed) ==> stream.closed && r.Ready?)
      ensures stream.closed == (old(stream.closed) || (buf != [] && WriteCloses(old(stream.View()), |buf|)))
      ensures parked - {Writer} == old(parked) - {Writer} && stream.conn.alive == old(stream.conn.alive)
      ensures old(NoLost()) ==> (NoLost() <==> buf == [] || !WriteCloses(old(stream.View()), |buf|) || parked == map[])
    {
      hide Exec, Call, Moves, Inv, CqOk, RxOk, Usable, Sound, Quiet, Listed, WritesOnly, Audible, Accepted;
      Facts();
      Resume(Writer);
      ghost var v := stream.View();
      SoundFacts(v, parked, stopped);
      if buf == [] {
        return Ready, Ok(0);
      }
      UsableFacts(v);
      ghost var acts;
      n, acts := stream.TryWrite(buf);
      CallRuns(pa, pb, moves, v, other, acts);
      moves := moves + Moves(true, acts);
      WritesKeep(v, acts);
      AfterWrites(v, acts, parked, stopped);
      if n != Ok(0) {
        return Ready, n;
      }
      NothingAccepted(v, |buf|);
      Register(Writer, WaitWrite(|buf|));
      return Pending, n;
    }

    /** `poll_flush`, and `poll_shutdown` of the write half. It succeeds (`done`) only with
        nothing staged or outstanding, and if the stream is then not closed every byte ever
        accepted has arrived. */
    method PollFlush() returns (r: Polled, done: bool)
      requires Valid()
      modifies this, stream
      ensures done ==> r.Ready? && Flushed(stream.View())
      ensures done && !stream.closed ==> stream.log.wrote == Arrived(other)
      ensures r.Ready? && !done ==> stream.closed
      ensures r.Pending? ==> !stream.closed && !ReadyFor(stream.View(), WaitFlush) && parked == old(parked)[Writer := WaitFlush]
      ensures Valid() && stopped == old(stopped) && (old(stream.closed) ==> stream.closed && r.Ready?)
      ensures stream.closed == (old(stream.closed) || FlushCloses(old(stream.View())))
      ensures parked - {Writer} == old(parked) - {Writer}
      ensures old(NoLost()) ==> (NoLost() <==> !FlushCloses(old(stream.View())) || parked == map[])
    {
      hide Exec, Call, Moves, Inv, CqOk, RxOk, Usable, Sound, Quiet, Listed, WritesOnly, Audible, Flushed, Arrived;
      Facts();
      Resume(Writer);
      ghost var v := stream.View();
      SoundFacts(v, parked, stopped);
      var clear, acts := stream.TryFlushStage();
      CallRuns(pa, pb, moves, v, other, acts);
      moves := moves + Moves(true, acts);
      WritesKeep(v, acts);
      AfterWrites(v, acts, parked, stopped);
      if clear.Ok? && clear.value && |stream.sendFree| >= stream.params.sendPool && stream.writesOut == 0 {
        ReachedParams();
        RunFlushed(pa, pb, moves);
        return Ready, true;
      }
      if clear.Err? || stream.closed {
        return Ready, false;
      }
      Register(Writer, WaitFlush);
      return Pending, false;
    }

    /** `poll_next`: a queued transfer ID wins even after a close. */
    method PollNext() returns (r: Polled, id: Option<nat>)
      requires Valid()
      modifies this, stream
      ensures Valid() && stopped == old(stopped) && stream.closed == old(stream.closed)
      ensures r.Ready? <==> id.Some? || stream.closed
      ensures old(NoLost()) ==> NoLost()
      ensures id == if old(stream.done) == [] then None else Some(old(stream.done)[0])
      ensures id.None? && !stream.closed ==> r.Pending? && parked == old(parked)[Plane := WaitId] && stream.View() == old(stream.View())
    {
      hide Exec, Call, Moves, Inv, CqOk, RxOk, Usable, Sound, Quiet, Listed, Audible;
      Facts();
      Resume(Plane);
      id := TakeNext();
      if id.Some? || stream.closed {
        return Ready, id;
      }
      Register(Plane, WaitId);
      return Pending, id;
    }

    /** `next_completed_transfer` under the shared borrow. */
    method TakeNext() returns (id: Option<nat>)
      requires Valid() && Plane !in parked
      modifies stream, `moves
      ensures Valid() && stream.closed == old(stream.closed) && (old(NoLost()) ==> NoLost())
      ensures id == if old(stream.done) == [] then None else Some(old(stream.done)[0])
      ensures id.None? ==> stream.View() == old(stream.View())
    {
      hide Exec, Call, Moves, Inv, CqOk, RxOk, Usable, Sound, Quiet, Listed, Audible;
      Facts();
      ghost var v := stream.View();
      ghost var acts;
      id, acts := stream.NextCompletedTransfer();
      CallRuns(pa, pb, moves, v, other, acts);
      moves := moves + Moves(true, acts);
      AfterTake(v, stream.View(), parked, stopped);
    }

    /** `mark_closed`, by the pump. */
    method Close()
      requires Reached()
      modifies stream`closed, `moves
      ensures Reached() && stream.closed
    {
      hide Exec;
      CloseMove(Sys(stream.View(), other));
      ExecSnoc(Start(pa, pb), moves, Move(true, MarkClosed));
      moves := moves + [Move(true, MarkClosed)];
      stream.closed := true;
    }

    /** One turn of `pump_loop`. When it has drained anything, seen a disconnect or hit
        an error, it leaves no handle parked, and it stops once the stream is closed. It
        handles what is in the queue (`acts`), and itself closes the stream exactly when
        that fails, or when there was nothing and the peer is gone. */
    method PumpTurn(disconnected: bool) returns (r: Polled, ghost acts: seq<Action>)
      requires Valid() && !stopped
      modifies this, stream
      ensures Valid() && (old(NoLost()) ==> NoLost())
      ensures r.Ready? ==> parked == map[] && stopped == stream.closed
      ensures r.Pending? ==> stream.View() == old(stream.View()) && !stopped && parked == old(parked)
      ensures r.Ready? <==> disconnected || old(stream.conn.cq) != []
      ensures (forall a <- acts :: a == PollOne) && (acts == [] <==> old(stream.conn.cq) == [])
      ensures r.Ready? ==>
        && var q := Call(old(stream.View()), acts);
        && stream.View() == q.(closed := q.closed || acts == [] || LastFails(old(stream.View()), acts))
        && (stream.conn.cq == [] || LastFails(old(stream.View()), acts))
    {
      hide Exec, Call, Moves, Inv, CqOk, RxOk, Usable, Quiet, Audible, Sound, Listed, LastFails;
      SoundFacts(stream.View(), parked, stopped);
      var n;
      n, acts := DrainShared();
      if n.Ok? && n.value == 0 && !disconnected {
        return Pending, [];
      }
      if n.Err? || n.value == 0 {
        Close();
      }
      WakeAll();
      stopped := stream.closed;
      SoundEmpty(stream.View(), stopped);
      return Ready, acts;
    }

    /** `drain_completions` under the shared borrow. */
    method DrainShared() returns (n: Result<nat, StreamError>, ghost acts: seq<Action>)
      requires Valid() && !stopped
      modifies stream, `moves
      ensures Reached() && stream.View() == Call(old(stream.View()), acts)
      ensures (forall a <- acts :: a == PollOne) && (acts == [] <==> old(stream.conn.cq) == [])
      ensures acts == [] ==> n == Ok(0) && stream.View() == old(stream.View()) && Valid()
      ensures n.Ok? ==> n.value == |acts| && stream.conn.cq == []
      ensures n.Err? <==> LastFails(old(stream.View()), acts)
    {
      hide Exec, Call, Moves, Inv, CqOk, RxOk, Usable, Quiet, Audible, Sound, LastFails;
      Facts();
      ghost var v := stream.View();
      n, acts := stream.DrainCompletions();
      CallNone(v);
      CallRuns(pa, pb, moves, v, other, acts);
      moves := moves + Moves(true, acts);
      NoneFail(v);
    }

    /** What the NICs and the other end do: only the queues and the receive memory of this
        end change, and no handle has anything to do before the pump has drained. */
    method Network(ms: seq<Move>)
      requires Valid()
      modifies this, stream
      ensures Valid() && (NoLost() <==> old(NoLost())) && parked == old(parked) && stopped == old(stopped)
      ensures Sys(stream.View(), other) == Exec(old(Sys(stream.View(), other)), OutsideOf(false, ms))
    {
      hide Exec, Audible, Sound, Quiet, Listed;
      var s := Sys(stream.View(), other);
      var t := Exec(s, OutsideOf(false, ms));
      RunIsNic(s, ms);
      AfterNic(s.a, t.a, parked, stopped);
      ExecAppend(Start(pa, pb), moves, OutsideOf(false, ms));
      moves := moves + OutsideOf(false, ms);
      stream.conn := Connection(t.a.sq, t.a.unacked, t.a.posted, t.a.cq, t.a.alive, t.a.accepts);
      stream.recvMem := t.a.recvMem;
      stream.log := stream.log.(landed := t.a.landed);
      other := t.b;
    }

    /** One event of a schedule; a stopped pump does nothing. */
    method Happen(e: Event)
      requires Valid()
      modifies this, stream
      ensures Valid()
    {
      match e {
        case ReadEvent(len) =>
          var out := new byte[len](_ => 0);
          var _, _ := PollRead(out);
        case WriteEvent(buf) =>
          var _, _ := PollWrite(buf);
        case FlushEvent =>
          var _, _ := PollFlush();
        case NextEvent =>
          var _, _ := PollNext();
        case PumpEvent(disconnected) =>
          if !stopped {
            var _, _ := PumpTurn(disconnected);
          }
        case NetworkEvent(ms) =>
          Network(ms);
      }
    }

    /** No lost wake-up, over any schedule of task polls, pump turns and network moves. As
        long as no post was refused, no parked handle has anything to do. Whatever
        happened, a handle that has something to do is waiting for a pump that is still
        there and has a receive posted or unread to be woken by; and once the pump has
        stopped nobody is parked, and (`PollRead` and the others) nobody parks again. */
    method Run(events: seq<Event>)
      requires Valid()
      modifies this, stream
      ensures Valid()
      ensures !stream.log.refused ==> NoLost()
      ensures NoLost() || (stream.closed && stream.log.refused && !stopped && Audible(stream.View()))
      ensures stopped ==> parked == map[]
    {
      for i := 0 to |events|
        invariant Valid()
      {
        Happen(events[i]);
      }
      SoundFacts(stream.View(), parked, stopped);
    }

    /** On a dead connection that is soon: one flushed receive and one turn of the pump,
        and nobody is parked. */
    method WakeAfterDeath()
      requires Valid() && !NoLost() && !stream.conn.alive
      modifies this, stream
      ensures Valid() && parked == map[]
    {
      hide Exec, Sound, Quiet, Listed;
      SoundFacts(stream.View(), parked, stopped);
      if stream.conn.cq == [] {
        FlushOne(Sys(stream.View(), other));
        Network([Move(true, FlushRecv)]);
      }
      var _, _ := PumpTurn(false);
    }
  }

  lemma OutsideOne(m: Move)
    requires Outside(false, m)
    ensures OutsideOf(false, [m]) == [m]
  {
    assert [m][..0] == [] && OutsideOf(false, []) == [] && [] + [m] == [m];
  }

  lemma FlushOne(s: Sys)
    requires !s.a.alive && s.a.posted != []
    ensures Exec(s, OutsideOf(false, [Move(true, FlushRecv)])).a.cq != []
  {
    hide Exec, OutsideOf;
    var m := Move(true, FlushRecv);
    OutsideOne(m);
    assert [] + [m] == [m];
    ExecSnoc(s, [], m);
  }

  /** The promise fails once a post is refused: the data plane parks, the connection dies,
      and the writer's next post closes the stream, which is what the data plane was
      waiting to see; nothing wakes it yet. */
  method LostWakeup() returns (d: Shared)
    ensures d.Valid() && !d.NoLost() && !d.stream.conn.alive && !d.stopped
  {
    hide Exec, Inv;
    var params := Params(64, 8, 4, 1, false, 0, 0);
    assert Compatible(params, params);
    d := new Shared(params, params, 1, 2, 3);
    FreshState(params, d.stream.View(), d.other, d.moves);
    var r, id := d.PollNext();
    ghost var v := d.stream.View();
    KillOne(Sys(d.stream.View(), d.other));
    d.Network([Move(true, Kill)]);
    assert d.stream.View() == v.(alive := false);
    var w, _ := d.PollWrite([1, 2, 3, 4, 5, 6, 7, 8]);
    assert Plane in d.parked - {Writer};
  }

  lemma KillOne(s: Sys)
    ensures Exec(s, OutsideOf(false, [Move(true, Kill)])).a == s.a.(alive := false)
  {
    hide Exec, OutsideOf, Step;
    var m := Move(true, Kill);
    OutsideOne(m);
    assert [] + [m] == [m];
    ExecSnoc(s, [], m);
    StepFlags(s);
  }

  lemma FreshState(params: Params, p: Peer, o: Peer, moves: seq<Move>)
    requires moves == [] && Sys(p, o) == Exec(Start(params, params), moves) && params.sendPool == 1 && params.pool == 4
    ensures !p.closed && p.done == [] && p.txStage == [] && CanSend(p) && p.params == params
  {
    assert DownFrom(1) == [0];
  }
}
