/** Whole runs: any schedule of moves of the two ends and their NICs, from a fresh
    connection. */
module StreamRuns {
  import opened Basics
  import opened StreamState
  import opened StreamSystem
  import opened StreamSteps

  datatype Sys = Sys(a: Peer, b: Peer)

  datatype Move = Move(byA: bool, act: Action)

  predicate CanMove(s: Sys, m: Move) {
    if m.byA then Enabled(s.a, s.b, m.act) else Enabled(s.b, s.a, m.act)
  }

  /** A move that is not possible leaves the system as it is. */
  function Step(s: Sys, m: Move): Sys {
    if !CanMove(s, m) then s
    else if m.byA then var r := Do(s.a, s.b, m.act); Sys(r.0, r.1)
    else var r := Do(s.b, s.a, m.act); Sys(r.1, r.0)
  }

  function Exec(s: Sys, moves: seq<Move>): Sys {
    if moves == [] then s else Step(Exec(s, moves[..|moves| - 1]), moves[|moves| - 1])
  }

  /** What the handshake leaves the two ends with (see `Negotiation.HandshakeCompatible`). */
  predicate Compatible(pa: Params, pb: Params) {
    && pa.Valid() && pb.Valid() && pa.cap == pb.cap && pa.splitOn == pb.splitOn
    && (pa.splitOn ==> pa.peerSplit <= pb.split && pb.peerSplit <= pa.split)
  }

  function Start(pa: Params, pb: Params): Sys { Sys(Fresh(pa, pb.pool), Fresh(pb, pa.pool)) }

  // ---- the invariant holds in every run ------------------------------------------

  lemma {:induction false} UpToAll(n: nat)
    ensures multiset(UpTo(n)) == All(n)
  {
    hide UpTo;
    if n == 0 {
      assert UpTo(0) == [] by { UpToNone(); }
    } else {
      UpToAll(n - 1);
      UpToSnoc(n);
      assert multiset(UpTo(n)) == multiset(UpTo(n - 1)) + multiset([n - 1]);
    }
  }

  lemma UpToNone()
    ensures UpTo(0) == [] && DownFrom(0) == []
  {
  }

  lemma UpToSnoc(n: nat)
    requires n > 0
    ensures UpTo(n) == UpTo(n - 1) + [n - 1]
  {
  }

  lemma {:induction false} DownFromAll(n: nat)
    ensures multiset(DownFrom(n)) == All(n)
  {
    hide DownFrom;
    if n == 0 {
      assert DownFrom(0) == [] by { UpToNone(); }
    } else {
      DownFromAll(n - 1);
      DownFromCons(n);
      assert multiset(DownFrom(n)) == multiset([n - 1]) + multiset(DownFrom(n - 1));
    }
  }

  lemma DownFromCons(n: nat)
    requires n > 0
    ensures DownFrom(n) == [n - 1] + DownFrom(n - 1)
  {
  }

  lemma FreshSend(params: Params, peerPool: nat)
    requires params.Valid()
    ensures SendOk(Fresh(params, peerPool)) && WriteOk(Fresh(params, peerPool))
  {
    hide All, DownFrom, UpTo;
    DownFromAll(params.sendPool);
  }

  lemma FreshRecv(params: Params, peerPool: nat)
    requires params.Valid()
    ensures RecvOk(Fresh(params, peerPool))
  {
    hide All, DownFrom, UpTo;
    UpToAll(params.Slots());
  }

  lemma FreshPair(pa: Params, pb: Params)
    requires Compatible(pa, pb)
    ensures var s := Start(pa, pb); Safe(s.a, s.b) && Lossless(s.a, s.b) && InOrder(s.a, s.b)
  {
    hide UpTo, DownFrom, BlankMem;
  }

  lemma {:induction false} RunInv(pa: Params, pb: Params, moves: seq<Move>)
    requires Compatible(pa, pb)
    ensures var s := Exec(Start(pa, pb), moves); Inv(s.a, s.b) && s.a.params == pa && s.b.params == pb
  {
    hide SendOk, RecvOk, WriteOk, Safe, Lossless, InOrder, Fresh, Do, Enabled;
    if moves == [] {
      FreshSend(pa, pb.pool);
      FreshRecv(pa, pb.pool);
      FreshSend(pb, pa.pool);
      FreshRecv(pb, pa.pool);
      FreshPair(pa, pb);
      FreshPair(pb, pa);
      FreshParams(pa, pb);
    } else {
      var m := moves[|moves| - 1];
      var s := Exec(Start(pa, pb), moves[..|moves| - 1]);
      RunInv(pa, pb, moves[..|moves| - 1]);
      if CanMove(s, m) {
        if m.byA {
          StepKeeps(s.a, s.b, m.act);
        } else {
          StepKeeps(s.b, s.a, m.act);
        }
      }
    }
  }

  lemma FreshParams(pa: Params, pb: Params)
    ensures Fresh(pa, pb.pool).params == pa && Fresh(pb, pa.pool).params == pb
    ensures !Fresh(pa, pb.pool).refused && !Fresh(pb, pa.pool).refused
  {
  }

  lemma ExecSnoc(s: Sys, moves: seq<Move>, m: Move)
    ensures Exec(s, []) == s && Exec(s, moves + [m]) == Step(Exec(s, moves), m)
  {
    assert (moves + [m])[..|moves|] == moves;
  }

  lemma {:induction false} ExecAppend(s: Sys, a: seq<Move>, b: seq<Move>)
    ensures Exec(s, a + b) == Exec(Exec(s, a), b)
  {
    hide Step;
    if b == [] {
      assert a + b == a;
    } else {
      assert (a + b)[..|a + b| - 1] == a + b[..|b| - 1];
      ExecAppend(s, a, b[..|b| - 1]);
    }
  }
}
