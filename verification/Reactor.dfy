/** The reactor step `poll_reactor`: arming, draining and parking on the completion
    channel, interleaved with the NIC at every point. */
module Reactor {

  /** Where the driver is. The flag of a draining state says whether this drain has
      handled anything yet. */
  datatype Pc = Running | Drain(drained: bool) | CheckCm | Arm | DrainAgain(drained: bool)
              | Ask | Consume | Rearm | DrainAfter(drained: bool) | Parked

  /** `unread`: completions in the queue. `armed`: the next completion will notify.
      `notified`: a notification is pending, so the channel's descriptor is readable. */
  datatype Chan = Chan(unread: nat, armed: bool, notified: bool, pc: Pc)

  /** `Arrive` is the NIC, `Disconnected` what the connection-manager channel shows, `Poll` the
      executor polling the task (again); `Advance` is the driver's next instruction. */
  datatype Event = Arrive | Poll | Advance | Disconnected

  /** A completion reaches the queue; an armed queue notifies once. */
  function Arrived(c: Chan): Chan {
    c.(unread := c.unread + 1, notified := c.notified || c.armed, armed := false)
  }

  /** One poll of the queue inside a drain: one completion handled, or the end of it. */
  function DrainStep(c: Chan, again: Pc, empty: Pc, handled: bool): Chan {
    if c.unread > 0 then c.(unread := c.unread - 1, pc := again)
    else c.(pc := if handled then Running else empty)
  }

  function Advanced(c: Chan): Chan {
    match c.pc
    case Drain(d) => DrainStep(c, Drain(true), CheckCm, d)
    case CheckCm => c.(pc := Arm)
    case Arm => c.(armed := true, pc := DrainAgain(false))
    case DrainAgain(d) => DrainStep(c, DrainAgain(true), Ask, d)
    case Ask => c.(pc := if c.notified then Consume else Parked)
    case Consume => c.(notified := false, pc := Rearm)
    case Rearm => c.(armed := true, pc := DrainAfter(false))
    case DrainAfter(d) => DrainStep(c, DrainAfter(true), Ask, d)
    case Running => c
    case Parked => if c.notified then c.(pc := Ask) else c
  }

  function Happens(c: Chan, e: Event): Chan {
    match e
    case Arrive => Arrived(c)
    case Poll => if c.pc.Running? || c.pc.Parked? then c.(pc := Drain(false)) else c
    case Advance => Advanced(c)
    case Disconnected => if c.pc.CheckCm? then c.(pc := Running) else c
  }

  function Chans(c: Chan, events: seq<Event>): Chan {
    if events == [] then c else Happens(Chans(c, events[..|events| - 1]), events[|events| - 1])
  }

  /** Nothing is lost: the driver will be told, or there is nothing to tell yet and the
      next completion will. */
  predicate Watched(c: Chan) { c.notified || (c.armed && c.unread == 0) }

  predicate ChanOk(c: Chan) {
    match c.pc
    case DrainAgain(d) => d || c.armed || c.notified
    case DrainAfter(d) => d || c.armed || c.notified
    case Ask => Watched(c)
    case Parked => Watched(c)
    case _ => true
  }

  /** No lost completion: whatever the interleaving of the NIC with the driver, whenever
      the driver is parked either a notification is pending or the queue is armed and
      empty. So a completion in the queue of a parked driver always has its
      notification. */
  lemma {:induction false} NoLostCompletion(unread: nat, armed: bool, notified: bool, events: seq<Event>)
    ensures var c := Chans(Chan(unread, armed, notified, Running), events);
      ChanOk(c) && (c.pc.Parked? ==> Watched(c) && (c.unread > 0 ==> c.notified))
  {
    if events != [] {
      NoLostCompletion(unread, armed, notified, events[..|events| - 1]);
    }
  }

  /** A poll of the task and `n` instructions of the driver, with nothing arriving. */
  function Quiet(n: nat): seq<Event> { [Poll] + seq(n, _ => Advance) }

  lemma QuietStep(c: Chan, n: nat)
    ensures Chans(c, Quiet(n + 1)) == Advanced(Chans(c, Quiet(n)))
  {
    assert Quiet(n + 1)[..n + 1] == Quiet(n);
  }

  lemma QuietStart(c: Chan)
    requires c.pc.Running?
    ensures Chans(c, Quiet(0)) == c.(pc := Drain(false))
  {
    assert Quiet(0) == [Poll] && [Poll][..0] == [];
  }

  lemma {:induction false} QuietDrains(c: Chan, i: nat)
    requires c.pc.Running? && i <= c.unread
    ensures Chans(c, Quiet(i)) == c.(unread := c.unread - i, pc := Drain(i > 0))
  {
    if i == 0 {
      QuietStart(c);
    } else {
      QuietDrains(c, i - 1);
      QuietStep(c, i - 1);
    }
  }

  lemma QuietAsks(c: Chan)
    requires c.pc.Running? && c.unread == 0
    ensures Chans(c, Quiet(4)) == Chan(0, true, c.notified, Ask)
  {
    hide Chans, Quiet;
    QuietStart(c);
    QuietStep(c, 0);
    QuietStep(c, 1);
    QuietStep(c, 2);
    QuietStep(c, 3);
  }

  lemma QuietConsumes(c: Chan)
    requires c.pc.Running? && c.unread == 0 && c.notified
    ensures Chans(c, Quiet(8)) == Chan(0, true, false, Ask)
  {
    hide Chans, Quiet;
    QuietAsks(c);
    QuietStep(c, 4);
    QuietStep(c, 5);
    QuietStep(c, 6);
    QuietStep(c, 7);
  }

  lemma {:induction false} QuietParks(c: Chan, n: nat)
    requires c.pc.Running? && c.unread == 0 && n >= if c.notified then 9 else 5
    ensures Chans(c, Quiet(n)) == Chan(0, true, false, Parked)
  {
    hide Chans, Quiet;
    QuietStep(c, n - 1);
    if n > (if c.notified then 9 else 5) {
      QuietParks(c, n - 1);
    } else if c.notified {
      QuietConsumes(c);
    } else {
      QuietAsks(c);
    }
  }

  /** And it does park: while nothing arrives, a poll that finds completions handles them
      all and reports progress, and the next one ends parked, armed and with no stale
      notification, after at most nine instructions, and stays there. */
  lemma ParksWhenQuiet(c: Chan, n: nat)
    requires c.pc.Running?
    ensures c.unread > 0 ==> Chans(c, Quiet(c.unread + 1)) == c.(unread := 0)
    ensures n >= 9 ==> Chans(c.(unread := 0), Quiet(n)) == Chan(0, true, false, Parked)
  {
    hide Chans, Quiet;
    QuietDrains(c, c.unread);
    QuietStep(c, c.unread);
    if n >= 9 {
      QuietParks(c.(unread := 0), n);
    }
  }

  datatype PollResult = Ready | Pending

  function Total(ns: seq<nat>): nat { if ns == [] then 0 else ns[0] + Total(ns[1..]) }

  /** The same step as code. `arrivals` says how many completions the NIC adds between
      one instruction and the next. */
  class CompletionChannel {
    var unread: nat
    var armed: bool
    var notified: bool
    var arrivals: seq<nat>

    ghost function View(pc: Pc): Chan
      reads this
    {
      Chan(unread, armed, notified, pc)
    }

    constructor (unread: nat, arrivals: seq<nat>)
      ensures this.unread == unread && !armed && !notified && this.arrivals == arrivals
    {
      this.unread, this.armed, this.notified, this.arrivals := unread, false, false, arrivals;
    }

    /** The NIC's turn. */
    method Nic()
      modifies this
      ensures old(Watched(View(Parked))) ==> Watched(View(Parked))
      ensures old(armed) || old(notified) ==> armed || notified
      ensures old(unread) <= unread && unread + Total(arrivals) == old(unread) + Total(old(arrivals))
      ensures if old(arrivals) == [] then View(Parked) == old(View(Parked)) && arrivals == []
              else |arrivals| < |old(arrivals)|
    {
      if arrivals == [] {
        return;
      }
      var n := arrivals[0];
      arrivals := arrivals[1..];
      if n > 0 {
        unread, notified, armed := unread + n, notified || armed, false;
      }
    }

    /** `drain_completions`; `n` is how many it handled. */
    method DrainCompletions() returns (n: nat)
      modifies this
      ensures unread == 0 && |arrivals| <= |old(arrivals)|
      ensures n + Total(arrivals) == old(unread) + Total(old(arrivals)) && n >= old(unread)
      ensures n == 0 ==> View(Parked) == old(View(Parked)) && arrivals == old(arrivals)
    {
      n := 0;
      while unread > 0
        invariant |arrivals| <= |old(arrivals)| && n + unread >= old(unread)
        invariant n + unread + Total(arrivals) == old(unread) + Total(old(arrivals))
        invariant n == 0 ==> View(Parked) == old(View(Parked)) && arrivals == old(arrivals)
        decreases |arrivals|, unread
      {
        unread, n := unread - 1, n + 1;
        Nic();
      }
    }

    /** `poll_reactor`. It reports progress exactly when it handled a completion
        (`handled` of them) or saw a disconnect; otherwise it parks, and then nothing can be
        missed: the queue is empty and armed, and no notification is pending. */
    method PollReactor(disconnected: bool) returns (r: PollResult, ghost handled: nat)
      modifies this
      ensures r.Ready? <==> handled > 0 || disconnected
      ensures unread + handled + Total(arrivals) == old(unread) + Total(old(arrivals)) && handled >= old(unread)
      ensures r.Pending? ==> unread == 0 && armed && !notified
      ensures old(unread) + Total(old(arrivals)) == 0 ==> r == if disconnected then Ready else Pending
    {
      var drained := DrainCompletions();
      if drained > 0 {
        return Ready, drained;
      }
      Nic();
      if disconnected {
        return Ready, 0;
      }
      armed := true;
      Nic();
      drained := DrainCompletions();
      if drained > 0 {
        return Ready, drained;
      }
      while true
        invariant Watched(View(Parked)) && unread + Total(arrivals) == old(unread) + Total(old(arrivals)) && old(unread) == 0
        decreases |arrivals|, if notified then 1 else 0
      {
        Nic();
        if !notified {
          return Pending, 0;
        }
        notified := false;
        Nic();
        armed := true;
        Nic();
        drained := DrainCompletions();
        if drained > 0 {
          return Ready, drained;
        }
      }
    }
  }
}
