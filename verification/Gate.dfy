/**
 The handler gate one cluster worker shares between its broker connections: permits, a bounded queue of
 waiters, abort signals, and releases that may be called any number of times.
 */
module Gate {
  import opened Basics

  /** A queued acquire; tickets number the acquires in the order they were made. */
  datatype Waiter = Waiter(ticket: nat, signal: nat)

  /** `grants` lists the acquires that got a permit, in that order; `released` those whose release ran.
      `aborted` holds the signals that have fired, whose listeners may run later. */
  datatype Gate = Gate(
    limit: nat, maxWaiting: nat, active: int, waiters: seq<Waiter>,
    aborted: set<nat>, next: nat, grants: seq<nat>, released: set<nat>, rejected: set<nat>)

  function Fresh(limit: nat, maxWaiting: nat): Gate {
    Gate(limit, maxWaiting, 0, [], {}, 0, [], {}, {})
  }

  // ---------------------------------------------------------------- the steps

  function AfterAcquire(g: Gate, signal: nat): Gate {
    var g1 := g.(next := g.next + 1);
    if signal in g.aborted then g1.(rejected := g.rejected + {g.next})
    else if g.active < g.limit then g1.(active := g.active + 1, grants := g.grants + [g.next])
    else if |g.waiters| >= g.maxWaiting then g1.(rejected := g.rejected + {g.next})
    else g1.(waiters := g.waiters + [Waiter(g.next, signal)])
  }

  /** One turn of the loop in a release: the oldest waiter starts, or is rejected if its signal fired. */
  function Shift(g: Gate): Gate
    requires g.waiters != []
  {
    var w := g.waiters[0];
    if w.signal in g.aborted then g.(waiters := g.waiters[1..], rejected := g.rejected + {w.ticket})
    else g.(waiters := g.waiters[1..], active := g.active + 1, grants := g.grants + [w.ticket])
  }

  function Drain(g: Gate): Gate
    decreases |g.waiters|
  {
    if g.waiters != [] && g.active < g.limit then Drain(Shift(g)) else g
  }

  function AfterRelease(g: Gate, ticket: nat): Gate {
    if ticket in g.released then g else Drain(g.(released := g.released + {ticket}, active := g.active - 1))
  }

  function Fire(g: Gate, signal: nat): Gate {
    g.(aborted := g.aborted + {signal})
  }

  function RemoveTicket(waiters: seq<Waiter>, ticket: nat): seq<Waiter> {
    if waiters == [] then []
    else if waiters[0].ticket == ticket then waiters[1..]
    else [waiters[0]] + RemoveTicket(waiters[1..], ticket)
  }

  predicate Waiting(g: Gate, ticket: nat) {
    exists i :: 0 <= i < |g.waiters| && g.waiters[i].ticket == ticket
  }

  /** The abort listener of a waiter. */
  function AfterListen(g: Gate, ticket: nat): Gate {
    g.(waiters := RemoveTicket(g.waiters, ticket), rejected := g.rejected + {ticket})
  }

  datatype Step = DoAcquire(signal: nat) | DoRelease(ticket: nat) | DoFire(signal: nat) | DoListen(ticket: nat)

  predicate Enabled(g: Gate, step: Step) {
    match step
    case DoAcquire(_) => true
    case DoRelease(ticket) => ticket in g.grants
    case DoFire(_) => true
    case DoListen(ticket) => exists i ::
      0 <= i < |g.waiters| && g.waiters[i].ticket == ticket && g.waiters[i].signal in g.aborted
  }

  function Apply(g: Gate, step: Step): Gate {
    match step
    case DoAcquire(signal) => AfterAcquire(g, signal)
    case DoRelease(ticket) => AfterRelease(g, ticket)
    case DoFire(signal) => Fire(g, signal)
    case DoListen(ticket) => AfterListen(g, ticket)
  }

  // ---------------------------------------------------------------- the invariant

  ghost function Outstanding(g: Gate): set<nat> {
    Elements(g.grants) - g.released
  }

  ghost predicate PermitsCounted(g: Gate) {
    g.active == |Outstanding(g)| <= g.limit && g.released <= Elements(g.grants)
  }

  /** Nobody waits while a permit is free. */
  ghost predicate Busy(g: Gate) {
    |g.waiters| <= g.maxWaiting && (g.waiters != [] ==> g.active == g.limit)
  }

  /** First come, first served: grants happen in ticket order, and no waiter is older than a grant. */
  ghost predicate InOrder(g: Gate) {
    && Increasing(g.grants)
    && (forall i, j :: 0 <= i < j < |g.waiters| ==> g.waiters[i].ticket < g.waiters[j].ticket)
    && (forall t, i :: t in g.grants && 0 <= i < |g.waiters| ==> t < g.waiters[i].ticket)
    && (forall i :: 0 <= i < |g.waiters| ==> g.waiters[i].ticket < g.next)
    && (forall t :: t in g.grants ==> t < g.next)
  }

  /** Every acquire made so far was granted, was rejected or is waiting: exactly one of the three. */
  ghost predicate Accounted(g: Gate) {
    && (forall t: nat :: t < g.next <==> t in g.grants || t in g.rejected || Waiting(g, t))
    && (forall t :: t in g.rejected ==> t !in g.grants && !Waiting(g, t))
  }

  ghost predicate Inv(g: Gate) {
    PermitsCounted(g) && Busy(g) && InOrder(g) && Accounted(g)
  }

  lemma FreshInv(limit: nat, maxWaiting: nat)
    ensures Inv(Fresh(limit, maxWaiting))
  {
    assert Outstanding(Fresh(limit, maxWaiting)) == {};
  }

  lemma GrantCounts(grants: seq<nat>, released: set<nat>, t: nat)
    requires t !in grants && t !in released
    ensures |Elements(grants + [t]) - released| == |Elements(grants) - released| + 1
  {
    assert Elements(grants + [t]) - released == (Elements(grants) - released) + {t};
  }

  lemma AcquirePermits(g: Gate, signal: nat)
    requires PermitsCounted(g) && InOrder(g)
    ensures PermitsCounted(AfterAcquire(g, signal))
  {
    hide Elements, Increasing;
    GrantCounts(g.grants, g.released, g.next);
  }

  lemma AcquireOrder(g: Gate, signal: nat)
    requires InOrder(g) && Busy(g)
    ensures InOrder(AfterAcquire(g, signal))
  {
    hide Elements, Increasing;
    GrantOrders(g.grants, g.next);
  }

  lemma AcquireAccounts(g: Gate, signal: nat)
    requires InOrder(g) && Accounted(g)
    ensures Accounted(AfterAcquire(g, signal))
  {
    hide Elements, Increasing;
    var h := AfterAcquire(g, signal);
    NextIsNew(g);
    if |h.waiters| > |g.waiters| {
      WaitingGrows(g, h);
    } else {
      SameWaiting(g, h);
    }
  }

  lemma NextIsNew(g: Gate)
    requires InOrder(g) && Accounted(g)
    ensures g.next !in g.grants && g.next !in g.rejected && !Waiting(g, g.next)
  {
  }

  lemma SameWaiting(g: Gate, h: Gate)
    requires g.waiters == h.waiters
    ensures forall t :: Waiting(h, t) <==> Waiting(g, t)
  {
  }

  lemma AcquireBusy(g: Gate, signal: nat)
    requires Busy(g) && g.active <= g.limit
    ensures Busy(AfterAcquire(g, signal))
  {
  }

  lemma WaitingNotGranted(g: Gate, t: nat)
    requires InOrder(g) && Waiting(g, t)
    ensures t !in g.grants
  {
  }

  lemma AcquireInv(g: Gate, signal: nat)
    requires Inv(g)
    ensures Inv(AfterAcquire(g, signal))
  {
    hide PermitsCounted, InOrder, Accounted, Busy;
    CountWithin(g);
    AcquireBusy(g, signal);
    AcquirePermits(g, signal);
    AcquireOrder(g, signal);
    AcquireAccounts(g, signal);
  }

  lemma GrantOrders(grants: seq<nat>, t: nat)
    requires Increasing(grants) && forall x :: x in grants ==> x < t
    ensures Increasing(grants + [t]) && Elements(grants + [t]) == Elements(grants) + {t}
  {
    forall i | 0 <= i < |grants| ensures grants[i] < t {
      assert grants[i] in grants;
    }
  }

  lemma WaitingGrows(g: Gate, h: Gate)
    requires h.waiters != [] && h.waiters[..|h.waiters| - 1] == g.waiters
    ensures forall t :: Waiting(h, t) <==> Waiting(g, t) || t == h.waiters[|h.waiters| - 1].ticket
  {
    var n := |g.waiters|;
    assert forall i :: 0 <= i < n ==> h.waiters[i] == g.waiters[i];
    forall t ensures Waiting(h, t) <==> Waiting(g, t) || t == h.waiters[n].ticket {
      if Waiting(g, t) {
        var i :| 0 <= i < n && g.waiters[i].ticket == t;
        assert h.waiters[i].ticket == t;
      }
    }
  }

  /** The invariant inside the loop, where a permit may be free although someone waits. */
  ghost predicate LoopInv(g: Gate) {
    PermitsCounted(g) && |g.waiters| <= g.maxWaiting && InOrder(g) && Accounted(g)
  }

  lemma ShiftedWaiting(g: Gate)
    requires g.waiters != [] && InOrder(g)
    ensures forall t :: Waiting(Shift(g), t) <==> Waiting(g, t) && t != g.waiters[0].ticket
  {
    var h := Shift(g);
    assert forall i :: 0 <= i < |h.waiters| ==> h.waiters[i] == g.waiters[i + 1];
    forall t ensures Waiting(h, t) <==> Waiting(g, t) && t != g.waiters[0].ticket {
      if Waiting(g, t) && t != g.waiters[0].ticket {
        var i :| 0 <= i < |g.waiters| && g.waiters[i].ticket == t;
        assert h.waiters[i - 1].ticket == t;
      }
    }
  }

  lemma ShiftPermits(g: Gate)
    requires PermitsCounted(g) && InOrder(g) && g.waiters != [] && g.active < g.limit
    ensures PermitsCounted(Shift(g))
  {
    hide Elements, Increasing;
    GrantCounts(g.grants, g.released, g.waiters[0].ticket);
  }

  lemma ShiftOrder(g: Gate)
    requires InOrder(g) && g.waiters != []
    ensures InOrder(Shift(g))
  {
    hide Elements, Increasing;
    GrantOrders(g.grants, g.waiters[0].ticket);
  }

  lemma ShiftAccounts(g: Gate)
    requires InOrder(g) && Accounted(g) && g.waiters != []
    ensures Accounted(Shift(g))
  {
    hide Waiting, InOrder;
    ShiftedWaiting(g);
    HeadWaits(g);
    WaitingNotGranted(g, g.waiters[0].ticket);
  }

  lemma ShiftInv(g: Gate)
    requires LoopInv(g) && g.waiters != [] && g.active < g.limit
    ensures LoopInv(Shift(g))
  {
    hide PermitsCounted, InOrder, Accounted;
    ShiftPermits(g);
    ShiftOrder(g);
    ShiftAccounts(g);
  }

  lemma HeadWaits(g: Gate)
    requires g.waiters != []
    ensures Waiting(g, g.waiters[0].ticket)
  {
  }

  lemma {:induction false} DrainInv(g: Gate)
    requires LoopInv(g)
    ensures Inv(Drain(g))
    decreases |g.waiters|
  {
    hide PermitsCounted, InOrder, Accounted, Shift;
    if g.waiters != [] && g.active < g.limit {
      ShiftInv(g);
      ShiftShortens(g);
      DrainInv(Shift(g));
    } else {
      CountWithin(g);
    }
  }

  lemma ShiftShortens(g: Gate)
    requires g.waiters != []
    ensures |Shift(g).waiters| == |g.waiters| - 1
  {
  }

  lemma CountWithin(g: Gate)
    requires PermitsCounted(g)
    ensures g.active <= g.limit
  {
  }

  lemma ReturnPermit(g: Gate, ticket: nat)
    requires PermitsCounted(g) && ticket in g.grants && ticket !in g.released
    ensures PermitsCounted(g.(released := g.released + {ticket}, active := g.active - 1))
  {
    var h := g.(released := g.released + {ticket}, active := g.active - 1);
    assert ticket in Outstanding(g);
    assert Outstanding(h) == Outstanding(g) - {ticket};
  }

  lemma ReleaseInv(g: Gate, ticket: nat)
    requires Inv(g) && ticket in g.grants && ticket !in g.released
    ensures Inv(AfterRelease(g, ticket))
  {
    hide Drain, PermitsCounted, Waiting, Increasing;
    var h := g.(released := g.released + {ticket}, active := g.active - 1);
    ReturnPermit(g, ticket);
    SameWaiting(g, h);
    DrainInv(h);
  }

  lemma {:induction false} RemovedMembers(waiters: seq<Waiter>, ticket: nat)
    requires forall i, j :: 0 <= i < j < |waiters| ==> waiters[i].ticket < waiters[j].ticket
    ensures |RemoveTicket(waiters, ticket)| <= |waiters|
    ensures forall w :: w in RemoveTicket(waiters, ticket) <==> w in waiters && w.ticket != ticket
  {
    if waiters != [] {
      RemovedMembers(waiters[1..], ticket);
      assert waiters == [waiters[0]] + waiters[1..];
      assert forall w :: w in waiters[1..] ==> waiters[0].ticket < w.ticket;
    }
  }

  lemma {:induction false} RemovedOrder(waiters: seq<Waiter>, ticket: nat)
    requires forall i, j :: 0 <= i < j < |waiters| ==> waiters[i].ticket < waiters[j].ticket
    ensures var r := RemoveTicket(waiters, ticket); forall i, j :: 0 <= i < j < |r| ==> r[i].ticket < r[j].ticket
  {
    if waiters != [] {
      RemovedOrder(waiters[1..], ticket);
      RemovedMembers(waiters[1..], ticket);
      var r := RemoveTicket(waiters[1..], ticket);
      forall j | 0 <= j < |r| ensures waiters[0].ticket < r[j].ticket {
        assert r[j] in waiters[1..];
      }
    }
  }

  lemma RemovedWaiting(waiters: seq<Waiter>, ticket: nat)
    requires forall i, j :: 0 <= i < j < |waiters| ==> waiters[i].ticket < waiters[j].ticket
    ensures var r := RemoveTicket(waiters, ticket);
            && |r| <= |waiters| && (forall w :: w in r <==> w in waiters && w.ticket != ticket)
            && forall i, j :: 0 <= i < j < |r| ==> r[i].ticket < r[j].ticket
  {
    hide RemoveTicket;
    RemovedMembers(waiters, ticket);
    RemovedOrder(waiters, ticket);
  }

  lemma ListenOrder(g: Gate, ticket: nat)
    requires InOrder(g)
    ensures InOrder(AfterListen(g, ticket)) && |AfterListen(g, ticket).waiters| <= |g.waiters|
  {
    hide Elements, Increasing, RemoveTicket;
    var h := AfterListen(g, ticket);
    RemovedWaiting(g.waiters, ticket);
    forall i | 0 <= i < |h.waiters| ensures h.waiters[i] in g.waiters {
      assert h.waiters[i] in h.waiters;
    }
  }

  lemma ListenAccounts(g: Gate, ticket: nat)
    requires InOrder(g) && Accounted(g) && Waiting(g, ticket)
    ensures Accounted(AfterListen(g, ticket))
  {
    hide RemoveTicket, InOrder;
    var h := AfterListen(g, ticket);
    WaitingShrinks(g, ticket);
    WaitingNotGranted(g, ticket);
    hide Waiting;
  }

  lemma WaitingShrinks(g: Gate, ticket: nat)
    requires InOrder(g)
    ensures forall t :: Waiting(AfterListen(g, ticket), t) <==> Waiting(g, t) && t != ticket
  {
    hide RemoveTicket;
    var h := AfterListen(g, ticket);
    RemovedWaiting(g.waiters, ticket);
    forall t ensures Waiting(h, t) <==> Waiting(g, t) && t != ticket {
      if Waiting(g, t) && t != ticket {
        var i :| 0 <= i < |g.waiters| && g.waiters[i].ticket == t;
        assert g.waiters[i] in h.waiters;
      }
      if Waiting(h, t) {
        var i :| 0 <= i < |h.waiters| && h.waiters[i].ticket == t;
        assert h.waiters[i] in h.waiters;
      }
    }
  }

  lemma ListenInv(g: Gate, ticket: nat)
    requires Inv(g) && Waiting(g, ticket)
    ensures Inv(AfterListen(g, ticket))
  {
    hide InOrder, Accounted, Waiting, RemoveTicket;
    ListenOrder(g, ticket);
    ListenAccounts(g, ticket);
    assert Outstanding(AfterListen(g, ticket)) == Outstanding(g);
    if AfterListen(g, ticket).waiters != [] {
      assert g.waiters != [];
    }
  }

  /** Every step keeps the gate's promises. */
  lemma StepInv(g: Gate, step: Step)
    requires Inv(g) && Enabled(g, step)
    ensures Inv(Apply(g, step))
  {
    hide Inv;
    match step {
      case DoAcquire(signal) => AcquireInv(g, signal);
      case DoRelease(ticket) =>
        if ticket !in g.released {
          ReleaseInv(g, ticket);
        }
      case DoFire(signal) => FireInv(g, signal);
      case DoListen(ticket) => ListenInv(g, ticket);
    }
  }

  lemma FireInv(g: Gate, signal: nat)
    requires Inv(g)
    ensures Inv(Fire(g, signal))
  {
    assert forall t :: Waiting(Fire(g, signal), t) <==> Waiting(g, t);
  }

  // ---------------------------------------------------------------- runs

  ghost predicate IsRun(gates: seq<Gate>, steps: seq<Step>, limit: nat, maxWaiting: nat) {
    && |gates| == |steps| + 1 && gates[0] == Fresh(limit, maxWaiting)
    && forall i :: 0 <= i < |steps| ==> Enabled(gates[i], steps[i]) && gates[i + 1] == Apply(gates[i], steps[i])
  }

  /** In every interleaving of acquires, aborts, listeners and releases, in every state: active permits
      are exactly those granted and not released and stay within the limit, the queue stays within its
      bound, nobody waits beside a free permit, and no grant overtakes an older waiter. */
  lemma {:induction false} RunKeepsInv(gates: seq<Gate>, steps: seq<Step>, limit: nat, maxWaiting: nat, i: nat)
    requires IsRun(gates, steps, limit, maxWaiting) && i < |gates|
    ensures Inv(gates[i])
  {
    hide Inv, Apply;
    if i == 0 {
      FreshInv(limit, maxWaiting);
    } else {
      RunKeepsInv(gates, steps, limit, maxWaiting, i - 1);
      StepInv(gates[i - 1], steps[i - 1]);
    }
  }

  lemma {:induction false} DrainHistory(g: Gate)
    ensures g.grants <= Drain(g).grants && g.released == Drain(g).released && g.aborted == Drain(g).aborted
    ensures g.next == Drain(g).next && g.rejected <= Drain(g).rejected
    decreases |g.waiters|
  {
    if g.waiters != [] && g.active < g.limit {
      DrainHistory(Shift(g));
    }
  }

  /** Releasing again has no effect. */
  lemma ReleaseTwice(g: Gate, ticket: nat)
    ensures AfterRelease(AfterRelease(g, ticket), ticket) == AfterRelease(g, ticket)
  {
    hide Drain;
    if ticket !in g.released {
      DrainHistory(g.(released := g.released + {ticket}, active := g.active - 1));
    }
  }

  /** Over a run: once a permit is released, releasing it again changes nothing, at any later time. */
  lemma {:induction false} ReleasedForGood(gates: seq<Gate>, steps: seq<Step>, limit: nat, maxWaiting: nat, i: nat,
                                           j: nat, ticket: nat)
    requires IsRun(gates, steps, limit, maxWaiting) && i <= j < |gates| && ticket in gates[i].released
    ensures ticket in gates[j].released && AfterRelease(gates[j], ticket) == gates[j]
    decreases j
  {
    hide Inv, Apply, Drain;
    if i < j {
      ReleasedForGood(gates, steps, limit, maxWaiting, i, j - 1, ticket);
      RunKeepsInv(gates, steps, limit, maxWaiting, j - 1);
      StepHistory(gates[j - 1], steps[j - 1]);
    }
  }

  /** Steps only ever extend the list of grants, so over a run permits go out in ticket order. */
  lemma StepHistory(g: Gate, step: Step)
    requires Inv(g) && Enabled(g, step)
    ensures g.grants <= Apply(g, step).grants && g.released <= Apply(g, step).released
  {
    hide Drain, Inv;
    match step {
      case DoRelease(ticket) =>
        if ticket !in g.released {
          DrainHistory(g.(released := g.released + {ticket}, active := g.active - 1));
        }
      case _ =>
    }
  }

  lemma {:induction false} DrainRejects(g: Gate, ticket: nat)
    requires ticket in Drain(g).rejected && ticket !in g.rejected
    ensures exists w :: w in g.waiters && w.ticket == ticket && w.signal in g.aborted
    decreases |g.waiters|
  {
    if g.waiters != [] && g.active < g.limit {
      var h := Shift(g);
      if ticket in h.rejected {
        assert g.waiters[0] in g.waiters;
      } else {
        DrainRejects(h, ticket);
        var w :| w in h.waiters && w.ticket == ticket && w.signal in h.aborted;
        assert w in g.waiters;
      }
    }
  }

  /** A waiter is only ever turned away because its signal fired. */
  lemma RejectedWaiterAborted(g: Gate, step: Step, ticket: nat)
    requires Inv(g) && Enabled(g, step) && Waiting(g, ticket) && ticket in Apply(g, step).rejected
    ensures exists w :: w in g.waiters && w.ticket == ticket && w.signal in g.aborted
  {
    hide Drain;
    assert ticket !in g.rejected;
    match step {
      case DoRelease(released) =>
        if released !in g.released {
          DrainRejects(g.(released := g.released + {released}, active := g.active - 1), ticket);
        }
      case DoListen(listener) =>
        var i :| 0 <= i < |g.waiters| && g.waiters[i].ticket == listener && g.waiters[i].signal in g.aborted;
        assert g.waiters[i] in g.waiters;
      case _ =>
    }
  }

  lemma {:induction false} DrainGrants(g: Gate, ticket: nat)
    requires InOrder(g) && ticket in Drain(g).grants && ticket !in g.grants
    ensures exists w :: w in g.waiters && w.ticket == ticket && w.signal !in g.aborted
    decreases |g.waiters|
  {
    hide InOrder;
    if g.waiters != [] && g.active < g.limit {
      var h := Shift(g);
      ShiftOrder(g);
      if ticket in h.grants {
        assert g.waiters[0] in g.waiters;
      } else {
        DrainGrants(h, ticket);
        var w :| w in h.waiters && w.ticket == ticket && w.signal !in h.aborted;
        assert w in g.waiters;
      }
    }
  }

  /** A permit goes only to an acquire whose signal has not fired: a new one, or one that waited. */
  lemma GrantedNotAborted(g: Gate, step: Step, ticket: nat)
    requires Inv(g) && Enabled(g, step) && ticket in Apply(g, step).grants && ticket !in g.grants
    ensures || (step.DoAcquire? && ticket == g.next && step.signal !in g.aborted)
            || exists w :: w in g.waiters && w.ticket == ticket && w.signal !in g.aborted
  {
    hide Drain, Inv;
    match step {
      case DoAcquire(signal) => AcquireFacts(g);
      case DoRelease(released) =>
        if released !in g.released {
          var h := g.(released := g.released + {released}, active := g.active - 1);
          OrderOf(g, h);
          DrainGrants(h, ticket);
        }
      case _ =>
    }
  }

  lemma OrderOf(g: Gate, h: Gate)
    requires Inv(g) && h.grants == g.grants && h.waiters == g.waiters && h.next == g.next
    ensures InOrder(h)
  {
  }

  /** Over a run: a waiter whose signal has fired while it waits never gets a permit. */
  lemma {:induction false} AbortedNeverGranted(gates: seq<Gate>, steps: seq<Step>, limit: nat, maxWaiting: nat, i: nat,
                                               j: nat, w: Waiter)
    requires IsRun(gates, steps, limit, maxWaiting) && i <= j < |gates|
    requires w in gates[i].waiters && w.signal in gates[i].aborted
    ensures w.ticket !in gates[j].grants && w.signal in gates[j].aborted && w.ticket < gates[j].next
    ensures forall v :: v in gates[j].waiters && v.ticket == w.ticket ==> v == w
    decreases j
  {
    hide Inv, Apply, Enabled;
    RunKeepsInv(gates, steps, limit, maxWaiting, j);
    if i < j {
      AbortedNeverGranted(gates, steps, limit, maxWaiting, i, j - 1, w);
      RunKeepsInv(gates, steps, limit, maxWaiting, j - 1);
      assert Enabled(gates[j - 1], steps[j - 1]) && gates[j - 1 + 1] == Apply(gates[j - 1], steps[j - 1]);
      StepWaiters(gates[j - 1], steps[j - 1]);
      if w.ticket in gates[j].grants {
        GrantedNotAborted(gates[j - 1], steps[j - 1], w.ticket);
      }
    } else {
      WaiterAlone(gates[i], w);
    }
  }

  lemma WaiterAlone(g: Gate, w: Waiter)
    requires Inv(g) && w in g.waiters
    ensures w.ticket !in g.grants && w.ticket < g.next && forall v :: v in g.waiters && v.ticket == w.ticket ==> v == w
  {
    hide PermitsCounted, Busy, Accounted, Increasing;
  }

  /** Waiters come only from acquires, signals stay fired, and tickets are not used twice. */
  lemma StepWaiters(g: Gate, step: Step)
    requires Inv(g) && Enabled(g, step)
    ensures forall v :: v in Apply(g, step).waiters ==> v in g.waiters || v.ticket >= g.next
    ensures g.aborted <= Apply(g, step).aborted && g.next <= Apply(g, step).next
    ensures step.DoFire? ==> step.signal in Apply(g, step).aborted
  {
    hide Drain, Inv, RemoveTicket;
    match step {
      case DoRelease(released) =>
        if released !in g.released {
          DrainHistory(g.(released := g.released + {released}, active := g.active - 1));
          DrainWaiters(g.(released := g.released + {released}, active := g.active - 1));
        }
      case DoListen(ticket) =>
        OrderOf(g, g);
        hide Increasing;
        RemovedMembers(g.waiters, ticket);
      case _ =>
    }
  }

  lemma {:induction false} DrainWaiters(g: Gate)
    ensures forall v :: v in Drain(g).waiters ==> v in g.waiters
    decreases |g.waiters|
  {
    if g.waiters != [] && g.active < g.limit {
      DrainWaiters(Shift(g));
    }
  }

  // ---------------------------------------------------------------- the class

  class HandlerGate {
    const limit: nat
    const maxWaiting: nat
    var active: int
    var waiters: seq<Waiter>
    /** The signals that have fired, the acquires made, and what their promises and closures hold. */
    var aborted: set<nat>
    var next: nat
    var grants: seq<nat>
    var released: set<nat>
    var rejected: set<nat>

    ghost function View(): Gate
      reads this
    {
      Gate(limit, maxWaiting, active, waiters, aborted, next, grants, released, rejected)
    }

    constructor (limit: nat, maxWaiting: nat)
      ensures View() == Fresh(limit, maxWaiting) && Inv(View())
    {
      this.limit, this.maxWaiting := limit, maxWaiting;
      active, waiters, aborted, next, grants, released, rejected := 0, [], {}, 0, [], {}, {};
      new;
      FreshInv(limit, maxWaiting);
    }

    /** The acquire is granted at once exactly when a permit is outstanding to nobody, and then nobody
        waits; it is turned away at once exactly when its signal has fired or the queue is full too. */
    method Acquire(signal: nat)
      requires Inv(View())
      modifies this
      ensures Inv(View()) && View() == AfterAcquire(old(View()), signal)
      ensures old(next) in grants <==> signal !in old(aborted) && |Outstanding(old(View()))| < limit
      ensures old(next) in grants ==> waiters == [] && Last(grants) == old(next)
      ensures old(next) in rejected <==>
                signal in old(aborted) || (|Outstanding(old(View()))| == limit && |old(waiters)| == maxWaiting)
      ensures old(next) !in grants && old(next) !in rejected ==> waiters == old(waiters) + [Waiter(old(next), signal)]
    {
      hide Inv, Outstanding;
      AcquireInv(View(), signal);
      AcquireFacts(View());
      var ticket := next;
      next := next + 1;
      if signal in aborted {
        rejected := rejected + {ticket};
        return;
      }
      if active < limit {
        active := active + 1;
        grants := grants + [ticket];
        return;
      }
      if |waiters| >= maxWaiting {
        rejected := rejected + {ticket};
        return;
      }
      waiters := waiters + [Waiter(ticket, signal)];
    }

    /** The release closure: once, then never again; and while a permit is free the queue moves. */
    method Release(ticket: nat)
      requires Inv(View()) && ticket in grants
      modifies this
      ensures Inv(View()) && View() == AfterRelease(old(View()), ticket)
      ensures ticket in released && old(grants) <= grants && (active < limit ==> waiters == [])
    {
      hide Inv;
      StepInv(View(), DoRelease(ticket));
      StepHistory(View(), DoRelease(ticket));
      ReleaseRecords(View(), ticket);
      InvIsBusy(AfterRelease(View(), ticket));
      if ticket in released {
        return;
      }
      released := released + {ticket};
      active := active - 1;
      ghost var done := Drain(View());
      while |waiters| > 0 && active < limit
        invariant Drain(View()) == done
        decreases |waiters|
      {
        var waiter := waiters[0];
        waiters := waiters[1..];
        if waiter.signal in aborted {
          rejected := rejected + {waiter.ticket};
        } else {
          active := active + 1;
          grants := grants + [waiter.ticket];
        }
      }
    }

    /** The abort listener: it finds its waiter and takes it out. */
    method Listen(ticket: nat)
      requires Inv(View()) && Waiting(View(), ticket)
      modifies this
      ensures Inv(View()) && View() == AfterListen(old(View()), ticket)
      ensures forall t :: Waiting(View(), t) <==> Waiting(old(View()), t) && t != ticket
    {
      ListenInv(View(), ticket);
      WaitingShrinks(View(), ticket);
      var index := 0;
      FrontOf(waiters, ticket, 0);
      while waiters[index].ticket != ticket
        invariant index < |waiters|
        invariant forall i :: 0 <= i < index ==> waiters[i].ticket != ticket
        decreases |waiters| - index
      {
        index := index + 1;
      }
      FrontOf(waiters, ticket, index);
      waiters := waiters[..index] + waiters[index + 1..];
      rejected := rejected + {ticket};
    }
  }

  lemma AcquireFacts(g: Gate)
    requires Inv(g)
    ensures g.active == |Outstanding(g)| <= g.limit && |g.waiters| <= g.maxWaiting
    ensures g.waiters != [] ==> g.active == g.limit
    ensures g.next !in g.grants && g.next !in g.rejected
  {
  }

  lemma InvIsBusy(g: Gate)
    requires Inv(g)
    ensures g.active < g.limit ==> g.waiters == []
  {
  }

  lemma ReleaseRecords(g: Gate, ticket: nat)
    ensures ticket in AfterRelease(g, ticket).released
  {
    hide Drain;
    if ticket !in g.released {
      DrainHistory(g.(released := g.released + {ticket}, active := g.active - 1));
    }
  }

  lemma {:induction false} FrontOf(waiters: seq<Waiter>, ticket: nat, index: nat)
    requires index < |waiters| && forall i :: 0 <= i < index ==> waiters[i].ticket != ticket
    ensures waiters[index].ticket == ticket ==> RemoveTicket(waiters, ticket) == waiters[..index] + waiters[index + 1..]
  {
    if index > 0 {
      FrontOf(waiters[1..], ticket, index - 1);
    }
  }
}
