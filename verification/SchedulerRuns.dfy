/**
 Whole runs of the scheduler.  A run interleaves any lock sections in any order; the world adds
 what the broker takes from outside: a clock that never goes back and connection ids that are
 never handed out twice.
 */
module SchedulerRuns {
  import opened Basics
  import opened Codes
  import opened Scheduler
  import opened SchedulerInvariant

  datatype Step =
    | Connecting(connection: nat)
    | Registering(worker: nat, name: string, concurrency: nat, queueLimit: nat)
    | Requesting(caller: nat, route: string, timeoutMs: nat, payload: seq<byte>, now1: int, now2: int)
    | Starting(worker: nat, take: nat)
    | Enabling(take: nat)
    | Polling(take: nat, now1: int, now2: int)
    | Ending(take: nat)
    | Completing(worker: nat, id: nat, failed: bool, payload: seq<byte>, now: int)
    | Expiring(id: nat, now: int)
    | Cancelling(id: nat)
    | Closing(connection: nat)

  datatype World = World(state: State, clock: int, seen: set<nat>)

  ghost function Effect(s: State, step: Step): State {
    match step
    case Connecting(c) => Connect(s, c)
    case Registering(w, name, concurrency, limit) => Register(s, w, name, concurrency, limit).0
    case Requesting(c, route, ms, payload, now1, now2) => Request(s, c, route, ms, payload, now1, now2).0
    case Starting(w, take) => BeginTake(s, w, take).0
    case Enabling(take) => Listen(s, take)
    case Polling(take, now1, now2) => Poll(s, take, now1, now2).0
    case Ending(take) => EndTake(s, take)
    case Completing(w, id, failed, payload, now) => Complete(s, w, id, failed, payload, now).0
    case Expiring(id, now) => Expire(s, id)
    case Cancelling(id) => Cancel(s, id)
    case Closing(c) => Disconnect(s, c)
  }

  function TimeAfter(clock: int, step: Step): int {
    match step
    case Requesting(_, _, _, _, _, now2) => now2
    case Polling(_, _, now2) => now2
    case Completing(_, _, _, _, now) => now
    case Expiring(_, now) => now
    case _ => clock
  }

  ghost predicate Enabled(w: World, step: Step) {
    match step
    case Connecting(c) => c !in w.seen
    case Requesting(_, _, ms, _, now1, now2) => 1 <= ms <= 30_000 && w.clock <= now1 <= now2
    case Starting(_, take) => take !in w.state.waiters
    case Enabling(take) =>
      take in w.state.waiters
      && (w.state.waiters[take].phase.Started? || (w.state.waiters[take].phase.Parked? && w.state.waiters[take].fired))
    case Polling(take, now1, now2) =>
      take in w.state.waiters && w.state.waiters[take].phase.Listening? && w.clock <= now1 <= now2
    case Completing(_, _, _, _, now) => w.clock <= now
    // The ticket's timer never fires before the deadline it was set to.
    case Expiring(id, now) => w.clock <= now && (id in w.state.calls ==> w.state.calls[id].deadline <= now)
    case _ => true
  }

  ghost function Next(w: World, step: Step): World {
    World(Effect(w.state, step), TimeAfter(w.clock, step),
          if step.Connecting? then w.seen + {step.connection} else w.seen)
  }

  ghost predicate IsRun(worlds: seq<World>, steps: seq<Step>) {
    && |worlds| == |steps| + 1
    && worlds[0].state == Fresh(worlds[0].state.maxCalls, worlds[0].state.maxBytes) && worlds[0].seen == {}
    && forall i :: 0 <= i < |steps| ==> Enabled(worlds[i], steps[i]) && worlds[i + 1] == Next(worlds[i], steps[i])
  }

  /** The call this step hands to a worker, if it hands one out. */
  ghost function Dispatched(s: State, step: Step): Option<Job> {
    if step.Polling? && step.take in s.waiters && Poll(s, step.take, step.now1, step.now2).1.Taken?
    then Some(Poll(s, step.take, step.now1, step.now2).1.job)
    else None
  }

  ghost function AcceptedId(s: State, step: Step): Option<nat> {
    if step.Requesting?
      && Request(s, step.caller, step.route, step.timeoutMs, step.payload, step.now1, step.now2).1.Accepted?
    then Some(s.nextId)
    else None
  }

  // ---------------------------------------------------------------- the invariant over runs

  ghost predicate WorldInv(w: World) {
    && Inv(w.state)
    && w.state.connections <= w.seen
    && (forall t :: t in w.state.waiters ==> w.state.waiters[t].worker in w.seen)
  }

  lemma StepInv(s: State, step: Step)
    requires Inv(s)
    requires step.Connecting? ==> forall t :: t in s.waiters ==> s.waiters[t].worker != step.connection
    requires step.Starting? ==> step.take !in s.waiters
    ensures Inv(Effect(s, step))
  {
    hide Inv;
    match step
    case Connecting(c) => ConnectInv(s, c);
    case Registering(w, name, concurrency, limit) => RegisterInv(s, w, name, concurrency, limit);
    case Requesting(c, route, ms, payload, now1, now2) => RequestInv(s, c, route, ms, payload, now1, now2);
    case Starting(w, take) => BeginTakeInv(s, w, take);
    case Enabling(take) => ListenInv(s, take);
    case Polling(take, now1, now2) => PollInv(s, take, now1, now2);
    case Ending(take) => EndTakeInv(s, take);
    case Completing(w, id, failed, payload, now) => CompleteInv(s, w, id, failed, payload, now);
    case Expiring(id, now) => ExpireInv(s, id);
    case Cancelling(id) => CancelInv(s, id);
    case Closing(c) => DisconnectInv(s, c);
  }

  lemma StepSeen(w: World, step: Step)
    requires WorldInv(w) && Enabled(w, step)
    ensures Next(w, step).state.connections <= Next(w, step).seen
    ensures forall t :: t in Next(w, step).state.waiters ==> Next(w, step).state.waiters[t].worker in Next(w, step).seen
  {
    StepWaiters(w.state, step);
  }

  /** Connections come from `Connecting` and waiters from registered workers, nowhere else. */
  ghost predicate WaitersFrom(s: State, t: State, started: set<nat>) {
    && t.waiters.Keys <= s.waiters.Keys + started
    && forall k :: k in t.waiters && k in s.waiters ==> t.waiters[k].worker == s.waiters[k].worker
  }

  lemma StepWaiters(s: State, step: Step)
    requires CallsPlaced(s) && (step.Starting? ==> step.take !in s.waiters)
    ensures Effect(s, step).connections <= s.connections + if step.Connecting? then {step.connection} else {}
    ensures WaitersFrom(s, Effect(s, step), if step.Starting? then {step.take} else {})
    ensures step.Starting? && step.take in Effect(s, step).waiters ==>
              step.worker in s.workers && Effect(s, step).waiters[step.take].worker == step.worker
  {
    hide CallsPlaced, Answer, Disconnect, Request, Poll;
    match step
    case Polling(take, now1, now2) => PollWaiters(s, take, now1, now2);
    case Requesting(c, route, ms, payload, now1, now2) => RequestWaiters(s, c, route, ms, payload, now1, now2);
    case Closing(c) => ClosingWaiters(s, c);
    case _ =>
  }

  lemma ClosingWaiters(s: State, connection: nat)
    ensures Disconnect(s, connection).connections <= s.connections
    ensures WaitersFrom(s, Disconnect(s, connection), {})
  {
  }

  lemma RequestWaiters(s: State, c: nat, route: string, ms: nat, payload: seq<byte>, now1: int, now2: int)
    ensures Request(s, c, route, ms, payload, now1, now2).0.connections == s.connections
    ensures WaitersFrom(s, Request(s, c, route, ms, payload, now1, now2).0, {})
  {
    RequestCases(s, c, route, ms, payload, now1, now2);
  }

  lemma PollWaiters(s: State, take: nat, now1: int, now2: int)
    requires CallsPlaced(s)
    ensures Poll(s, take, now1, now2).0.connections == s.connections
    ensures WaitersFrom(s, Poll(s, take, now1, now2).0, {})
  {
    hide CallsPlaced, TryTake, Queued, OwnedBy, Least, NothingFor, Answer, Overdue;
    if take in s.waiters {
      TryTakeCases(s, s.waiters[take].worker, now1, now2);
    }
  }

  lemma {:induction false} RunKeepsInvariant(worlds: seq<World>, steps: seq<Step>, i: nat)
    requires IsRun(worlds, steps) && i < |worlds|
    ensures WorldInv(worlds[i])
  {
    if i == 0 {
      FreshInv(worlds[0].state.maxCalls, worlds[0].state.maxBytes);
    } else {
      RunKeepsInvariant(worlds, steps, i - 1);
      StepInv(worlds[i - 1].state, steps[i - 1]);
      StepSeen(worlds[i - 1], steps[i - 1]);
    }
  }

  /** No lost wakeup, at every point of every interleaving: a parked and unnotified TAKE has nothing to take. */
  lemma ParkedHasNothingToTake(worlds: seq<World>, steps: seq<Step>, i: nat, take: nat)
    requires IsRun(worlds, steps) && i < |worlds|
    requires take in worlds[i].state.waiters
    requires worlds[i].state.waiters[take].phase.Parked? && !worlds[i].state.waiters[take].fired
    ensures var s := worlds[i].state;
            var w := s.waiters[take].worker;
            w in s.workers &&
            (Queued(s.calls, s.workers[w].route) == {} || |OwnedBy(s.calls, w)| == s.workers[w].concurrency)
  {
    RunKeepsInvariant(worlds, steps, i);
    assert NothingFor(worlds[i].state, worlds[i].state.waiters[take].worker);
  }

  // ---------------------------------------------------------------- what one step may do to one call

  ghost predicate SameCall(c: Call, d: Call) {
    c.caller == d.caller && c.route == d.route && c.deadline == d.deadline && c.payload == d.payload && c.cost == d.cost
  }

  /** Which of the three extraordinary things may happen to a call. */
  datatype Leave = Leave(accept: bool, release: bool, giveUp: bool)

  const ANYTHING := Leave(true, true, true)
  const NOTHING := Leave(false, false, false)

  /** The life of a call is one-way: it keeps its terms, its owner is set once, its channel closes
      once, its reply never changes; it appears only if accepted, stops running only if released,
      and falls silent without a reply only if given up. */
  ghost predicate Fate(s: State, t: State, id: nat, leave: Leave) {
    && s.nextId <= t.nextId
    && (id in s.sent ==> id in t.sent && t.sent[id] == s.sent[id])
    && (id in t.calls && id !in s.calls ==> leave.accept && s.nextId <= id)
    && (id in t.calls && id in s.calls ==>
          SameCall(t.calls[id], s.calls[id])
          && (t.calls[id].open ==> s.calls[id].open)
          && (s.calls[id].owner.Some? ==> t.calls[id].owner == s.calls[id].owner))
    && (id in s.calls && s.calls[id].owner.Some? && id !in t.calls ==> leave.release)
    && (id in s.calls && s.calls[id].open && !(id in t.calls && t.calls[id].open) ==> id in t.sent || leave.giveUp)
  }

  lemma FateThen(s: State, t: State, u: State, id: nat, first: Leave, second: Leave)
    requires Fate(s, t, id, first) && Fate(t, u, id, second) && id >= 1
    requires id in s.calls ==> id < s.nextId
    ensures Fate(s, u, id,
                 Leave(first.accept || second.accept, first.release || second.release, first.giveUp || second.giveUp))
  {
  }

  /** What this step, of all steps, may do to this call. */
  ghost function Licence(s: State, step: Step, id: nat): Leave {
    Leave(AcceptedId(s, step) == Some(id),
          id in s.calls && s.calls[id].owner.Some? &&
            (step == Closing(s.calls[id].owner.value)
             || (step.Completing? && step.worker == s.calls[id].owner.value && step.id == id)),
          step == Cancelling(id) || (id in s.calls && step == Closing(s.calls[id].caller)))
  }

  lemma SettledFate(s: State, t: State, answered: set<nat>, reply: Reply, id: nat)
    requires CallsPlaced(s) && RepliesFinal(s) && Settled(s, t, answered, reply)
    requires forall k :: k in s.calls && k !in t.calls ==> k in answered
    requires forall k :: k in t.calls && k !in answered ==> t.calls[k] == s.calls[k]
    ensures Fate(s, t, id, NOTHING)
  {
  }

  lemma ExpireQueuedFate(s: State, route: string, now: int, id: nat)
    requires CallsPlaced(s) && RepliesFinal(s)
    ensures Fate(s, ExpireQueued(s, route, now), id, NOTHING)
    ensures CallsPlaced(ExpireQueued(s, route, now)) && RepliesFinal(ExpireQueued(s, route, now))
  {
    var t := ExpireQueued(s, route, now);
    ExpireQueuedSettles(s, route, now);
    SettledPlaced(s, t, Overdue(s.calls, route, now), LATE);
    SettledReplies(s, t, Overdue(s.calls, route, now), LATE);
    SettledFate(s, t, Overdue(s.calls, route, now), LATE, id);
  }

  lemma RequestFate(s: State, caller: nat, route: string, timeoutMs: nat, payload: seq<byte>, now1: int, now2: int,
                    id: nat)
    requires CallsPlaced(s) && RepliesFinal(s)
    ensures var (t, admission) := Request(s, caller, route, timeoutMs, payload, now1, now2);
            && Fate(s, t, id, Leave(admission.Accepted? && id == s.nextId, false, false))
            && (id in t.calls && id !in s.calls ==> t.calls[id] == NewCall(caller, route, timeoutMs, payload, now2))
  {
    RequestCases(s, caller, route, timeoutMs, payload, now1, now2);
    ExpireQueuedFate(s, route, now1, id);
  }

  lemma TryTakeFate(s: State, worker: nat, now1: int, now2: int, id: nat)
    requires CallsPlaced(s) && RepliesFinal(s)
    ensures Fate(s, TryTake(s, worker, now1, now2).0, id, NOTHING)
  {
    hide TryTake, ExpireQueued, Least, RepliesFinal, CallsPlaced, OwnedBy, NothingFor;
    TryTakeCases(s, worker, now1, now2);
    if worker in s.workers {
      var route := s.workers[worker].route;
      var u := ExpireQueued(s, route, now1);
      ExpireQueuedFate(s, route, now1, id);
      if TryTake(s, worker, now1, now2).1.Retry? {
        var head := Least(Queued(u.calls, route));
        DropHeadSettles(u, head, route);
        SettledFate(u, DropHead(u, head), {head}, LATE, id);
      }
    }
  }

  lemma PollFate(s: State, take: nat, now1: int, now2: int, id: nat)
    requires CallsPlaced(s) && RepliesFinal(s)
    ensures Fate(s, Poll(s, take, now1, now2).0, id, NOTHING)
  {
    if take in s.waiters {
      TryTakeFate(s, s.waiters[take].worker, now1, now2, id);
    }
  }

  lemma CompleteFate(s: State, step: Step, id: nat)
    requires step.Completing? && CallsPlaced(s) && RepliesFinal(s)
    ensures Fate(s, Effect(s, step), id, Licence(s, step, id))
  {
  }

  lemma ExpiringFate(s: State, step: Step, id: nat)
    requires step.Expiring? && CallsPlaced(s) && RepliesFinal(s)
    ensures Fate(s, Effect(s, step), id, Licence(s, step, id))
  {
    if id != step.id {
      ExpireOther(s, step.id, id);
    }
  }

  lemma ExpireOther(s: State, one: nat, id: nat)
    requires id != one
    ensures var t := Expire(s, one);
            && (id in t.calls <==> id in s.calls) && (id in s.calls ==> t.calls[id] == s.calls[id])
            && (id in t.sent <==> id in s.sent) && (id in s.sent ==> t.sent[id] == s.sent[id])
  {
  }

  lemma CancellingFate(s: State, step: Step, id: nat)
    requires step.Cancelling? && CallsPlaced(s) && RepliesFinal(s)
    ensures Fate(s, Effect(s, step), id, Licence(s, step, id))
  {
  }

  lemma QuietFate(s: State, step: Step, id: nat)
    requires step.Connecting? || step.Registering? || step.Starting? || step.Enabling? || step.Ending?
    ensures Fate(s, Effect(s, step), id, Licence(s, step, id))
  {
  }

  lemma ClosingFate(s: State, step: Step, id: nat)
    requires step.Closing? && CallsPlaced(s) && RepliesFinal(s)
    ensures Fate(s, Effect(s, step), id, Licence(s, step, id))
  {
    hide WorkersOn, Fire;
  }

  lemma StepFate(s: State, step: Step, id: nat)
    requires CallsPlaced(s) && RepliesFinal(s)
    ensures Fate(s, Effect(s, step), id, Licence(s, step, id))
  {
    if step.Requesting? {
      RequestingFate(s, step, id);
    } else if step.Polling? {
      PollingFate(s, step, id);
    } else {
      hide Fate, Effect, Licence;
      match step
      case Completing(_, _, _, _, _) => CompleteFate(s, step, id);
      case Expiring(_, _) => ExpiringFate(s, step, id);
      case Cancelling(_) => CancellingFate(s, step, id);
      case Closing(_) => ClosingFate(s, step, id);
      case _ => QuietFate(s, step, id);
    }
  }

  lemma RequestingFate(s: State, step: Step, id: nat)
    requires step.Requesting? && CallsPlaced(s) && RepliesFinal(s)
    ensures Fate(s, Effect(s, step), id, Licence(s, step, id))
  {
    hide Request, CallsPlaced, RepliesFinal;
    RequestFate(s, step.caller, step.route, step.timeoutMs, step.payload, step.now1, step.now2, id);
  }

  lemma PollingFate(s: State, step: Step, id: nat)
    requires step.Polling? && CallsPlaced(s) && RepliesFinal(s)
    ensures Fate(s, Effect(s, step), id, Licence(s, step, id))
  {
    hide Poll, CallsPlaced, RepliesFinal;
    PollFate(s, step.take, step.now1, step.now2, id);
  }

  /** What a dispatch does: the oldest live queued call of the worker's route changes hands, in time. */
  ghost predicate HandsOver(s: State, t: State, worker: nat, job: Job, now: int) {
    && worker in s.workers
    && job.callId in Queued(s.calls, s.workers[worker].route)
    && job.callId in OwnedBy(t.calls, worker)
    && job.payload == s.calls[job.callId].payload
    && now < s.calls[job.callId].deadline
    && job.remainingMs == Clamp(CeilMs(s.calls[job.callId].deadline - now), 1, 30_000)
    && (forall id :: id in Queued(t.calls, s.workers[worker].route) ==> job.callId < id)
  }

  lemma AssignHandsOver(s: State, route: string, now1: int, worker: nat, job: Job, now: int)
    requires worker in s.workers && s.workers[worker].route == route
    requires var u := ExpireQueued(s, route, now1);
             && job.callId in Queued(u.calls, route) && job.callId == Least(Queued(u.calls, route))
             && job.payload == u.calls[job.callId].payload && now < u.calls[job.callId].deadline
             && job.remainingMs == Clamp(CeilMs(u.calls[job.callId].deadline - now), 1, 30_000)
    ensures HandsOver(s, Assign(ExpireQueued(s, route, now1), worker, job.callId), worker, job, now)
  {
    var u := ExpireQueued(s, route, now1);
    assert Queued(Assign(u, worker, job.callId).calls, route) == Queued(u.calls, route) - {job.callId};
  }

  lemma TryTakeHandsOver(s: State, worker: nat, now1: int, now2: int)
    requires CallsPlaced(s) && TryTake(s, worker, now1, now2).1.Taken?
    ensures HandsOver(s, TryTake(s, worker, now1, now2).0, worker, TryTake(s, worker, now1, now2).1.job, now2)
  {
    TryTakeCases(s, worker, now1, now2);
    AssignHandsOver(s, s.workers[worker].route, now1, worker, TryTake(s, worker, now1, now2).1.job, now2);
  }

  lemma StepDispatch(s: State, step: Step)
    requires CallsPlaced(s) && Dispatched(s, step).Some?
    ensures HandsOver(s, Effect(s, step), s.waiters[step.take].worker, Dispatched(s, step).value, step.now2)
  {
    TryTakeHandsOver(s, s.waiters[step.take].worker, step.now1, step.now2);
  }

  // ---------------------------------------------------------------- theorems over whole runs

  ghost predicate Quits(step: Step, id: nat, caller: nat) {
    step == Cancelling(id) || step == Closing(caller)
  }

  ghost predicate Frees(step: Step, id: nat, worker: nat) {
    step == Closing(worker) || (step.Completing? && step.worker == worker && step.id == id)
  }

  /** `Fate` with what the step's name alone allows. */
  ghost predicate Lawful(s: State, t: State, step: Step, id: nat) {
    && (id in s.calls ==> 1 <= id < s.nextId)
    && Fate(s, t, id, Leave(true,
                            id in s.calls && s.calls[id].owner.Some? && Frees(step, id, s.calls[id].owner.value),
                            id in s.calls && Quits(step, id, s.calls[id].caller)))
  }

  ghost predicate LawfulRun(worlds: seq<World>, steps: seq<Step>, id: nat) {
    && |worlds| == |steps| + 1
    && (forall k :: 0 <= k < |steps| ==> Lawful(worlds[k].state, worlds[k + 1].state, steps[k], id))
    && (forall k :: 0 <= k < |worlds| && id in worlds[k].state.calls ==> 1 <= id < worlds[k].state.nextId)
  }

  lemma LawfulAt(worlds: seq<World>, steps: seq<Step>, k: nat, id: nat)
    requires IsRun(worlds, steps) && k < |steps|
    ensures Lawful(worlds[k].state, worlds[k + 1].state, steps[k], id)
  {
    RunKeepsInvariant(worlds, steps, k);
    StepFate(worlds[k].state, steps[k], id);
  }

  lemma RunLawful(worlds: seq<World>, steps: seq<Step>, id: nat)
    requires IsRun(worlds, steps)
    ensures LawfulRun(worlds, steps, id)
  {
    forall k | 0 <= k < |steps| ensures Lawful(worlds[k].state, worlds[k + 1].state, steps[k], id) {
      LawfulAt(worlds, steps, k, id);
    }
    forall k | 0 <= k < |worlds| && id in worlds[k].state.calls ensures 1 <= id < worlds[k].state.nextId {
      RunKeepsInvariant(worlds, steps, k);
    }
  }

  lemma {:induction false} FateOver(worlds: seq<World>, steps: seq<Step>, i: nat, j: nat, id: nat)
    requires LawfulRun(worlds, steps, id) && i <= j < |worlds| && id >= 1
    ensures Fate(worlds[i].state, worlds[j].state, id, ANYTHING)
    decreases j
  {
    if i < j {
      FateOver(worlds, steps, i, j - 1, id);
      assert Lawful(worlds[j - 1].state, worlds[j - 1 + 1].state, steps[j - 1], id);
      assert Fate(worlds[j - 1].state, worlds[j].state, id, ANYTHING);
      FateThen(worlds[i].state, worlds[j - 1].state, worlds[j].state, id, ANYTHING, ANYTHING);
    }
  }

  lemma LastStep(steps: seq<Step>, i: nat, j: nat)
    requires i < j <= |steps|
    ensures forall step :: step in steps[i..j - 1] ==> step in steps[i..j]
    ensures steps[j - 1] in steps[i..j]
  {
    assert steps[i..j] == steps[i..j - 1] + [steps[j - 1]];
  }

  lemma RunFate(worlds: seq<World>, steps: seq<Step>, i: nat, j: nat, id: nat)
    requires IsRun(worlds, steps) && i <= j < |worlds| && id >= 1
    ensures Fate(worlds[i].state, worlds[j].state, id, ANYTHING)
  {
    RunLawful(worlds, steps, id);
    FateOver(worlds, steps, i, j, id);
  }

  /** Every accepted call is dispatched at most once, over all workers, and a route's calls go out
      in the order they were accepted, whatever happened to the route in between. */
  lemma DispatchOrder(worlds: seq<World>, steps: seq<Step>, i: nat, j: nat)
    requires IsRun(worlds, steps) && i < j < |steps|
    requires Dispatched(worlds[i].state, steps[i]).Some? && Dispatched(worlds[j].state, steps[j]).Some?
    ensures var a := Dispatched(worlds[i].state, steps[i]).value.callId;
            var b := Dispatched(worlds[j].state, steps[j]).value.callId;
            && a != b
            && a in worlds[i].state.calls && b in worlds[j].state.calls
            && (worlds[i].state.calls[a].route == worlds[j].state.calls[b].route ==> a < b)
  {
    var a := DispatchAt(worlds, steps, i);
    var b := DispatchAt(worlds, steps, j);
    RunFate(worlds, steps, i + 1, j, a.callId);
    RunFate(worlds, steps, i + 1, j, b.callId);
    OlderFirst(worlds[i + 1].state, worlds[j].state, a.callId, b.callId);
  }

  /** `a` already runs in `s`, before everything queued there; `b` is still queued in `t`, later. */
  lemma OlderFirst(s: State, t: State, a: nat, b: nat)
    requires Fate(s, t, a, ANYTHING) && Fate(s, t, b, ANYTHING)
    requires a in s.calls && s.calls[a].owner.Some? && a < s.nextId
    requires b in t.calls && t.calls[b].owner.None?
    requires var queue := Queued(s.calls, s.calls[a].route); forall id :: id in queue ==> a < id
    ensures a != b && (s.calls[a].route == t.calls[b].route ==> a < b)
  {
    if b in s.calls && s.calls[b].route == s.calls[a].route {
      assert b in Queued(s.calls, s.calls[a].route);
    }
  }

  lemma DispatchAt(worlds: seq<World>, steps: seq<Step>, i: nat) returns (job: Job)
    requires IsRun(worlds, steps) && i < |steps|
    requires Dispatched(worlds[i].state, steps[i]).Some?
    ensures job == Dispatched(worlds[i].state, steps[i]).value
    ensures 1 <= job.callId < worlds[i].state.nextId <= worlds[i + 1].state.nextId
    ensures job.callId in worlds[i].state.calls && worlds[i].state.calls[job.callId].owner.None?
    ensures job.callId in worlds[i + 1].state.calls && worlds[i + 1].state.calls[job.callId].owner.Some?
    ensures worlds[i + 1].state.calls[job.callId].route == worlds[i].state.calls[job.callId].route
    ensures var queue := Queued(worlds[i + 1].state.calls, worlds[i].state.calls[job.callId].route);
            forall id :: id in queue ==> job.callId < id
  {
    RunKeepsInvariant(worlds, steps, i);
    job := Dispatched(worlds[i].state, steps[i]).value;
    StepDispatch(worlds[i].state, steps[i]);
    StepFate(worlds[i].state, steps[i], job.callId);
  }

  /** A reply, once sent, is the only one its caller ever gets. */
  lemma OneReply(worlds: seq<World>, steps: seq<Step>, i: nat, j: nat, id: nat)
    requires IsRun(worlds, steps) && i <= j < |worlds|
    requires id in worlds[i].state.sent
    ensures id in worlds[j].state.sent && worlds[j].state.sent[id] == worlds[i].state.sent[id]
    ensures id in worlds[j].state.calls ==> !worlds[j].state.calls[id].open
  {
    RunKeepsInvariant(worlds, steps, i);
    RunKeepsInvariant(worlds, steps, j);
    RunFate(worlds, steps, i, j, id);
  }

  /** A call that has left never comes back. */
  lemma LeavesOnce(worlds: seq<World>, steps: seq<Step>, i: nat, j: nat, id: nat)
    requires IsRun(worlds, steps) && i <= j < |worlds|
    requires 1 <= id < worlds[i].state.nextId && id !in worlds[i].state.calls
    ensures id !in worlds[j].state.calls
  {
    RunFate(worlds, steps, i, j, id);
  }

  ghost predicate GivenUp(steps: seq<Step>, id: nat, caller: nat) {
    exists step :: step in steps && Quits(step, id, caller)
  }

  lemma {:induction false} SilentOver(worlds: seq<World>, steps: seq<Step>, i: nat, j: nat, id: nat)
    requires LawfulRun(worlds, steps, id) && i <= j < |worlds|
    requires id in worlds[i].state.calls && worlds[i].state.calls[id].open
    ensures || (id in worlds[j].state.calls && worlds[j].state.calls[id].open)
            || id in worlds[j].state.sent
            || GivenUp(steps[i..j], id, worlds[i].state.calls[id].caller)
    decreases j
  {
    if i < j {
      SilentOver(worlds, steps, i, j - 1, id);
      FateOver(worlds, steps, i, j - 1, id);
      assert Lawful(worlds[j - 1].state, worlds[j - 1 + 1].state, steps[j - 1], id);
      LastStep(steps, i, j);
    }
  }

  /** A call that was accepted and is no longer waiting was answered, unless its caller gave up first. */
  lemma SilentOnlyIfGivenUp(worlds: seq<World>, steps: seq<Step>, i: nat, j: nat, id: nat)
    requires IsRun(worlds, steps) && i <= j < |worlds|
    requires id in worlds[i].state.calls && worlds[i].state.calls[id].open
    ensures || (id in worlds[j].state.calls && worlds[j].state.calls[id].open)
            || id in worlds[j].state.sent
            || GivenUp(steps[i..j], id, worlds[i].state.calls[id].caller)
  {
    RunLawful(worlds, steps, id);
    SilentOver(worlds, steps, i, j, id);
  }

  ghost predicate Released(steps: seq<Step>, id: nat, worker: nat) {
    exists step :: step in steps && Frees(step, id, worker)
  }

  lemma {:induction false} SlotOver(worlds: seq<World>, steps: seq<Step>, i: nat, j: nat, id: nat, worker: nat)
    requires LawfulRun(worlds, steps, id) && i <= j < |worlds|
    requires id in OwnedBy(worlds[i].state.calls, worker)
    ensures id in OwnedBy(worlds[j].state.calls, worker) || Released(steps[i..j], id, worker)
    decreases j
  {
    if i < j {
      SlotOver(worlds, steps, i, j - 1, id, worker);
      assert Lawful(worlds[j - 1].state, worlds[j - 1 + 1].state, steps[j - 1], id);
      LastStep(steps, i, j);
    }
  }

  /** Timeouts, cancellations and the caller's departure never free a running slot. */
  lemma SlotHeldUntilReleased(worlds: seq<World>, steps: seq<Step>, i: nat, j: nat, id: nat, worker: nat)
    requires IsRun(worlds, steps) && i <= j < |worlds|
    requires id in OwnedBy(worlds[i].state.calls, worker)
    ensures id in OwnedBy(worlds[j].state.calls, worker) || Released(steps[i..j], id, worker)
  {
    RunLawful(worlds, steps, id);
    SlotOver(worlds, steps, i, j, id, worker);
  }

  lemma AcceptRaises(s: State, step: Step)
    requires AcceptedId(s, step).Some?
    ensures AcceptedId(s, step) == Some(s.nextId) && Effect(s, step).nextId == s.nextId + 1
  {
    hide ExpireQueued;
    RequestCases(s, step.caller, step.route, step.timeoutMs, step.payload, step.now1, step.now2);
  }

  /** An id is handed out at most once in a run. */
  lemma AcceptedOnce(worlds: seq<World>, steps: seq<Step>, i: nat, k: nat, id: nat)
    requires IsRun(worlds, steps) && i < k < |steps| && AcceptedId(worlds[i].state, steps[i]) == Some(id)
    ensures AcceptedId(worlds[k].state, steps[k]) != Some(id)
  {
    hide AcceptedId, Effect;
    RunKeepsInvariant(worlds, steps, i);
    AcceptRaises(worlds[i].state, steps[i]);
    RunFate(worlds, steps, i + 1, k, id);
    if AcceptedId(worlds[k].state, steps[k]).Some? {
      AcceptRaises(worlds[k].state, steps[k]);
    }
  }

  lemma {:induction false} OriginStep(worlds: seq<World>, steps: seq<Step>, j: nat, id: nat) returns (i: nat)
    requires IsRun(worlds, steps) && j < |worlds| && id in worlds[j].state.calls
    ensures i < j && AcceptedId(worlds[i].state, steps[i]) == Some(id) && steps[i].Requesting?
    ensures var r := steps[i];
            SameCall(worlds[j].state.calls[id], NewCall(r.caller, r.route, r.timeoutMs, r.payload, r.now2))
    decreases j
  {
    if j > 0 {
      RunKeepsInvariant(worlds, steps, j - 1);
      StepFate(worlds[j - 1].state, steps[j - 1], id);
      if id in worlds[j - 1].state.calls {
        i := OriginStep(worlds, steps, j - 1, id);
      } else {
        i := j - 1;
        var r := steps[i];
        RequestFate(worlds[i].state, r.caller, r.route, r.timeoutMs, r.payload, r.now1, r.now2, id);
      }
    }
  }

  /** The one request step a live call stems from. */
  lemma Origin(worlds: seq<World>, steps: seq<Step>, j: nat, id: nat) returns (i: nat)
    requires IsRun(worlds, steps) && j < |worlds| && id in worlds[j].state.calls
    ensures i < j && AcceptedId(worlds[i].state, steps[i]) == Some(id) && steps[i].Requesting?
    ensures var r := steps[i];
            SameCall(worlds[j].state.calls[id], NewCall(r.caller, r.route, r.timeoutMs, r.payload, r.now2))
    ensures forall k :: 0 <= k < |steps| && AcceptedId(worlds[k].state, steps[k]) == Some(id) ==> k == i
  {
    i := OriginStep(worlds, steps, j, id);
    hide IsRun, AcceptedId;
    forall k | 0 <= k < |steps| && AcceptedId(worlds[k].state, steps[k]) == Some(id) ensures k == i {
      if k < i {
        AcceptedOnce(worlds, steps, k, i, id);
      } else if i < k {
        AcceptedOnce(worlds, steps, i, k, id);
      }
    }
  }

  lemma {:induction false} ClockRises(worlds: seq<World>, steps: seq<Step>, i: nat, j: nat)
    requires IsRun(worlds, steps) && i <= j < |worlds|
    ensures worlds[i].clock <= worlds[j].clock
    decreases j
  {
    if i < j {
      ClockRises(worlds, steps, i, j - 1);
    }
  }

  lemma CeilIsExact(nanos: int, ms: int)
    requires nanos > 0 && ms == CeilMs(nanos)
    ensures (ms - 1) * NANOS_PER_MS < nanos <= ms * NANOS_PER_MS
  {
  }

  /** Every dispatch beats its deadline, and the worker is told exactly the time left, rounded up:
      between 1 ms and the caller's own timeout, so that the cap of 30000 never cuts anything. */
  lemma DispatchInTime(worlds: seq<World>, steps: seq<Step>, j: nat) returns (i: nat)
    requires IsRun(worlds, steps) && j < |steps|
    requires Dispatched(worlds[j].state, steps[j]).Some?
    ensures i < j && steps[i].Requesting?
    ensures var job := Dispatched(worlds[j].state, steps[j]).value;
            var deadline := steps[i].now2 + steps[i].timeoutMs * NANOS_PER_MS;
            && AcceptedId(worlds[i].state, steps[i]) == Some(job.callId)
            && job.payload == steps[i].payload
            && steps[j].now2 < deadline
            && (job.remainingMs - 1) * NANOS_PER_MS < deadline - steps[j].now2 <= job.remainingMs * NANOS_PER_MS
            && 1 <= job.remainingMs <= steps[i].timeoutMs <= 30_000
  {
    hide Dispatched, AcceptedId, Effect, Clamp, CeilMs, OwnedBy, Inv;
    RunKeepsInvariant(worlds, steps, j);
    InvPlaces(worlds[j].state);
    StepDispatch(worlds[j].state, steps[j]);
    var job := Dispatched(worlds[j].state, steps[j]).value;
    i := Origin(worlds, steps, j, job.callId);
    ClockRises(worlds, steps, i + 1, j);
    DispatchedIsPolling(worlds[j].state, steps[j]);
    assert Enabled(worlds[i], steps[i]) && Enabled(worlds[j], steps[j]) && worlds[i + 1] == Next(worlds[i], steps[i]);
    TimeLeft(worlds[j].state.calls[job.callId].deadline, steps[j].now2, steps[i].timeoutMs, job.remainingMs);
  }

  lemma InvPlaces(s: State)
    requires Inv(s)
    ensures CallsPlaced(s)
  {
  }

  lemma DispatchedIsPolling(s: State, step: Step)
    requires Dispatched(s, step).Some?
    ensures step.Polling?
  {
    hide Poll;
  }

  lemma TimeLeft(deadline: int, now: int, timeoutMs: nat, ms: nat)
    requires now < deadline <= now + timeoutMs * NANOS_PER_MS && 1 <= timeoutMs <= 30_000
    requires ms == Clamp(CeilMs(deadline - now), 1, 30_000)
    ensures (ms - 1) * NANOS_PER_MS < deadline - now <= ms * NANOS_PER_MS && 1 <= ms <= timeoutMs
  {
    CeilIsExact(deadline - now, CeilMs(deadline - now));
  }

  /** A deadline error is never early, and a result or a handler's error is never late. */
  lemma RepliesRespectDeadline(w: World, step: Step, id: nat)
    requires CallsPlaced(w.state) && Enabled(w, step)
    requires id !in w.state.sent && id in Next(w, step).state.sent
    ensures id in w.state.calls && Timely(Next(w, step).state.sent[id], w.state.calls[id].deadline, Next(w, step).clock)
  {
    var s := w.state;
    match step
    case Requesting(c, route, ms, payload, now1, now2) => RequestReplies(s, c, route, ms, payload, now1, now2, id);
    case Polling(take, now1, now2) => PollReplies(s, take, now1, now2, id);
    case Completing(worker, call, failed, payload, now) => CompleteReplies(s, worker, call, failed, payload, now, id);
    case Expiring(call, now) =>
    case Closing(c) => ClosingReplies(s, c, id);
    case _ =>
  }

  ghost predicate Timely(reply: Reply, deadline: int, now: int) {
    && (reply.Success? ==> now < deadline)
    && (reply.Failure? && reply.code == HANDLER_ERROR ==> now < deadline)
    && (reply == LATE ==> deadline <= now)
  }

  lemma RequestReplies(s: State, c: nat, route: string, ms: nat, payload: seq<byte>, now1: int, now2: int, id: nat)
    requires now1 <= now2
    requires id !in s.sent && id in Request(s, c, route, ms, payload, now1, now2).0.sent
    ensures id in s.calls
            && Timely(Request(s, c, route, ms, payload, now1, now2).0.sent[id], s.calls[id].deadline, now2)
  {
    RequestCases(s, c, route, ms, payload, now1, now2);
    assert ExpireQueued(s, route, now1).sent == Answer(s.sent, s.calls, Overdue(s.calls, route, now1), LATE);
  }

  lemma PollReplies(s: State, take: nat, now1: int, now2: int, id: nat)
    requires CallsPlaced(s) && now1 <= now2
    requires id !in s.sent && id in Poll(s, take, now1, now2).0.sent
    ensures id in s.calls && Timely(Poll(s, take, now1, now2).0.sent[id], s.calls[id].deadline, now2)
  {
    TryTakeCases(s, s.waiters[take].worker, now1, now2);
  }

  lemma CompleteReplies(s: State, worker: nat, call: nat, failed: bool, payload: seq<byte>, now: int, id: nat)
    requires id !in s.sent && id in Complete(s, worker, call, failed, payload, now).0.sent
    ensures id in s.calls
            && Timely(Complete(s, worker, call, failed, payload, now).0.sent[id], s.calls[id].deadline, now)
  {
  }

  lemma ClosingReplies(s: State, c: nat, id: nat)
    requires id !in s.sent && id in Disconnect(s, c).sent
    ensures id in s.calls && Disconnect(s, c).sent[id] == UNAVAILABLE
  {
  }

  /** NO_SERVICE and OVERLOADED mean that nothing was accepted, and no accepted call ever gets them:
      a caller that is told either may safely ask another broker. */
  lemma RetryCodesMeanNotAccepted(worlds: seq<World>, steps: seq<Step>, i: nat, j: nat, id: nat)
    requires IsRun(worlds, steps) && i < |steps| && j < |worlds|
    requires steps[i].Requesting?
    ensures var r := steps[i];
            Request(worlds[i].state, r.caller, r.route, r.timeoutMs, r.payload, r.now1, r.now2).1.Rejected? ==>
              worlds[i + 1].state.nextId == worlds[i].state.nextId
              && worlds[i + 1].state.calls.Keys <= worlds[i].state.calls.Keys
    ensures id in worlds[j].state.sent && worlds[j].state.sent[id].Failure? ==>
              worlds[j].state.sent[id].code != NO_SERVICE && worlds[j].state.sent[id].code != OVERLOADED
  {
    RunKeepsInvariant(worlds, steps, j);
    var r := steps[i];
    RequestCases(worlds[i].state, r.caller, r.route, r.timeoutMs, r.payload, r.now1, r.now2);
  }

  /** After a connection has closed, nothing of it is left but calls it made that still run, and TAKE
      futures that are on their way out: those that listen have been notified, and the next attempt of
      any of them is refused. */
  lemma DisconnectLeavesNothing(s: State, connection: nat)
    requires CallsPlaced(s)
    ensures var t := Disconnect(s, connection);
            && connection !in t.connections && connection !in t.workers
            && Lost(t, connection) == {} && OwnedBy(t.calls, connection) == {}
            && (forall id ::
                  id in t.calls && t.calls[id].caller == connection ==> !t.calls[id].open && t.calls[id].owner.Some?)
    ensures forall k :: TakeLeaves(s, Disconnect(s, connection), connection, k)
  {
    forall k ensures TakeLeaves(s, Disconnect(s, connection), connection, k) {
      DisconnectTake(s, connection, k);
    }
    hide Answer, Fire, Bereaved, TakeLeaves;
  }

  ghost predicate TakeLeaves(s: State, t: State, connection: nat, take: nat) {
    take in t.waiters && t.waiters[take].worker == connection ==>
      && (connection in s.workers && (t.waiters[take].phase.Listening? || t.waiters[take].phase.Parked?) ==>
            t.waiters[take].fired)
      && forall now1, now2 :: Poll(t, take, now1, now2).1 == Refused(UNAUTHORIZED)
  }

  lemma DisconnectTake(s: State, connection: nat, take: nat)
    ensures TakeLeaves(s, Disconnect(s, connection), connection, take)
  {
    hide Answer, Bereaved, Lost;
  }

  /** Closing a connection that has nothing left changes nothing: the broker disconnects twice on its way out. */
  lemma DisconnectIdle(t: State, connection: nat)
    requires connection !in t.connections && connection !in t.workers && Lost(t, connection) == {}
    requires forall id :: id in t.calls && t.calls[id].caller == connection ==> !t.calls[id].open
    ensures Disconnect(t, connection) == t
  {
    assert Answer(t.sent, t.calls, Bereaved(t, connection), UNAVAILABLE) == t.sent;
    assert t.connections - {connection} == t.connections;
    assert Disconnect(t, connection).calls == t.calls;
  }

  lemma DisconnectTwice(s: State, connection: nat)
    requires CallsPlaced(s)
    ensures Disconnect(Disconnect(s, connection), connection) == Disconnect(s, connection)
  {
    DisconnectLeavesNothing(s, connection);
    DisconnectIdle(Disconnect(s, connection), connection);
  }
}
