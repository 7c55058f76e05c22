/**
 Whose answer a caller gets, over whole runs: every reply is traced to the step that sent it and the work it
 came from, a completion reaches its caller, and a request given up is never worked on or answered again.
 */
module SchedulerReplies {
  import opened Basics
  import opened Codes
  import opened Scheduler
  import opened SchedulerInvariant
  import opened SchedulerRuns
  import opened SchedulerAnswers

  // ---------------------------------------------------------------- where a reply comes from

  /** A result or a handler's error comes from the call's own worker, in the step that completes it. */
  ghost predicate FromItsWorker(s: State, step: Step, id: nat, reply: Reply) {
    && step.Completing? && step.id == id && id in s.calls && s.calls[id].owner == Some(step.worker)
    && step.now < s.calls[id].deadline
    && reply == if step.failed then Failure(HANDLER_ERROR, step.payload) else Success(step.payload)
  }

  ghost predicate IsResult(reply: Reply) {
    reply.Success? || reply.code == HANDLER_ERROR
  }

  /** The call's worker has just disconnected, or the last worker its route had. */
  ghost predicate Bereft(s: State, step: Step, id: nat)
    requires id in s.calls
  {
    && step.Closing? && step.connection != s.calls[id].caller && step.connection in s.workers
    && match s.calls[id].owner
       case Some(w) => w == step.connection
       case None => forall w :: w in s.workers && s.workers[w].route == s.calls[id].route ==> w == step.connection
  }

  ghost predicate Caused(s: State, step: Step, id: nat, reply: Reply) {
    && id in s.calls && s.calls[id].open
    && (IsResult(reply) ==> FromItsWorker(s, step, id, reply))
    && (reply.Failure? && reply.code == SERVICE_UNAVAILABLE ==> Bereft(s, step, id))
  }

  lemma StepReply(s: State, step: Step, id: nat)
    requires Inv(s) && id !in s.sent && id in Effect(s, step).sent
    ensures Caused(s, step, id, Effect(s, step).sent[id])
  {
    hide Request, Poll, Complete, Expire, Cancel, Disconnect, Left, Retained, Queued, OwnedBy, Inv;
    InvPlaces(s);
    InvReplies(s);
    match step
    case Requesting(c, route, ms, payload, now1, now2) =>
      RequestDoes(s, c, route, ms, payload, now1, now2);
      LeftOpen(s, route, now1);
    case Polling(take, now1, now2) =>
      if take in s.waiters {
        PollReply(s, take, now1, now2, id);
      } else {
        PollNobody(s, take, now1, now2);
      }
    case Completing(worker, call, failed, payload, now) => CompleteDoes(s, worker, call, failed, payload, now);
    case Expiring(call, now) => ExpireDoes(s, call);
    case Cancelling(call) => CancelDoes(s, call);
    case Closing(c) => ClosingReply(s, c, id);
    case _ =>
  }

  lemma InvReplies(s: State)
    requires Inv(s)
    ensures RepliesFinal(s)
  {
  }

  lemma PollNobody(s: State, take: nat, now1: int, now2: int)
    requires take !in s.waiters
    ensures Poll(s, take, now1, now2) == (s, Idle)
  {
  }

  lemma LeftOpen(s: State, route: string, now: int)
    requires CallsPlaced(s)
    ensures forall id :: id in s.calls && id !in Left(s.calls, route, now) ==> s.calls[id].open
  {
  }

  lemma PollReply(s: State, take: nat, now1: int, now2: int, id: nat)
    requires CallsPlaced(s) && RepliesFinal(s) && take in s.waiters
    requires id !in s.sent && id in Poll(s, take, now1, now2).0.sent
    ensures id in s.calls && s.calls[id].open && Poll(s, take, now1, now2).0.sent[id] == Failure(DEADLINE_EXCEEDED, [])
  {
    hide Poll, Queued, OwnedBy, RepliesFinal;
    PollDoes(s, take, now1, now2);
    PollDecides(s, take, now1, now2);
  }

  lemma ClosingReply(s: State, c: nat, id: nat)
    requires CallsPlaced(s) && id !in s.sent && id in Disconnect(s, c).sent
    ensures id in s.calls && s.calls[id].open && Disconnect(s, c).sent[id] == UNAVAILABLE && Bereft(s, Closing(c), id)
  {
    hide Fire;
    assert id in Bereaved(s, c);
    if s.calls[id].owner.None? {
      forall w | w in s.workers && s.workers[w].route == s.calls[id].route ensures w == c {
        assert w in WorkersOn(s.workers, s.calls[id].route);
      }
    }
  }

  /** A worker comes to own a call only by a dispatch. */
  lemma StepOwner(s: State, step: Step, id: nat, worker: nat)
    requires Inv(s) && id in OwnedBy(Effect(s, step).calls, worker) && id !in OwnedBy(s.calls, worker)
    ensures Dispatched(s, step).Some? && Dispatched(s, step).value.callId == id
    ensures s.waiters[step.take].worker == worker
  {
    hide Request, Poll, Complete, Expire, Cancel, Disconnect, Left, Retained, Queued, Inv;
    InvPlaces(s);
    InvReplies(s);
    match step
    case Requesting(c, route, ms, payload, now1, now2) =>
      RequestDoes(s, c, route, ms, payload, now1, now2);
      LeftSame(s, route, now1);
    case Polling(take, now1, now2) =>
      if take in s.waiters {
        PollOwner(s, take, now1, now2, id, worker);
      } else {
        PollNobody(s, take, now1, now2);
      }
    case Completing(w, call, failed, payload, now) => CompleteDoes(s, w, call, failed, payload, now);
    case Expiring(call, now) => ExpireDoes(s, call);
    case Cancelling(call) => CancelDoes(s, call);
    case Closing(c) => DisconnectShrinks(s, c);
    case _ =>
  }

  lemma LeftSame(s: State, route: string, now: int)
    ensures forall id :: id in Left(s.calls, route, now) ==>
              id in s.calls && Left(s.calls, route, now)[id] == s.calls[id]
  {
  }

  lemma PollOwner(s: State, take: nat, now1: int, now2: int, id: nat, worker: nat)
    requires CallsPlaced(s) && RepliesFinal(s) && take in s.waiters
    requires id in OwnedBy(Poll(s, take, now1, now2).0.calls, worker) && id !in OwnedBy(s.calls, worker)
    ensures Poll(s, take, now1, now2).1.Taken? && Poll(s, take, now1, now2).1.job.callId == id
    ensures s.waiters[take].worker == worker
  {
    hide Poll, Queued, RepliesFinal, CallsPlaced, Left, ToldLate;
    PollDoes(s, take, now1, now2);
    PollDecides(s, take, now1, now2);
    var w := s.waiters[take].worker;
    if w in s.workers {
      LeftSame(s, s.workers[w].route, now1);
    }
  }

  // ---------------------------------------------------------------- over runs

  /** A call a worker owns was handed to it by an earlier dispatch. */
  lemma {:induction false} DispatchedTo(worlds: seq<World>, steps: seq<Step>, j: nat, id: nat, worker: nat)
    returns (i: nat)
    requires IsRun(worlds, steps) && j < |worlds| && id in OwnedBy(worlds[j].state.calls, worker)
    ensures i < j && Dispatched(worlds[i].state, steps[i]).Some?
    ensures Dispatched(worlds[i].state, steps[i]).value.callId == id
    ensures steps[i].Polling? && steps[i].take in worlds[i].state.waiters
            && worlds[i].state.waiters[steps[i].take].worker == worker
    decreases j
  {
    hide Effect, Dispatched, Inv;
    if j > 0 {
      RunKeepsInvariant(worlds, steps, j - 1);
      assert worlds[j - 1 + 1] == Next(worlds[j - 1], steps[j - 1]);
      if id in OwnedBy(worlds[j - 1].state.calls, worker) {
        i := DispatchedTo(worlds, steps, j - 1, id, worker);
      } else {
        i := j - 1;
        StepOwner(worlds[i].state, steps[i], id, worker);
        DispatchedPolls(worlds[i].state, steps[i]);
      }
    }
  }

  lemma DispatchedPolls(s: State, step: Step)
    requires Dispatched(s, step).Some?
    ensures step.Polling? && step.take in s.waiters
  {
    hide Poll;
  }

  /** The step that sent a reply. */
  lemma {:induction false} SentBy(worlds: seq<World>, steps: seq<Step>, j: nat, id: nat) returns (k: nat)
    requires IsRun(worlds, steps) && j < |worlds| && id in worlds[j].state.sent
    ensures k < j && Caused(worlds[k].state, steps[k], id, worlds[j].state.sent[id]) && id !in worlds[k].state.sent
    decreases j
  {
    hide Effect, Inv, Caused;
    if j > 0 {
      RunKeepsInvariant(worlds, steps, j - 1);
      assert worlds[j - 1 + 1] == Next(worlds[j - 1], steps[j - 1]);
      if id in worlds[j - 1].state.sent {
        OneReply(worlds, steps, j - 1, j, id);
        k := SentBy(worlds, steps, j - 1, id);
      } else {
        k := j - 1;
        StepReply(worlds[k].state, steps[k], id);
      }
    }
  }

  /** This step completes the call: it comes from the call's worker and is taken. */
  ghost predicate Completes(s: State, step: Step, id: nat) {
    step.Completing? && step.id == id
    && Complete(s, step.worker, id, step.failed, step.payload, step.now).1.None?
  }

  /** Over every run: a result or a handler's error that a caller was sent is the payload of the one
      completion of its call, by the very worker the call was handed to, and that worker was handed the
      very payload of the request the call stems from. */
  lemma AnswerIsTheWorkers(worlds: seq<World>, steps: seq<Step>, j: nat, id: nat) returns (h: nat, i: nat, k: nat)
    requires IsRun(worlds, steps) && j < |worlds| && id in worlds[j].state.sent && IsResult(worlds[j].state.sent[id])
    ensures h < i < k < j && steps[h].Requesting? && AcceptedId(worlds[h].state, steps[h]) == Some(id)
    ensures Dispatched(worlds[i].state, steps[i]).Some?
            && Dispatched(worlds[i].state, steps[i]).value.callId == id
            && Dispatched(worlds[i].state, steps[i]).value.payload == steps[h].payload
    ensures steps[i].Polling? && steps[i].take in worlds[i].state.waiters && steps[k].Completing?
            && worlds[i].state.waiters[steps[i].take].worker == steps[k].worker
    ensures Completes(worlds[k].state, steps[k], id)
    ensures worlds[j].state.sent[id]
         == if steps[k].failed then Failure(HANDLER_ERROR, steps[k].payload) else Success(steps[k].payload)
    ensures forall m :: 0 <= m < |steps| && Completes(worlds[m].state, steps[m], id) ==> m == k
    ensures forall m :: 0 <= m < |steps| && HandsTo(worlds[m].state, steps[m], id) ==> m == i
  {
    hide Effect, Dispatched, AcceptedId, Inv, Complete, CallsPlaced, Next;
    k := SentBy(worlds, steps, j, id);
    var s, step := worlds[k].state, steps[k];
    RunKeepsInvariant(worlds, steps, k);
    InvPlaces(s);
    CompleteDoes(s, step.worker, id, step.failed, step.payload, step.now);
    i := DispatchedTo(worlds, steps, k, id, step.worker);
    h := DispatchInTime(worlds, steps, i);
    forall m | 0 <= m < |steps| && Completes(worlds[m].state, steps[m], id) ensures m == k {
      if m < k {
        CompletedOnce(worlds, steps, m, k, id);
      } else if k < m {
        CompletedOnce(worlds, steps, k, m, id);
      }
    }
    forall m | 0 <= m < |steps| && HandsTo(worlds[m].state, steps[m], id) ensures m == i {
      if m < i {
        DispatchOrder(worlds, steps, m, i);
      } else if i < m {
        DispatchOrder(worlds, steps, i, m);
      }
    }
  }

  ghost predicate HandsTo(s: State, step: Step, id: nat) {
    Dispatched(s, step).Some? && Dispatched(s, step).value.callId == id
  }

  /** A call is completed at most once in a run. */
  lemma CompletedOnce(worlds: seq<World>, steps: seq<Step>, k: nat, m: nat, id: nat)
    requires IsRun(worlds, steps) && k < m < |steps| && Completes(worlds[k].state, steps[k], id)
    ensures !Completes(worlds[m].state, steps[m], id)
  {
    hide Inv, Complete, CallsPlaced;
    RunKeepsInvariant(worlds, steps, k);
    RunKeepsInvariant(worlds, steps, m);
    var s, step := worlds[k].state, steps[k];
    CompletedLeaves(s, step, id);
    LeavesOnce(worlds, steps, k + 1, m, id);
    if Completes(worlds[m].state, steps[m], id) {
      CompletedLeaves(worlds[m].state, steps[m], id);
    }
  }

  lemma CompletedLeaves(s: State, step: Step, id: nat)
    requires Inv(s) && Completes(s, step, id)
    ensures id in s.calls && 1 <= id < s.nextId && id !in Effect(s, step).calls && Effect(s, step).nextId == s.nextId
  {
    hide Inv, CallsPlaced, Complete, Retained, OwnedBy, Request, Poll, Disconnect, Register, BeginTake, EndTake, Expire;
    InvPlaces(s);
    CompleteDoes(s, step.worker, id, step.failed, step.payload, step.now);
    Issued(s, id);
  }

  lemma Issued(s: State, id: nat)
    requires CallsPlaced(s) && id in s.calls
    ensures 1 <= id < s.nextId
  {
  }

  /** Over every run: a worker that completes its call in time, while the caller still waits, is not
      refused, and what it sends is from then on the caller's one reply. */
  lemma CompletionDelivers(worlds: seq<World>, steps: seq<Step>, k: nat, j: nat, id: nat)
    requires IsRun(worlds, steps) && k < j < |worlds| && steps[k].Completing? && steps[k].id == id
    requires id in OwnedBy(worlds[k].state.calls, steps[k].worker) && worlds[k].state.calls[id].open
             && steps[k].now < worlds[k].state.calls[id].deadline
    ensures Completes(worlds[k].state, steps[k], id) && id in worlds[j].state.sent
    ensures worlds[j].state.sent[id]
         == if steps[k].failed then Failure(HANDLER_ERROR, steps[k].payload) else Success(steps[k].payload)
  {
    hide Inv, Complete, CallsPlaced;
    RunKeepsInvariant(worlds, steps, k);
    var s, step := worlds[k].state, steps[k];
    InvPlaces(s);
    CompleteDoes(s, step.worker, id, step.failed, step.payload, step.now);
    assert worlds[k + 1] == Next(worlds[k], steps[k]);
    OneReply(worlds, steps, k + 1, j, id);
  }

  /** Over every run: after a ticket is dropped its call is never handed to anybody again and never
      answered again; if it was queued it is gone for good, and if it runs nobody waits for it. */
  lemma CancelledForGood(worlds: seq<World>, steps: seq<Step>, i: nat, j: nat, id: nat)
    requires IsRun(worlds, steps) && i < j < |worlds| && steps[i] == Cancelling(id)
             && 1 <= id < worlds[i].state.nextId
    ensures id in worlds[j].state.calls ==>
              && id in OwnedBy(worlds[i].state.calls, OwnerOf(worlds[j].state, id))
              && SameCall(worlds[j].state.calls[id], worlds[i].state.calls[id]) && !worlds[j].state.calls[id].open
    ensures id in Queued(worlds[i].state.calls, RouteOf(worlds[i].state, id)) ==> id !in worlds[j].state.calls
    ensures id in worlds[j].state.sent <==> id in worlds[i].state.sent
    ensures id in worlds[i].state.sent ==> worlds[j].state.sent[id] == worlds[i].state.sent[id]
    ensures j < |steps| ==> !HandsTo(worlds[j].state, steps[j], id)
  {
    hide Inv, Cancel, Dispatched;
    CancelDoes(worlds[i].state, id);
    assert worlds[i + 1] == Next(worlds[i], steps[i]);
    RunFate(worlds, steps, i + 1, j, id);
    StaysClosed(worlds, steps, i + 1, j, id);
    if j < |steps| && HandsTo(worlds[j].state, steps[j], id) {
      var job := DispatchAt(worlds, steps, j);
    }
  }

  ghost function OwnerOf(s: State, id: nat): nat
    requires id in s.calls
  {
    if s.calls[id].owner.Some? then s.calls[id].owner.value else 0
  }

  ghost function RouteOf(s: State, id: nat): string {
    if id in s.calls then s.calls[id].route else ""
  }

  /** Nothing is ever sent on a channel that has been closed. */
  lemma {:induction false} StaysClosed(worlds: seq<World>, steps: seq<Step>, i: nat, j: nat, id: nat)
    requires IsRun(worlds, steps) && i <= j < |worlds| && 1 <= id < worlds[i].state.nextId
    requires id in worlds[i].state.calls ==> !worlds[i].state.calls[id].open
    ensures id in worlds[j].state.sent <==> id in worlds[i].state.sent
    ensures id in worlds[i].state.sent ==> worlds[j].state.sent[id] == worlds[i].state.sent[id]
    decreases j
  {
    hide Effect, Inv;
    if i < j {
      StaysClosed(worlds, steps, i, j - 1, id);
      RunKeepsInvariant(worlds, steps, j - 1);
      RunFate(worlds, steps, i, j - 1, id);
      RunFate(worlds, steps, j - 1, j, id);
      assert worlds[j - 1 + 1] == Next(worlds[j - 1], steps[j - 1]);
      if id !in worlds[j - 1].state.sent && id in worlds[j].state.sent {
        StepReply(worlds[j - 1].state, steps[j - 1], id);
      }
    }
  }

  // ---------------------------------------------------------------- connections and registrations

  /** Of the first `j` steps, one starts the connection and none from there on closes it. */
  ghost predicate Started(steps: seq<Step>, j: nat, c: nat)
    requires j <= |steps|
  {
    exists i :: 0 <= i < j && steps[i] == Connecting(c) && forall k :: i <= k < j ==> steps[k] != Closing(c)
  }

  lemma StartedStep(steps: seq<Step>, j: nat, c: nat)
    requires 0 < j <= |steps|
    ensures Started(steps, j, c)
            <==> steps[j - 1] == Connecting(c) || (Started(steps, j - 1, c) && steps[j - 1] != Closing(c))
  {
    if Started(steps, j - 1, c) && steps[j - 1] != Closing(c) {
      var i :| 0 <= i < j - 1 && steps[i] == Connecting(c) && forall k :: i <= k < j - 1 ==> steps[k] != Closing(c);
      assert Started(steps, j, c);
    }
  }

  /** Over every run: a connection is known exactly from its start until it closes. */
  lemma {:induction false} ConnectedUntilClosed(worlds: seq<World>, steps: seq<Step>, j: nat, c: nat)
    requires IsRun(worlds, steps) && j < |worlds|
    ensures c in worlds[j].state.connections <==> Started(steps, j, c)
    decreases j
  {
    hide Effect, Enabled, Started;
    if j > 0 {
      ConnectedUntilClosed(worlds, steps, j - 1, c);
      assert worlds[j - 1 + 1] == Next(worlds[j - 1], steps[j - 1]);
      StepConnections(worlds[j - 1].state, steps[j - 1], c);
      StartedStep(steps, j, c);
    } else {
      NobodyStarted(steps, c);
    }
  }

  lemma NobodyStarted(steps: seq<Step>, c: nat)
    ensures !Started(steps, 0, c)
  {
  }

  lemma StepConnections(s: State, step: Step, c: nat)
    ensures c in Effect(s, step).connections
            <==> step == Connecting(c) || (c in s.connections && step != Closing(c))
  {
    hide ExpireQueued, TryTake, AdmitOrRefuse, Queued, Fire, Answer, Lost;
    match step
    case Requesting(caller, route, ms, payload, now1, now2) =>
      RequestWaiters(s, caller, route, ms, payload, now1, now2);
    case Polling(take, now1, now2) => PollConnections(s, take, now1, now2);
    case _ =>
  }

  lemma PollConnections(s: State, take: nat, now1: int, now2: int)
    ensures var t := Poll(s, take, now1, now2).0;
            t.connections == s.connections && t.workers == s.workers && t.limits == s.limits
  {
    hide Least, Queued, Answer;
  }

  /** Over every run: a registered worker has the route and the concurrency it asked for, its route the
      queue limit it asked for; so no worker ever runs more calls at once, and no route ever queues more,
      than its own workers said. */
  lemma {:induction false} RegisteredAsAsked(worlds: seq<World>, steps: seq<Step>, j: nat, worker: nat) returns (i: nat)
    requires IsRun(worlds, steps) && j < |worlds| && worker in worlds[j].state.workers
    ensures i < j
    ensures var s := worlds[j].state; var w := s.workers[worker];
            && w.route in s.limits
            && steps[i] == Registering(worker, w.route, w.concurrency, s.limits[w.route])
            && |OwnedBy(s.calls, worker)| <= w.concurrency && |Queued(s.calls, w.route)| <= s.limits[w.route]
    decreases j
  {
    hide Effect, Enabled, Retained, CallsPlaced, RepliesFinal, NoLostWakeup, TakesCounted;
    RunKeepsInvariant(worlds, steps, j);
    ServedHasLimit(worlds[j].state, worlds[j].state.workers[worker].route);
    if j > 0 {
      var s, step := worlds[j - 1].state, steps[j - 1];
      RunKeepsInvariant(worlds, steps, j - 1);
      assert worlds[j - 1 + 1] == Next(worlds[j - 1], step);
      StepRegistrations(s, step, worker);
      if worker in s.workers {
        i := RegisteredAsAsked(worlds, steps, j - 1, worker);
      } else {
        i := j - 1;
      }
    }
  }

  /** A step keeps a registration and its route's limit, or it is the one that makes it. */
  lemma StepRegistrations(s: State, step: Step, worker: nat)
    requires RoutesServed(s) && worker in Effect(s, step).workers
    ensures var t := Effect(s, step); var w := t.workers[worker];
            && w.route in t.limits
            && (worker in s.workers ==>
                  && w.route == s.workers[worker].route && w.concurrency == s.workers[worker].concurrency
                  && w.route in s.limits && t.limits[w.route] == s.limits[w.route])
            && (worker !in s.workers ==> step == Registering(worker, w.route, w.concurrency, t.limits[w.route]))
  {
    hide Request, Poll, Disconnect, Register, BeginTake, EndTake, RoutesServed, TakesOf, Fire, Answer, Served, Wakes;
    ServedByWorker(s, worker);
    match step
    case Requesting(c, route, ms, payload, now1, now2) => RequestRegistrations(s, c, route, ms, payload, now1, now2);
    case Polling(take, now1, now2) => PollConnections(s, take, now1, now2);
    case Registering(w, name, concurrency, limit) => RegisterDoes(s, w, name, concurrency, limit);
    case Starting(w, take) => BeginKeepsRoutes(s, w, take);
    case Ending(take) => EndKeepsRoutes(s, take);
    case Closing(c) =>
      DisconnectUnregisters(s, c);
      ServedByWorker(Disconnect(s, c), worker) by {
        DisconnectServed(s, c);
      }
    case _ =>
  }

  lemma ServedByWorker(s: State, worker: nat)
    requires RoutesServed(s)
    ensures worker in s.workers ==> s.workers[worker].route in s.limits
  {
    if worker in s.workers {
      assert worker in WorkersOn(s.workers, s.workers[worker].route);
    }
  }

  lemma RequestRegistrations(s: State, c: nat, route: string, ms: nat, payload: seq<byte>, now1: int, now2: int)
    ensures var t := Request(s, c, route, ms, payload, now1, now2).0;
            t.workers == s.workers && t.limits == s.limits
  {
    hide Queued, Fire, Answer;
  }

  lemma BeginKeepsRoutes(s: State, worker: nat, take: nat)
    ensures OnlyTakes(s, BeginTake(s, worker, take).0)
  {
  }

  lemma EndKeepsRoutes(s: State, take: nat)
    ensures OnlyTakes(s, EndTake(s, take))
  {
  }
}
