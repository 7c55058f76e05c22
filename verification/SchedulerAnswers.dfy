/**
 What each operation of the scheduler does for the one who calls it: exactly when it succeeds, which code it
 gives otherwise, and exactly what changes, in terms of the calls, registrations and replies alone.
 */
module SchedulerAnswers {
  import opened Basics
  import opened Codes
  import opened Scheduler
  import opened SchedulerInvariant

  // ---------------------------------------------------------------- the clean-up before a decision

  ghost predicate Late(call: Call, route: string, now: int) {
    call.owner.None? && call.route == route && call.deadline <= now
  }

  /** The calls left once those of the route that waited past their deadline are gone. */
  ghost function Left(calls: map<nat, Call>, route: string, now: int): map<nat, Call> {
    map id | id in calls && !Late(calls[id], route, now) :: calls[id]
  }

  /** Every call that `gone` lacks was told that it is late, and nobody else was told anything. */
  ghost predicate ToldLate(s: State, sent: map<nat, Reply>, gone: map<nat, Call>) {
    && (forall id :: id in sent <==> id in s.sent || (id in s.calls && id !in gone))
    && (forall id :: id in s.sent ==> sent[id] == s.sent[id])
    && (forall id :: id in s.calls && id !in gone && id in sent ==> sent[id] == Failure(DEADLINE_EXCEEDED, []))
  }

  lemma CleanUp(s: State, route: string, now: int)
    requires CallsPlaced(s) && RepliesFinal(s)
    ensures var t := ExpireQueued(s, route, now);
            && t == s.(calls := t.calls, sent := t.sent)
            && t.calls == Left(s.calls, route, now) && ToldLate(s, t.sent, t.calls)
            && CallsPlaced(t) && RepliesFinal(t)
  {
    var t := ExpireQueued(s, route, now);
    ExpireQueuedSettles(s, route, now);
    SettledPlaced(s, t, Overdue(s.calls, route, now), LATE);
    SettledReplies(s, t, Overdue(s.calls, route, now), LATE);
    assert forall id :: id in t.calls <==> id in s.calls && !Late(s.calls[id], route, now);
  }

  // ---------------------------------------------------------------- requests

  ghost predicate Served(s: State, route: string) {
    exists w :: w in s.workers && s.workers[w].route == route
  }

  /** Room in the route's queue, in the table, in the bytes and in the ids, for one request more. */
  ghost predicate RoomFor(s: State, route: string, payload: seq<byte>, now: int) {
    var left := Left(s.calls, route, now);
    && route in s.limits && |Queued(left, route)| < s.limits[route]
    && |left| < s.maxCalls && Retained(left) + 512 + 2 * |route| + |payload| <= s.maxBytes
    && s.nextId != MAX_U64
  }

  lemma ServedHasLimit(s: State, route: string)
    requires RoutesServed(s)
    ensures Served(s, route) <==> route in s.limits
  {
    if Served(s, route) {
      var w :| w in s.workers && s.workers[w].route == route;
      assert w in WorkersOn(s.workers, route);
    } else {
      assert WorkersOn(s.workers, route) == {};
    }
  }

  /** A request is accepted exactly when its caller is connected, some worker serves the route, and there
      is room once the overdue calls of the route are gone; otherwise the first of these that fails is
      the reason given. */
  lemma RequestDecides(s: State, caller: nat, route: string, timeoutMs: nat, payload: seq<byte>, now1: int, now2: int)
    requires Inv(s)
    ensures var admission := Request(s, caller, route, timeoutMs, payload, now1, now2).1;
            && (admission.Accepted? <==>
                  caller in s.connections && Served(s, route) && RoomFor(s, route, payload, now1))
            && (caller !in s.connections ==> admission == Rejected(SERVICE_UNAVAILABLE))
            && (caller in s.connections && !Served(s, route) ==> admission == Rejected(NO_SERVICE))
            && (caller in s.connections && Served(s, route) && !RoomFor(s, route, payload, now1) ==>
                  admission == Rejected(OVERLOADED))
  {
    hide ExpireQueued, Left, Queued, Retained, CallsPlaced, RepliesFinal, WithinBudgets, TakesCounted, NoLostWakeup;
    CleanUp(s, route, now1);
    ServedHasLimit(s, route);
    hide RoutesServed, Served;
  }

  /** The state after an accepted request, and after one refused for lack of room. */
  ghost predicate Queues(s: State, t: State, caller: nat, route: string, timeoutMs: nat, payload: seq<byte>, now1: int,
                         now2: int)
  {
    var left := Left(s.calls, route, now1);
    && t == s.(calls := t.calls, sent := t.sent, nextId := s.nextId + 1, waiters := t.waiters)
    && t.calls == left[s.nextId := Call(caller, route, None, now2 + timeoutMs * 1_000_000, payload, true,
                                        512 + 2 * |route| + |payload|)]
    && s.nextId !in left && ToldLate(s, t.sent, left) && Wakes(s, t, route)
  }

  /** Exactly the enabled TAKE futures of the route's workers are notified. */
  ghost predicate Wakes(s: State, t: State, route: string) {
    && t.waiters.Keys == s.waiters.Keys
    && forall k :: k in s.waiters ==>
         t.waiters[k] == s.waiters[k].(fired := s.waiters[k].fired || Hears(s, k, route))
  }

  ghost predicate Hears(s: State, take: nat, route: string)
    requires take in s.waiters
  {
    var waiter := s.waiters[take];
    && waiter.worker in s.workers && s.workers[waiter.worker].route == route
    && (waiter.phase.Listening? || waiter.phase.Parked?)
  }

  /** An accepted request is queued under a new id with its own terms, its workers are woken, and nothing
      else changes but what the clean-up did; a refused one leaves at most the clean-up behind. */
  lemma RequestDoes(s: State, caller: nat, route: string, timeoutMs: nat, payload: seq<byte>, now1: int, now2: int)
    requires Inv(s)
    ensures var (t, admission) := Request(s, caller, route, timeoutMs, payload, now1, now2);
            && (admission.Accepted? ==>
                  && Queues(s, t, caller, route, timeoutMs, payload, now1, now2)
                  && admission.id == s.nextId && admission.deadline == now2 + timeoutMs * 1_000_000)
            && (admission.Rejected? && admission.code != OVERLOADED ==> t == s)
            && (admission.Rejected? && admission.code == OVERLOADED ==>
                  && t == s.(calls := t.calls, sent := t.sent)
                  && t.calls == Left(s.calls, route, now1) && ToldLate(s, t.sent, t.calls))
  {
    hide ExpireQueued, Left, ToldLate, Queued, Retained, CallsPlaced, RoutesServed, RepliesFinal, WithinBudgets,
      TakesCounted, NoLostWakeup;
    CleanUp(s, route, now1);
    var u := ExpireQueued(s, route, now1);
    NextIsNew(u);
    FiresRoute(u, route);
    RequestCases(s, caller, route, timeoutMs, payload, now1, now2);
  }

  lemma FiresRoute(s: State, route: string)
    ensures Wakes(s, s.(waiters := Fire(s.waiters, WorkersOn(s.workers, route))), route)
  {
  }

  // ---------------------------------------------------------------- completions

  /** What the caller is told of a call completed at `now`. */
  ghost predicate Conveys(reply: Reply, call: Call, failed: bool, payload: seq<byte>, now: int) {
    && (call.deadline <= now ==> reply == Failure(DEADLINE_EXCEEDED, []))
    && (now < call.deadline && failed ==> reply == Failure(HANDLER_ERROR, payload))
    && (now < call.deadline && !failed ==> reply == Success(payload))
  }

  /** One channel is used, if it is still open, and nothing else is said. */
  ghost predicate Tells(s: State, t: State, id: nat) {
    && (forall k :: k in t.sent <==> k in s.sent || (k == id && id in s.calls && s.calls[id].open))
    && (forall k :: k in s.sent && (k != id || id !in s.calls || !s.calls[id].open) ==> t.sent[k] == s.sent[k])
  }

  /** A completion is taken exactly from the worker that runs the call; it frees the slot, hands the
      caller the worker's own payload if the caller still waits, and leaves all other calls alone. */
  lemma CompleteDoes(s: State, worker: nat, id: nat, failed: bool, payload: seq<byte>, now: int)
    requires CallsPlaced(s)
    ensures var (t, refusal) := Complete(s, worker, id, failed, payload, now);
            && (refusal.None? <==> id in s.calls && s.calls[id].owner == Some(worker))
            && (refusal == Some(INVALID) <==> worker in s.workers && id !in s.calls)
            && (refusal.Some? && refusal != Some(INVALID) ==> refusal == Some(UNAUTHORIZED))
            && (refusal.Some? ==> t == s)
            && (refusal.None? ==>
                  && t == s.(calls := s.calls - {id}, sent := t.sent, waiters := t.waiters) && Tells(s, t, id)
                  && (s.calls[id].open ==> Conveys(t.sent[id], s.calls[id], failed, payload, now))
                  && OwnedBy(t.calls, worker) == OwnedBy(s.calls, worker) - {id}
                  && Retained(t.calls) == Retained(s.calls) - s.calls[id].cost
                  && WakesWorker(s, t, worker))
  {
    hide Retained, Conveys, WakesWorker, Tells;
    if worker in s.workers && id in s.calls && s.calls[id].owner == Some(worker) {
      RetainedRemove(s.calls, id);
      CompleteConveys(s, worker, id, failed, payload, now);
    }
  }

  lemma CompleteConveys(s: State, worker: nat, id: nat, failed: bool, payload: seq<byte>, now: int)
    requires worker in s.workers && id in s.calls && s.calls[id].owner == Some(worker)
    ensures var t := Complete(s, worker, id, failed, payload, now).0;
            && Tells(s, t, id) && WakesWorker(s, t, worker)
            && (s.calls[id].open ==> id in t.sent && Conveys(t.sent[id], s.calls[id], failed, payload, now))
  {
    hide OwnedBy, Retained;
  }

  ghost predicate WakesWorker(s: State, t: State, worker: nat) {
    && t.waiters.Keys == s.waiters.Keys
    && forall k :: k in s.waiters ==>
         var waiter := s.waiters[k];
         var hears := waiter.worker == worker && (waiter.phase.Listening? || waiter.phase.Parked?);
         t.waiters[k] == waiter.(fired := waiter.fired || hears)
  }

  // ---------------------------------------------------------------- dropped tickets and timers

  /** The call is no longer waited for: a queued one is gone, with its place and its bytes; a running one
      stays with its worker. Nothing else about calls, registrations and waiters changes. */
  ghost predicate LetGo(s: State, t: State, id: nat)
    requires id in s.calls
  {
    var call := s.calls[id];
    && t == s.(calls := t.calls, sent := t.sent)
    && (call.owner.None? ==>
          && t.calls == s.calls - {id} && Retained(t.calls) == Retained(s.calls) - call.cost
          && Queued(t.calls, call.route) == Queued(s.calls, call.route) - {id})
    && (call.owner.Some? ==>
          t.calls == s.calls[id := call.(open := false)] && Retained(t.calls) == Retained(s.calls))
  }

  /** A dropped ticket lets its call go, and says nothing to anybody. */
  lemma CancelDoes(s: State, id: nat)
    ensures var t := Cancel(s, id);
            && (id !in s.calls ==> t == s)
            && (id in s.calls ==> LetGo(s, t, id) && t.sent == s.sent)
            && (id in t.calls ==> !t.calls[id].open)
  {
    LetsGo(s, id);
  }

  lemma LetsGo(s: State, id: nat)
    ensures id in s.calls ==> LetGo(s, Abandon(s, id), id)
  {
    hide Retained;
    if id in s.calls {
      RetainedRemove(s.calls, id);
      RetainedShrinks(s.calls[id := s.calls[id].(open := false)], s.calls);
    }
  }

  /** A timer that fires tells the caller, if it still waits, and lets the call go. */
  lemma ExpireDoes(s: State, id: nat)
    ensures var t := Expire(s, id);
            && (id !in s.calls ==> t == s)
            && (id in s.calls ==>
                  && LetGo(s, t, id) && Tells(s, t, id)
                  && (s.calls[id].open ==> t.sent[id] == Failure(DEADLINE_EXCEEDED, [])))
  {
    hide Retained;
    LetsGo(s, id);
    assert id !in s.calls ==> Answer(s.sent, s.calls, {id}, LATE) == s.sent;
  }

  // ---------------------------------------------------------------- registrations and takes

  /** A registration is taken exactly from a connected worker that has none yet and agrees with the
      route's queue limit; it is recorded as asked, and changes nothing else. */
  lemma RegisterDoes(s: State, worker: nat, name: string, concurrency: nat, queueLimit: nat)
    ensures var (t, refusal) := Register(s, worker, name, concurrency, queueLimit);
            && (refusal.None? <==>
                  && worker in s.connections && worker !in s.workers
                  && (name in s.limits ==> s.limits[name] == queueLimit))
            && (worker !in s.connections <==> refusal == Some(SERVICE_UNAVAILABLE))
            && (refusal.Some? && worker in s.connections ==> refusal == Some(INVALID))
            && (refusal.Some? ==> t == s)
            && (refusal.None? ==>
                  && t == s.(limits := t.limits, workers := t.workers)
                  && t.workers.Keys == s.workers.Keys + {worker} && t.limits.Keys == s.limits.Keys + {name}
                  && t.workers[worker].route == name && t.workers[worker].concurrency == concurrency
                  && t.workers[worker].takes == 0 && t.limits[name] == queueLimit
                  && (forall w :: w in s.workers ==> t.workers[w] == s.workers[w])
                  && (forall r :: r in s.limits ==> t.limits[r] == s.limits[r]))
  {
  }

  /** A TAKE starts exactly when its worker is registered and has fewer TAKEs out than it may run calls. */
  lemma BeginTakeDoes(s: State, worker: nat, take: nat)
    requires TakesCounted(s) && take !in s.waiters
    ensures var (t, refusal) := BeginTake(s, worker, take);
            && (refusal.None? <==> worker in s.workers && |TakesOf(s.waiters, worker)| < s.workers[worker].concurrency)
            && (worker !in s.workers <==> refusal == Some(UNAUTHORIZED))
            && (refusal.Some? && worker in s.workers ==> refusal == Some(OVERLOADED))
            && (refusal.Some? ==> t == s)
            && (refusal.None? ==>
                  && t == s.(workers := t.workers, waiters := s.waiters[take := Waiter(worker, Started, false)])
                  && TakesOf(t.waiters, worker) == TakesOf(s.waiters, worker) + {take})
  {
  }

  /** A TAKE that ends takes only itself away, and gives its place back. */
  lemma EndTakeDoes(s: State, take: nat)
    requires TakesCounted(s) && take in s.waiters
    ensures var t := EndTake(s, take);
            && t == s.(workers := t.workers, waiters := s.waiters - {take}) && t.workers.Keys == s.workers.Keys
            && (forall w :: w in s.workers ==>
                  && t.workers[w].route == s.workers[w].route && t.workers[w].concurrency == s.workers[w].concurrency
                  && t.workers[w].takes == |TakesOf(s.waiters - {take}, w)|)
  {
    hide TakesOf;
    EndTakeCounts(s, take);
  }

  /** A TAKE that listens again hears only what comes from now on. */
  lemma ListenDoes(s: State, take: nat)
    requires take in s.waiters
    ensures var t := Listen(s, take);
            && t == s.(waiters := t.waiters) && t.waiters.Keys == s.waiters.Keys
            && t.waiters[take] == Waiter(s.waiters[take].worker, Listening, false)
            && forall k :: k in s.waiters && k != take ==> t.waiters[k] == s.waiters[k]
  {
  }

  /** A call that a worker may get: queued on its route and not overdue at the first look. */
  ghost predicate Available(s: State, worker: nat, now: int, id: nat) {
    && worker in s.workers && id in s.calls && s.calls[id].owner.None?
    && s.calls[id].route == s.workers[worker].route && now < s.calls[id].deadline
  }

  ghost predicate Full(s: State, worker: nat) {
    worker in s.workers && |OwnedBy(s.calls, worker)| >= s.workers[worker].concurrency
  }

  /** The oldest call the worker may get. */
  ghost predicate Head(s: State, worker: nat, now: int, id: nat) {
    Available(s, worker, now, id) && forall k :: Available(s, worker, now, k) ==> id <= k
  }

  /** A poll refuses exactly an unregistered worker; hands out a call exactly if the worker has a free slot
      and the oldest call it may get is still in time at the second look; tries again exactly if that one
      has run out of time in between; and parks in all other cases, and only then. */
  lemma PollDecides(s: State, take: nat, now1: int, now2: int)
    requires CallsPlaced(s) && RepliesFinal(s) && take in s.waiters
    ensures var worker := s.waiters[take].worker;
            var (t, attempt) := Poll(s, take, now1, now2);
            && (worker !in s.workers <==> attempt.Refused?) && (attempt.Refused? ==> attempt.code == UNAUTHORIZED)
            && (attempt.Taken? <==>
                  worker in s.workers && !Full(s, worker)
                  && exists id :: Head(s, worker, now1, id) && now2 < s.calls[id].deadline)
            && (attempt.Retry? <==>
                  worker in s.workers && !Full(s, worker)
                  && exists id :: Head(s, worker, now1, id) && s.calls[id].deadline <= now2)
            && (attempt.Taken? ==> Head(s, worker, now1, attempt.job.callId))
            && (t.waiters[take].phase.Parked? <==> attempt.Idle?)
            && (t.waiters[take].phase.Listening? <==> attempt.Retry?)
            && (t.waiters[take].phase.Returned? <==> attempt.Refused? || attempt.Taken?)
  {
    hide Answer, CallsPlaced, RepliesFinal, OwnedBy;
    var worker := s.waiters[take].worker;
    if worker in s.workers && !Full(s, worker) {
      var route := s.workers[worker].route;
      CleanUp(s, route, now1);
      var u := ExpireQueued(s, route, now1);
      forall id ensures id in Queued(u.calls, route) <==> Available(s, worker, now1, id) {
      }
      if Queued(u.calls, route) != {} {
        var id := Least(Queued(u.calls, route));
        assert Head(s, worker, now1, id);
      }
    }
  }

  /** The calls after a poll: overdue ones of the route are gone and told so, a dispatched one belongs to
      the worker with all else of it unchanged, and every other call is as it was. */
  ghost predicate Polled(s: State, t: State, take: nat, attempt: Attempt, now1: int, now2: int)
    requires take in s.waiters
  {
    var worker := s.waiters[take].worker;
    && take in t.waiters && t == s.(calls := t.calls, sent := t.sent, waiters := s.waiters[take := t.waiters[take]])
    && t.waiters[take] == s.waiters[take].(phase := t.waiters[take].phase)
    && (worker !in s.workers || Full(s, worker) ==> t.calls == s.calls && t.sent == s.sent)
    && (worker in s.workers && !Full(s, worker) ==>
          var left := Left(s.calls, s.workers[worker].route, now1);
          match attempt
          case Taken(job) =>
            && job.callId in left && ToldLate(s, t.sent, left)
            && t.calls == left[job.callId := left[job.callId].(owner := Some(worker))]
          case Retry =>
            && (forall id :: Head(s, worker, now1, id) ==> t.calls == left - {id}) && ToldLate(s, t.sent, t.calls)
          case _ => t.calls == left && ToldLate(s, t.sent, left))
  }

  lemma PollDoes(s: State, take: nat, now1: int, now2: int)
    requires CallsPlaced(s) && RepliesFinal(s) && take in s.waiters
    ensures Polled(s, Poll(s, take, now1, now2).0, take, Poll(s, take, now1, now2).1, now1, now2)
  {
    hide CallsPlaced, RepliesFinal, OwnedBy, Left, ToldLate, Answer, ExpireQueued;
    var worker := s.waiters[take].worker;
    if worker in s.workers && !Full(s, worker) {
      var route := s.workers[worker].route;
      CleanUp(s, route, now1);
      var u := ExpireQueued(s, route, now1);
      LeftAvailable(s, worker, now1);
      if Queued(u.calls, route) != {} {
        var id := Least(Queued(u.calls, route));
        assert Head(s, worker, now1, id);
        DroppedIsTold(s, u, id);
      }
    }
  }

  lemma LeftAvailable(s: State, worker: nat, now: int)
    requires worker in s.workers
    ensures var route := s.workers[worker].route;
            && (forall id :: id in Queued(Left(s.calls, route, now), route) <==> Available(s, worker, now, id))
            && (forall id :: id in Left(s.calls, route, now) ==>
                  id in s.calls && Left(s.calls, route, now)[id] == s.calls[id])
  {
  }

  /** A head dropped at the second look is one more call told that it is late. */
  lemma DroppedIsTold(s: State, u: State, id: nat)
    requires CallsPlaced(s) && RepliesFinal(s) && ToldLate(s, u.sent, u.calls)
    requires id in u.calls && id in s.calls && u.calls[id] == s.calls[id] && s.calls[id].owner.None?
    ensures ToldLate(s, Answer(u.sent, u.calls, {id}, LATE), u.calls - {id})
  {
  }

  // ---------------------------------------------------------------- disconnects

  /** A closing connection leaves alone every call that others made and that it neither runs nor is the
      last to serve. */
  lemma DisconnectSpares(s: State, connection: nat, id: nat)
    requires id in s.calls && s.calls[id].caller != connection && s.calls[id].owner != Some(connection)
    requires s.calls[id].owner.None? ==>
               exists w :: w in s.workers && w != connection && s.workers[w].route == s.calls[id].route
    ensures var t := Disconnect(s, connection);
            id in t.calls && t.calls[id] == s.calls[id] && (id in t.sent <==> id in s.sent)
  {
    hide Fire;
    if s.calls[id].owner.None? {
      var w :| w in s.workers && w != connection && s.workers[w].route == s.calls[id].route;
      assert w in WorkersOn(s.workers, s.calls[id].route);
    }
    assert id !in Lost(s, connection);
  }

  /** Its own registration goes with it and no other, a route goes exactly with its last worker, and the
      enabled TAKEs of the route are notified. */
  lemma DisconnectUnregisters(s: State, connection: nat)
    requires RoutesServed(s)
    ensures var t := Disconnect(s, connection);
            && t.connections == s.connections - {connection} && t.workers == s.workers - {connection}
            && (forall r :: r in t.limits <==> Served(t, r)) && (forall r :: r in t.limits ==> r in s.limits)
            && (forall r :: r in t.limits ==> t.limits[r] == s.limits[r])
            && (connection in s.workers ==> Wakes(s, t, s.workers[connection].route))
            && (connection !in s.workers ==> t.waiters == s.waiters)
  {
    hide Fire, Answer, Lost, RoutesServed;
    if connection in s.workers {
      FiresRoute(s, s.workers[connection].route);
    }
    DisconnectServed(s, connection);
    var t := Disconnect(s, connection);
    forall r ensures Served(t, r) <==> r in t.limits {
      ServedHasLimit(t, r);
    }
    assert connection !in s.workers ==> s.workers - {connection} == s.workers;
  }

  /** Each call that goes with it although somebody else waits for it is answered: the worker is gone. */
  lemma DisconnectTells(s: State, connection: nat, id: nat)
    requires CallsPlaced(s) && id in s.calls && s.calls[id].caller != connection && s.calls[id].open
    requires s.calls[id].owner == Some(connection) ||
             (&& s.calls[id].owner.None? && connection in s.workers
              && s.workers[connection].route == s.calls[id].route
              && forall w :: w in s.workers && s.workers[w].route == s.calls[id].route ==> w == connection)
    ensures var t := Disconnect(s, connection);
            id !in t.calls && id in t.sent && t.sent[id] == Failure(SERVICE_UNAVAILABLE, [])
  {
  }
}
