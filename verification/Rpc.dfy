/**
 The broker's RPC state as it is kept: route queues, worker lists, running counts and the byte
 total are maintained incrementally, and every public operation is shown to do to the calls
 exactly what `Scheduler` says.  Clock readings are arguments, reply channels and notifications
 are the fields `sent` and `waiters`.
 */
module Rpc {
  import opened Basics
  import opened Codes
  import opened Scheduler
  import opened SchedulerInvariant
  import opened SchedulerAnswers

  datatype Route = Route(workers: seq<nat>, queue: seq<nat>, queueLimit: nat)

  datatype Worker = Worker(route: string, concurrency: nat, running: nat, pendingTakes: nat)

  // ---------------------------------------------------------------- what the caches must say

  function Limits(routes: map<string, Route>): map<string, nat> {
    map r | r in routes :: routes[r].queueLimit
  }

  function Registrations(workers: map<nat, Worker>): map<nat, Registration> {
    map w | w in workers :: Registration(workers[w].route, workers[w].concurrency, workers[w].pendingTakes)
  }

  ghost predicate QueueIs(queue: seq<nat>, ids: set<nat>) {
    Increasing(queue) && Elements(queue) == ids
  }

  ghost predicate QueuesMatch(routes: map<string, Route>, calls: map<nat, Call>) {
    forall r :: r in routes ==> QueueIs(routes[r].queue, Queued(calls, r))
  }

  /** As above, except that `id` may already have left its queue. */
  ghost predicate QueuesMatchBut(routes: map<string, Route>, calls: map<nat, Call>, id: nat) {
    forall r :: r in routes ==>
      Increasing(routes[r].queue) && Queued(calls, r) - {id} <= Elements(routes[r].queue) <= Queued(calls, r)
  }

  ghost predicate RunningMatches(workers: map<nat, Worker>, calls: map<nat, Call>) {
    forall w :: w in workers ==> workers[w].running == |OwnedBy(calls, w)|
  }

  ghost predicate MembersMatch(routes: map<string, Route>, workers: map<nat, Worker>) {
    forall r :: r in routes ==>
      Distinct(routes[r].workers) && Elements(routes[r].workers) == WorkersOn(Registrations(workers), r)
  }

  ghost predicate SameMembers(routes: map<string, Route>, before: map<string, Route>) {
    routes.Keys == before.Keys
    && forall r ::
         r in routes ==> routes[r].workers == before[r].workers && routes[r].queueLimit == before[r].queueLimit
  }

  // ---------------------------------------------------------------- pure pieces of the operations

  function Retain(routes: map<string, Route>, route: string, id: nat): map<string, Route> {
    if route in routes then routes[route := routes[route].(queue := Without(routes[route].queue, id))] else routes
  }

  /** A call whose channel is spent: gone if it was queued, silent if it runs. */
  function Drop(calls: map<nat, Call>, id: nat): map<nat, Call> {
    if id !in calls then calls
    else if calls[id].owner.None? then calls - {id}
    else calls[id := calls[id].(open := false)]
  }

  function OverdueIn(queue: seq<nat>, calls: map<nat, Call>, now: int): (late: seq<nat>)
    ensures forall id :: id in late <==> id in queue && id in calls && calls[id].deadline <= now
  {
    if queue == [] then []
    else if queue[0] in calls && calls[queue[0]].deadline <= now then [queue[0]] + OverdueIn(queue[1..], calls, now)
    else OverdueIn(queue[1..], calls, now)
  }

  lemma {:induction false} OverdueInDistinct(queue: seq<nat>, calls: map<nat, Call>, now: int)
    requires Distinct(queue)
    ensures Distinct(OverdueIn(queue, calls, now))
  {
    if queue != [] {
      OverdueInDistinct(queue[1..], calls, now);
      var late := OverdueIn(queue[1..], calls, now);
      forall i | 0 <= i < |late| ensures queue[0] != late[i] {
        assert late[i] in queue[1..];
      }
    }
  }

  // ---------------------------------------------------------------- lemmas about the caches

  lemma QueuesAfterRemove(routes: map<string, Route>, calls: map<nat, Call>, id: nat)
    requires id in calls && calls[id].owner.None? && QueuesMatchBut(routes, calls, id)
    ensures QueuesMatch(Retain(routes, calls[id].route, id), calls - {id})
  {
    var after := Retain(routes, calls[id].route, id);
    forall r | r in after ensures QueueIs(after[r].queue, Queued(calls - {id}, r)) {
      WithoutKeepsOrder(routes[r].queue, id);
      assert Queued(calls - {id}, r) == Queued(calls, r) - {id};
    }
  }

  lemma QueuesAfterFinish(routes: map<string, Route>, calls: map<nat, Call>, id: nat)
    requires id in calls && calls[id].owner.Some? && QueuesMatchBut(routes, calls, id)
    ensures QueuesMatch(routes, calls - {id})
  {
    forall r | r in routes ensures QueueIs(routes[r].queue, Queued(calls - {id}, r)) {
      assert id !in Queued(calls, r);
      assert Queued(calls - {id}, r) == Queued(calls, r) - {id};
    }
  }

  lemma OwnedAfterRemove(calls: map<nat, Call>, id: nat, w: nat)
    requires id in calls
    ensures OwnedBy(calls - {id}, w) == OwnedBy(calls, w) - {id}
    ensures |OwnedBy(calls - {id}, w)| == |OwnedBy(calls, w)| - if calls[id].owner == Some(w) then 1 else 0
  {
    assert OwnedBy(calls - {id}, w) == OwnedBy(calls, w) - {id};
  }

  /** Queues and running counts are nobody's registration or membership. */
  lemma RetainMoves(routes: map<string, Route>, route: string, id: nat)
    ensures SameMembers(Retain(routes, route, id), routes) && Limits(Retain(routes, route, id)) == Limits(routes)
  {
  }

  lemma RunningOnly(workers: map<nat, Worker>, worker: nat, running: nat)
    requires worker in workers
    ensures Registrations(workers[worker := workers[worker].(running := running)]) == Registrations(workers)
  {
  }

  /** Who still counts `id` after it has gone: nobody but its owner did. */
  lemma RunningAfterRemove(workers: map<nat, Worker>, calls: map<nat, Call>, id: nat)
    requires id in calls && RunningMatches(workers, calls)
    ensures calls[id].owner.None? || calls[id].owner.value !in workers ==> RunningMatches(workers, calls - {id})
    ensures calls[id].owner.Some? && calls[id].owner.value in workers ==>
              var w := calls[id].owner.value;
              workers[w].running > 0
              && RunningMatches(workers[w := workers[w].(running := workers[w].running - 1)], calls - {id})
  {
    forall w: nat
      ensures |OwnedBy(calls - {id}, w)| == |OwnedBy(calls, w)| - if calls[id].owner == Some(w) then 1 else 0
    {
      OwnedAfterRemove(calls, id, w);
    }
  }

  /** Only the channel of a call changed. */
  lemma CachesAfterClose(routes: map<string, Route>, workers: map<nat, Worker>, calls: map<nat, Call>, id: nat)
    requires id in calls
    ensures var after := calls[id := calls[id].(open := false)];
            && (forall r :: Queued(after, r) == Queued(calls, r))
            && (forall w :: OwnedBy(after, w) == OwnedBy(calls, w))
            && Retained(after) == Retained(calls)
  {
    var after := calls[id := calls[id].(open := false)];
    assert after.Keys == calls.Keys;
    RetainedShrinks(after, calls);
  }

  /** Answering and dropping calls one by one is answering and dropping them together. */
  lemma AnswerNext(sent: map<nat, Reply>, calls: map<nat, Call>, done: set<nat>, id: nat, reply: Reply)
    requires id !in done && id in calls
    ensures Answer(Answer(sent, calls, done, reply), calls - done, {id}, reply)
            == Answer(sent, calls, done + {id}, reply)
    ensures (calls - done) - {id} == calls - (done + {id})
  {
  }

  lemma AnswerOne(sent: map<nat, Reply>, calls: map<nat, Call>, id: nat, reply: Reply)
    ensures Answer(sent, calls, {id}, reply) == if id in calls && calls[id].open then sent[id := reply] else sent
  {
  }

  lemma AnswerNone(sent: map<nat, Reply>, calls: map<nat, Call>, reply: Reply)
    ensures Answer(sent, calls, {}, reply) == sent && calls - {} == calls
  {
  }

  lemma InQueue(ids: set<nat>, calls: map<nat, Call>, route: string)
    requires ids <= Queued(calls, route)
    ensures forall id :: id in ids ==> id in calls && calls[id].owner.None?
  {
  }

  lemma AllQueues(routes: map<string, Route>, calls: map<nat, Call>, id: nat)
    requires QueuesMatch(routes, calls)
    ensures QueuesMatchBut(routes, calls, id)
  {
  }

  lemma QueueLength(routes: map<string, Route>, calls: map<nat, Call>, route: string)
    requires route in routes && QueuesMatch(routes, calls)
    ensures |routes[route].queue| == |Queued(calls, route)|
  {
    IncreasingDistinct(routes[route].queue);
  }

  function PushBack(routes: map<string, Route>, route: string, id: nat): map<string, Route>
    requires route in routes
  {
    routes[route := routes[route].(queue := routes[route].queue + [id])]
  }

  lemma QueuesAfterPush(routes: map<string, Route>, calls: map<nat, Call>, id: nat, call: Call)
    requires QueuesMatch(routes, calls) && call.owner.None? && call.route in routes
    requires forall k :: k in calls ==> k < id
    ensures QueuesMatch(PushBack(routes, call.route, id), calls[id := call])
  {
    var after := PushBack(routes, call.route, id);
    forall r | r in after ensures QueueIs(after[r].queue, Queued(calls[id := call], r)) {
      assert Queued(calls[id := call], r) == Queued(calls, r) + if r == call.route then {id} else {};
      var queue := routes[r].queue;
      forall i | 0 <= i < |queue| ensures queue[i] < id {
        assert queue[i] in Elements(queue);
      }
      assert Elements(queue + [id]) == Elements(queue) + {id};
    }
  }

  lemma CountsAfterPush(workers: map<nat, Worker>, calls: map<nat, Call>, id: nat, call: Call)
    requires RunningMatches(workers, calls) && call.owner.None? && id !in calls
    ensures RunningMatches(workers, calls[id := call])
    ensures Retained(calls[id := call]) == Retained(calls) + call.cost
  {
    RetainedInsert(calls, id, call);
    forall w ensures OwnedBy(calls[id := call], w) == OwnedBy(calls, w) {
    }
  }

  lemma MembersStay(routes: map<string, Route>, workers: map<nat, Worker>, routes0: map<string, Route>,
                    workers0: map<nat, Worker>)
    requires MembersMatch(routes0, workers0)
    requires SameMembers(routes, routes0) && Registrations(workers) == Registrations(workers0)
    ensures MembersMatch(routes, workers) && workers.Keys == workers0.Keys && routes.Keys == routes0.Keys
    ensures forall w :: w in workers ==> workers[w].route == workers0[w].route
  {
    assert workers.Keys == Registrations(workers).Keys && workers0.Keys == Registrations(workers0).Keys;
    forall w | w in workers ensures workers[w].route == workers0[w].route {
      assert Registrations(workers)[w] == Registrations(workers0)[w];
    }
  }

  lemma SameRoutes(routes: map<string, Route>)
    ensures SameMembers(routes, routes)
  {
  }

  lemma FireTwice(waiters: map<nat, Waiter>, a: set<nat>, b: set<nat>)
    ensures Fire(Fire(waiters, a), b) == Fire(waiters, a + b)
  {
  }

  lemma FireNobody(waiters: map<nat, Waiter>)
    ensures Fire(waiters, {}) == waiters
  {
  }

  lemma HeadIsLeast(queue: seq<nat>, ids: set<nat>)
    requires QueueIs(queue, ids) && queue != []
    ensures ids != {} && queue[0] == Least(ids)
  {
    assert queue[0] in Elements(queue);
    var i :| 0 <= i < |queue| && queue[i] == Least(ids);
  }

  lemma QueueAt(routes: map<string, Route>, calls: map<nat, Call>, route: string)
    requires QueuesMatch(routes, calls) && route in routes
    ensures QueueIs(routes[route].queue, Queued(calls, route))
  {
  }

  lemma EmptyQueue(queue: seq<nat>, ids: set<nat>)
    requires QueueIs(queue, ids) && queue == []
    ensures ids == {}
  {
  }

  function PopFront(routes: map<string, Route>, route: string): map<string, Route>
    requires route in routes && routes[route].queue != []
  {
    routes[route := routes[route].(queue := routes[route].queue[1..])]
  }

  lemma QueuesAfterPop(routes: map<string, Route>, calls: map<nat, Call>, route: string, worker: nat)
    requires QueuesMatch(routes, calls) && route in routes && routes[route].queue != []
    ensures var id := routes[route].queue[0];
            && id in calls
            && QueuesMatchBut(PopFront(routes, route), calls, id)
            && QueuesMatch(PopFront(routes, route), calls[id := calls[id].(owner := Some(worker))])
            && calls[id].owner.None?
    ensures SameMembers(PopFront(routes, route), routes) && Limits(PopFront(routes, route)) == Limits(routes)
  {
    var queue := routes[route].queue;
    var id := queue[0];
    var after := PopFront(routes, route);
    assert queue == [id] + queue[1..];
    assert Elements(queue) == {id} + Elements(queue[1..]);
    assert id in Queued(calls, route);
    forall r | r in after
      ensures QueueIs(after[r].queue, Queued(calls, r) - {id})
      ensures Queued(calls[id := calls[id].(owner := Some(worker))], r) == Queued(calls, r) - {id}
    {
    }
  }

  lemma OwnedAfterAssign(calls: map<nat, Call>, id: nat, worker: nat, w: nat)
    requires id in calls && calls[id].owner.None?
    ensures |OwnedBy(calls[id := calls[id].(owner := Some(worker))], w)|
            == |OwnedBy(calls, w)| + if w == worker then 1 else 0
  {
    assert id !in OwnedBy(calls, w);
    assert OwnedBy(calls[id := calls[id].(owner := Some(worker))], w)
           == OwnedBy(calls, w) + if w == worker then {id} else {};
  }

  lemma CountsAfterAssign(workers: map<nat, Worker>, calls: map<nat, Call>, id: nat, worker: nat)
    requires RunningMatches(workers, calls) && id in calls && calls[id].owner.None? && worker in workers
    ensures var after := calls[id := calls[id].(owner := Some(worker))];
            && RunningMatches(workers[worker := workers[worker].(running := workers[worker].running + 1)], after)
            && Retained(after) == Retained(calls)
  {
    hide OwnedBy, Retained;
    var after := calls[id := calls[id].(owner := Some(worker))];
    assert after.Keys == calls.Keys;
    RetainedShrinks(after, calls);
    forall w: nat ensures |OwnedBy(after, w)| == |OwnedBy(calls, w)| + if w == worker then 1 else 0 {
      OwnedAfterAssign(calls, id, worker, w);
    }
  }

  function Enrol(routes: map<string, Route>, name: string, worker: nat, queueLimit: nat): map<string, Route> {
    var route := if name in routes then routes[name] else Route([], [], queueLimit);
    routes[name := route.(workers := route.workers + [worker])]
  }

  lemma RegistrationsUpdate(workers: map<nat, Worker>, worker: nat, entry: Worker)
    ensures Registrations(workers[worker := entry])
            == Registrations(workers)[worker := Registration(entry.route, entry.concurrency, entry.pendingTakes)]
  {
  }

  lemma LimitsAfterEnrol(routes: map<string, Route>, name: string, worker: nat, queueLimit: nat)
    ensures name in routes ==> Limits(Enrol(routes, name, worker, queueLimit)) == Limits(routes)
    ensures name !in routes ==> Limits(Enrol(routes, name, worker, queueLimit)) == Limits(routes)[name := queueLimit]
  {
  }

  lemma WorkersAfterEnrol(workers: map<nat, Worker>, worker: nat, entry: Worker, r: string)
    requires worker !in workers
    ensures WorkersOn(Registrations(workers[worker := entry]), r)
            == WorkersOn(Registrations(workers), r) + if r == entry.route then {worker} else {}
    ensures worker !in WorkersOn(Registrations(workers), r)
  {
  }

  lemma MemberAdded(members: seq<nat>, worker: nat)
    requires Distinct(members) && worker !in Elements(members)
    ensures Distinct(members + [worker]) && Elements(members + [worker]) == Elements(members) + {worker}
  {
    forall i | 0 <= i < |members| ensures members[i] != worker {
      assert members[i] in Elements(members);
    }
  }

  lemma MembersAfterEnrol(routes: map<string, Route>, workers: map<nat, Worker>, name: string, worker: nat,
                          entry: Worker, queueLimit: nat)
    requires MembersMatch(routes, workers) && worker !in workers && entry.route == name
    requires name !in routes ==> WorkersOn(Registrations(workers), name) == {}
    ensures MembersMatch(Enrol(routes, name, worker, queueLimit), workers[worker := entry])
  {
    hide Distinct, Elements, WorkersOn, Registrations;
    var after := Enrol(routes, name, worker, queueLimit);
    NoMembers();
    forall r | r in after
      ensures Distinct(after[r].workers)
              && Elements(after[r].workers) == WorkersOn(Registrations(workers[worker := entry]), r)
    {
      WorkersAfterEnrol(workers, worker, entry, r);
      if r == name {
        MemberAdded(if r in routes then routes[r].workers else [], worker);
      }
    }
  }

  lemma NoMembers()
    ensures Distinct([]) && Elements([]) == {}
  {
  }

  lemma MembersAfterRetire(routes: map<string, Route>, workers: map<nat, Worker>, worker: nat)
    requires MembersMatch(routes, workers) && worker in workers && workers[worker].route in routes
    ensures var name := workers[worker].route;
            var members := Without(routes[name].workers, worker);
            && MembersMatch(routes[name := routes[name].(workers := members)], workers - {worker})
            && (members == [] <==> WorkersOn(Registrations(workers), name) == {worker})
  {
    var name := workers[worker].route;
    var members := Without(routes[name].workers, worker);
    WithoutKeepsDistinct(routes[name].workers, worker);
    var regs := Registrations(workers - {worker});
    forall r ensures WorkersOn(regs, r) == WorkersOn(Registrations(workers), r) - {worker} {
    }
    assert Elements(members) == Elements(routes[name].workers) - {worker};
    assert worker in WorkersOn(Registrations(workers), name);
    assert members == [] <==> Elements(members) == {} by {
      if members != [] {
        assert members[0] in Elements(members);
      }
    }
  }

  /** The caller of the calls in `done` has gone: their channels are dropped, the queued ones with them. */
  function Orphan(calls: map<nat, Call>, done: set<nat>): map<nat, Call> {
    map id | id in calls && !(id in done && calls[id].owner.None?) ::
      if id in done then calls[id].(open := false) else calls[id]
  }

  lemma OrphanNext(calls: map<nat, Call>, done: set<nat>, id: nat)
    requires id in calls && id !in done
    ensures id in Orphan(calls, done)
    ensures Drop(Orphan(calls, done), id) == Orphan(calls, done + {id})
  {
  }

  lemma OrphanNone(calls: map<nat, Call>)
    ensures Orphan(calls, {}) == calls
  {
  }

  lemma AnswerUnion(sent: map<nat, Reply>, calls: map<nat, Call>, a: set<nat>, b: set<nat>, reply: Reply)
    requires a !! b
    ensures Answer(Answer(sent, calls, a, reply), calls - a, b, reply) == Answer(sent, calls, a + b, reply)
  {
    var left, right := Answer(Answer(sent, calls, a, reply), calls - a, b, reply), Answer(sent, calls, a + b, reply);
    assert forall id :: id in left <==> id in right;
  }

  lemma TakenTogether(calls: map<nat, Call>, a: set<nat>, b: set<nat>)
    ensures (calls - a) - b == calls - (a + b)
  {
  }

  // ---------------------------------------------------------------- disconnection, phase by phase

  ghost function CallsOf(calls: map<nat, Call>, connection: nat): set<nat> {
    set id | id in calls && calls[id].caller == connection
  }

  ghost function Depart(s: State, connection: nat): State {
    s.(connections := s.connections - {connection}, calls := Orphan(s.calls, CallsOf(s.calls, connection)))
  }

  /** What goes down with a worker, once its own calls are out of the way. */
  ghost function Sunk(s: State, worker: nat): set<nat>
    requires worker in s.workers
  {
    var route := s.workers[worker].route;
    OwnedBy(s.calls, worker) + if WorkersOn(s.workers, route) == {worker} then Queued(s.calls, route) else {}
  }

  ghost function Retire(s: State, worker: nat): State
    requires worker in s.workers
  {
    var route := s.workers[worker].route;
    var peers := WorkersOn(s.workers, route);
    s.(calls := s.calls - Sunk(s, worker), sent := Answer(s.sent, s.calls, Sunk(s, worker), UNAVAILABLE),
       workers := s.workers - {worker},
       limits := if peers == {worker} then s.limits - {route} else s.limits,
       waiters := Fire(s.waiters, peers))
  }

  lemma SunkIsLost(s: State, worker: nat)
    requires worker in s.workers
    ensures Sunk(Depart(s, worker), worker)
            == set id | id in Lost(s, worker) && !(s.calls[id].caller == worker && s.calls[id].owner.None?)
  {
  }

  lemma CallsInPhases(s: State, worker: nat)
    requires worker in s.workers
    ensures Scheduler.Disconnect(s, worker).calls == Depart(s, worker).calls - Sunk(Depart(s, worker), worker)
  {
    SunkIsLost(s, worker);
  }

  lemma SentInPhases(s: State, worker: nat)
    requires worker in s.workers
    ensures Answer(s.sent, s.calls, Bereaved(s, worker), UNAVAILABLE)
            == Answer(s.sent, Depart(s, worker).calls, Sunk(Depart(s, worker), worker), UNAVAILABLE)
  {
    SunkIsLost(s, worker);
    var t := Depart(s, worker);
    var sunk := Sunk(t, worker);
    forall id ensures id in Bereaved(s, worker) && s.calls[id].open <==> id in sunk && t.calls[id].open {
    }
  }

  lemma DisconnectInPhases(s: State, connection: nat)
    ensures Scheduler.Disconnect(s, connection)
            == if connection in s.workers then Retire(Depart(s, connection), connection) else Depart(s, connection)
  {
    if connection in s.workers {
      CallsInPhases(s, connection);
      SentInPhases(s, connection);
    } else {
      assert Bereaved(s, connection) == {};
      assert Scheduler.Disconnect(s, connection).calls == Depart(s, connection).calls;
      AnswerNone(s.sent, s.calls, UNAVAILABLE);
    }
  }

  /** Nobody registered runs any of these calls. */
  ghost predicate Unowned(ids: set<nat>, calls: map<nat, Call>, workers: map<nat, Registration>) {
    forall id :: id in ids ==> id in calls && (calls[id].owner.None? || calls[id].owner.value !in workers)
  }

  lemma UnownedOne(ids: set<nat>, calls: map<nat, Call>, workers: map<nat, Registration>, done: set<nat>, id: nat)
    requires Unowned(ids, calls, workers) && id in ids && id !in done
    ensures Unowned({id}, calls - done, workers) && id in calls
  {
  }

  // ---------------------------------------------------------------- the state behind the mutex

  class Broker {
    var connections: set<nat>
    var routes: map<string, Route>
    var workers: map<nat, Worker>
    var calls: map<nat, Call>
    var nextId: nat
    var retainedBytes: nat
    const maxCalls: nat
    const maxBytes: nat
    var sent: map<nat, Reply>
    var waiters: map<nat, Waiter>

    ghost function View(): State
      reads this
    {
      State(connections, Limits(routes), Registrations(workers), calls, nextId, sent, waiters, maxCalls, maxBytes)
    }

    /** Running counts and the byte total agree with the calls. */
    ghost predicate Counted()
      reads this
    {
      RunningMatches(workers, calls) && retainedBytes == Retained(calls)
    }

    ghost predicate Cached()
      reads this
    {
      Counted() && QueuesMatch(routes, calls) && MembersMatch(routes, workers)
    }

    ghost predicate Valid()
      reads this
    {
      Inv(View()) && Cached()
    }

    /** Registrations, memberships and notifications are those given. */
    ghost predicate Unmoved(routes0: map<string, Route>, workers0: map<nat, Worker>, waiters0: map<nat, Waiter>)
      reads this
    {
      SameMembers(routes, routes0) && Limits(routes) == Limits(routes0)
      && Registrations(workers) == Registrations(workers0) && waiters == waiters0
    }

    constructor (maxCalls: nat, maxBytes: nat)
      ensures Valid() && View() == Fresh(maxCalls, maxBytes)
    {
      this.maxCalls, this.maxBytes := maxCalls, maxBytes;
      connections, routes, workers, calls, nextId, retainedBytes := {}, map[], map[], map[], 1, 0;
      sent, waiters := map[], map[];
      new;
      FreshInv(maxCalls, maxBytes);
      assert View() == Fresh(maxCalls, maxBytes);
    }

    /** `State::remove`. */
    method Remove(id: nat)
      requires id in calls && Counted() && QueuesMatchBut(routes, calls, id)
      modifies this`calls, this`retainedBytes, this`workers, this`routes, this`waiters
      ensures calls == old(calls) - {id} && Counted() && QueuesMatch(routes, calls)
      ensures Unmoved(old(routes), old(workers),
                      match old(calls[id].owner)
                      case Some(w) => if w in old(workers) then Fire(old(waiters), {w}) else old(waiters)
                      case None => old(waiters))
    {
      hide QueuesMatch, QueuesMatchBut, RunningMatches, Retained, Retain, Registrations, Limits, Fire;
      RetainedRemove(calls, id);
      RunningAfterRemove(workers, calls, id);
      RetainMoves(routes, calls[id].route, id);
      var call := calls[id];
      calls := calls - {id};
      retainedBytes := retainedBytes - call.cost;
      match call.owner {
        case Some(owner) =>
          QueuesAfterFinish(routes, old(calls), id);
          if owner in workers {
            RunningOnly(workers, owner, workers[owner].running - 1);
            workers := workers[owner := workers[owner].(running := workers[owner].running - 1)];
            waiters := Fire(waiters, {owner});
          }
        case None =>
          QueuesAfterRemove(routes, old(calls), id);
          routes := Retain(routes, call.route, id);
      }
    }

    /** `State::expire`: answers once, and drops the call unless a worker is running it. */
    method ExpireCall(id: nat)
      requires Counted() && QueuesMatchBut(routes, calls, id)
      requires (id in calls && calls[id].owner.None?) || QueuesMatch(routes, calls)
      modifies this`calls, this`retainedBytes, this`workers, this`routes, this`waiters, this`sent
      ensures calls == Drop(old(calls), id)
      ensures sent == Answer(old(sent), old(calls), {id}, LATE)
      ensures Unmoved(old(routes), old(workers), old(waiters))
      ensures Counted() && QueuesMatch(routes, calls)
    {
      AnswerOne(sent, calls, id, LATE);
      if id !in calls {
        return;
      }
      var call := calls[id];
      if call.open {
        CachesAfterClose(routes, workers, calls, id);
        calls := calls[id := call.(open := false)];
        sent := sent[id := LATE];
      }
      if call.owner.None? {
        Remove(id);
        assert calls == old(calls) - {id};
      }
    }

    /** The loop of `expire_queued` over the ids it collected. */
    method ExpireAll(ids: seq<nat>, route: string)
      requires Counted() && QueuesMatch(routes, calls) && Distinct(ids)
      requires Elements(ids) <= Queued(calls, route)
      modifies this`calls, this`retainedBytes, this`workers, this`routes, this`waiters, this`sent
      ensures calls == old(calls) - Elements(ids)
      ensures sent == Answer(old(sent), old(calls), Elements(ids), LATE)
      ensures Unmoved(old(routes), old(workers), old(waiters))
      ensures Counted() && QueuesMatch(routes, calls)
    {
      hide QueuesMatch, RunningMatches, Retained, Answer, Queued, Limits, Registrations;
      ghost var done := {};
      InQueue(Elements(ids), calls, route);
      AnswerNone(sent, calls, LATE);
      for i := 0 to |ids|
        invariant done == Elements(ids[..i])
        invariant calls == old(calls) - done && sent == Answer(old(sent), old(calls), done, LATE)
        invariant Unmoved(old(routes), old(workers), old(waiters))
        invariant Counted() && QueuesMatch(routes, calls)
      {
        var id := ids[i];
        assert id !in done && id in Elements(ids);
        AnswerNext(old(sent), old(calls), done, id, LATE);
        AllQueues(routes, calls, id);
        ExpireCall(id);
        assert Elements(ids[..i + 1]) == done + {id};
        done := done + {id};
      }
      assert ids[..|ids|] == ids;
    }

    /** `State::expire_queued`. */
    method ExpireRoute(route: string, now: int)
      requires Counted() && QueuesMatch(routes, calls)
      requires route !in routes ==> Queued(calls, route) == {}
      modifies this`calls, this`retainedBytes, this`workers, this`routes, this`waiters, this`sent
      ensures calls == old(calls) - Overdue(old(calls), route, now)
      ensures sent == Answer(old(sent), old(calls), Overdue(old(calls), route, now), LATE)
      ensures Unmoved(old(routes), old(workers), old(waiters))
      ensures Counted() && QueuesMatch(routes, calls)
    {
      var expired := OverdueOn(routes, calls, route, now);
      OverdueOnExact(routes, calls, route, now);
      ExpireAll(expired, route);
    }

    /** `State::notify_route`. */
    method NotifyRoute(name: string)
      requires MembersMatch(routes, workers)
      modifies this`waiters
      ensures waiters == Fire(old(waiters), WorkersOn(Registrations(workers), name)) || name !in routes
      ensures name !in routes ==> waiters == old(waiters)
    {
      if name in routes {
        var members := routes[name].workers;
        FireNobody(waiters);
        for i := 0 to |members|
          invariant waiters == Fire(old(waiters), Elements(members[..i]))
        {
          assert members[i] in Elements(members);
          assert members[..i + 1] == members[..i] + [members[i]];
          assert Elements(members[..i + 1]) == Elements(members[..i]) + {members[i]};
          FireTwice(old(waiters), Elements(members[..i]), {members[i]});
          if members[i] in workers {
            waiters := Fire(waiters, {members[i]});
          }
        }
        assert members[..|members|] == members;
      }
    }

    method Connected(connection: nat)
      requires Valid()
      requires forall t :: t in waiters ==> waiters[t].worker != connection
      modifies this`connections
      ensures Valid() && View() == Connect(old(View()), connection)
    {
      ConnectInv(View(), connection);
      connections := connections + {connection};
      assert View() == Connect(old(View()), connection);
    }

    method Request(caller: nat, route: string, timeoutMs: nat, payload: seq<byte>, now1: int, now2: int)
      returns (admission: Admission)
      requires Valid()
      modifies this
      ensures Valid()
              && (View(), admission) == Scheduler.Request(old(View()), caller, route, timeoutMs, payload, now1, now2)
      ensures admission.Accepted? <==>
                && caller in old(connections) && Served(old(View()), route)
                && RoomFor(old(View()), route, payload, now1)
    {
      RequestInv(View(), caller, route, timeoutMs, payload, now1, now2);
      RequestDecides(View(), caller, route, timeoutMs, payload, now1, now2);
      admission := RequestSection(caller, route, timeoutMs, payload, now1, now2);
    }

    method RequestSection(caller: nat, route: string, timeoutMs: nat, payload: seq<byte>, now1: int, now2: int)
      returns (admission: Admission)
      requires Cached() && forall k :: k in calls ==> k < nextId
      modifies this
      ensures Cached()
              && (View(), admission) == Scheduler.Request(old(View()), caller, route, timeoutMs, payload, now1, now2)
    {
      if caller !in connections {
        return Rejected(SERVICE_UNAVAILABLE);
      }
      if route !in routes {
        return Rejected(NO_SERVICE);
      }
      ExpireRoute(route, now1);
      MembersStay(routes, workers, old(routes), old(workers));
      assert View() == ExpireQueued(old(View()), route, now1);
      admission := AdmitOrRefuse(caller, route, timeoutMs, payload, now2);
    }

    /** After the clean-up: the budgets, then the id, then the bookkeeping. */
    method AdmitOrRefuse(caller: nat, route: string, timeoutMs: nat, payload: seq<byte>, now2: int)
      returns (admission: Admission)
      requires Cached() && route in routes && forall k :: k in calls ==> k < nextId
      modifies this
      ensures Cached()
              && (View(), admission) == Scheduler.AdmitOrRefuse(old(View()), caller, route, timeoutMs, payload, now2)
    {
      hide QueuesMatch, MembersMatch, RunningMatches, Queued, Retained, Registrations, Fire, WorkersOn;
      var cost := Cost(route, payload);
      QueueLength(routes, calls, route);
      var room := if retainedBytes <= maxBytes then maxBytes - retainedBytes else 0;
      if |routes[route].queue| >= routes[route].queueLimit || |calls| >= maxCalls || cost > room {
        return Rejected(OVERLOADED);
      }
      var id := nextId;
      if nextId == MAX_U64 {
        return Rejected(OVERLOADED);
      }
      nextId := nextId + 1;
      var deadline := now2 + timeoutMs * NANOS_PER_MS;
      Admit(id, Call(caller, route, None, deadline, payload, true, cost));
      return Accepted(id, deadline);
    }

    /** The bookkeeping of an accepted request. */
    method Admit(id: nat, call: Call)
      requires Counted() && QueuesMatch(routes, calls) && MembersMatch(routes, workers)
      requires call.owner.None? && call.route in routes && forall k :: k in calls ==> k < id
      modifies this`calls, this`routes, this`retainedBytes, this`waiters
      ensures calls == old(calls)[id := call] && Limits(routes) == Limits(old(routes))
      ensures waiters == Fire(old(waiters), WorkersOn(Registrations(workers), call.route))
      ensures Counted() && QueuesMatch(routes, calls) && MembersMatch(routes, workers)
    {
      QueuesAfterPush(routes, calls, id, call);
      CountsAfterPush(workers, calls, id, call);
      calls := calls[id := call];
      routes := PushBack(routes, call.route, id);
      retainedBytes := retainedBytes + call.cost;
      NotifyRoute(call.route);
    }

    /** One lock section of `try_take`. */
    method TryTakeSection(worker: nat, now1: int, now2: int) returns (attempt: Attempt)
      requires Cached() && (worker in workers ==> workers[worker].route in routes)
      modifies this
      ensures Cached() && (View(), attempt) == Scheduler.TryTake(old(View()), worker, now1, now2)
    {
      if worker !in workers {
        return Refused(UNAUTHORIZED);
      }
      if workers[worker].running >= workers[worker].concurrency {
        return Idle;
      }
      var route := workers[worker].route;
      ExpireRoute(route, now1);
      MembersStay(routes, workers, old(routes), old(workers));
      assert View() == ExpireQueued(old(View()), route, now1);
      attempt := TakeHead(worker, route, now2);
    }

    method ExpirePopped(id: nat)
      requires Counted() && QueuesMatchBut(routes, calls, id) && MembersMatch(routes, workers)
      requires id in calls && calls[id].owner.None?
      modifies this`calls, this`retainedBytes, this`workers, this`routes, this`waiters, this`sent
      ensures Cached()
      ensures View() == old(View()).(calls := old(calls) - {id}, sent := Answer(old(sent), old(calls), {id}, LATE))
    {
      ExpireCall(id);
      MembersStay(routes, workers, old(routes), old(workers));
    }

    method Dispatch(worker: nat, id: nat)
      requires Counted() && MembersMatch(routes, workers) && worker in workers && id in calls && calls[id].owner.None?
      modifies this`calls, this`workers
      ensures Counted() && MembersMatch(routes, workers)
      ensures View() == old(View()).(calls := old(calls)[id := old(calls)[id].(owner := Some(worker))])
    {
      hide MembersMatch, RunningMatches, Retained, Registrations, Limits;
      CountsAfterAssign(workers, calls, id, worker);
      RunningOnly(workers, worker, workers[worker].running + 1);
      SameRoutes(routes);
      calls := calls[id := calls[id].(owner := Some(worker))];
      workers := workers[worker := workers[worker].(running := workers[worker].running + 1)];
      MembersStay(routes, workers, routes, old(workers));
    }

    /** The rest of the section: the head of the queue is dispatched, or dropped if its time just came. */
    method TakeHead(worker: nat, route: string, now: int) returns (attempt: Attempt)
      requires Cached() && worker in workers && route in routes
      modifies this
      ensures Cached() && (View(), attempt) == Scheduler.TakeHead(old(View()), worker, route, now)
    {
      hide QueuesMatchBut, MembersMatch, RunningMatches, Retained, Registrations, Limits, Least, SameMembers;
      var queue := routes[route].queue;
      QueueAt(routes, calls, route);
      hide QueuesMatch, Queued;
      if queue == [] {
        EmptyQueue(queue, Queued(calls, route));
        return Idle;
      }
      var id := queue[0];
      HeadIsLeast(queue, Queued(calls, route));
      QueuesAfterPop(routes, calls, route, worker);
      routes := PopFront(routes, route);
      var call := calls[id];
      MembersStay(routes, workers, old(routes), old(workers));
      if call.deadline <= now {
        ExpirePopped(id);
        return Retry;
      }
      Dispatch(worker, id);
      attempt := Taken(Job(id, Clamp(CeilMs(call.deadline - now), 1, 30_000), call.payload));
    }

    /** `try_take`: sections until one decides.  `clock(k)` is what the clock shows in the k-th of them. */
    method TryTake(worker: nat, clock: nat -> (int, int)) returns (attempt: Attempt)
      requires Valid()
      modifies this
      ensures Valid() && !attempt.Retry?
      ensures exists k :: Decided(old(View()), worker, clock, k, View(), attempt)
    {
      ghost var s := View();
      var k: nat := 0;
      attempt := Retry;
      while attempt.Retry?
        invariant Valid()
        invariant attempt.Retry? ==> Retried(s, worker, clock, k) && View() == AfterRetries(s, worker, clock, k)
        invariant !attempt.Retry? ==> k > 0 && Decided(s, worker, clock, k - 1, View(), attempt)
        decreases attempt.Retry?, calls.Keys
      {
        ghost var t := View();
        TryTakeInv(t, worker, clock(k).0, clock(k).1);
        RetryShrinks(t, worker, clock(k).0, clock(k).1);
        WorkersRouted(t, worker);
        attempt := TryTakeSection(worker, clock(k).0, clock(k).1);
        k := k + 1;
      }
    }

    method Complete(worker: nat, id: nat, failed: bool, payload: seq<byte>, now: int) returns (refusal: Option<nat>)
      requires Valid()
      modifies this
      ensures Valid() && (View(), refusal) == Scheduler.Complete(old(View()), worker, id, failed, payload, now)
      ensures refusal.None? <==> id in old(calls) && old(calls)[id].owner == Some(worker)
      ensures refusal.None? && old(calls)[id].open ==>
                id in sent && Conveys(sent[id], old(calls)[id], failed, payload, now)
    {
      CompleteInv(View(), worker, id, failed, payload, now);
      CompleteDoes(View(), worker, id, failed, payload, now);
      refusal := CompleteSection(worker, id, failed, payload, now);
    }

    method CompleteSection(worker: nat, id: nat, failed: bool, payload: seq<byte>, now: int)
      returns (refusal: Option<nat>)
      requires Cached()
      modifies this
      ensures Cached() && (View(), refusal) == Scheduler.Complete(old(View()), worker, id, failed, payload, now)
    {
      if worker !in workers {
        return Some(UNAUTHORIZED);
      }
      if id !in calls {
        return Some(INVALID);
      }
      var call := calls[id];
      if call.owner != Some(worker) {
        return Some(UNAUTHORIZED);
      }
      AnswerOne(sent, calls, id, Outcome(call, failed, payload, now));
      Remove(id);
      MembersStay(routes, workers, old(routes), old(workers));
      if call.open {
        sent := sent[id := Outcome(call, failed, payload, now)];
      }
      refusal := None;
    }

    method Expire(id: nat)
      requires Valid()
      modifies this
      ensures Valid() && View() == Scheduler.Expire(old(View()), id)
    {
      ExpireInv(View(), id);
      ExpireSection(id);
    }

    method ExpireSection(id: nat)
      requires Cached()
      modifies this
      ensures Cached() && View() == Scheduler.Expire(old(View()), id)
    {
      ExpireCall(id);
      MembersStay(routes, workers, old(routes), old(workers));
    }

    method Cancel(id: nat)
      requires Valid()
      modifies this
      ensures Valid() && View() == Scheduler.Cancel(old(View()), id)
      ensures id in calls ==> !calls[id].open && old(calls)[id].owner.Some?
      ensures id in old(calls) && old(calls)[id].owner.None? ==>
                retainedBytes == old(retainedBytes) - old(calls)[id].cost
    {
      CancelInv(View(), id);
      CancelDoes(View(), id);
      CancelSection(id);
    }

    method CancelSection(id: nat)
      requires Cached()
      modifies this
      ensures Cached() && View() == Scheduler.Cancel(old(View()), id)
    {
      if id in calls {
        DropCall(id);
        MembersStay(routes, workers, old(routes), old(workers));
      }
    }

    /** The channel is dropped, and the call too unless a worker is running it. */
    method DropCall(id: nat)
      requires Counted() && QueuesMatch(routes, calls) && id in calls
      modifies this`calls, this`retainedBytes, this`workers, this`routes, this`waiters
      ensures calls == Drop(old(calls), id)
      ensures Unmoved(old(routes), old(workers), old(waiters))
      ensures Counted() && QueuesMatch(routes, calls)
    {
      CachesAfterClose(routes, workers, calls, id);
      calls := calls[id := calls[id].(open := false)];
      if calls[id].owner.None? {
        Remove(id);
        assert calls == old(calls) - {id};
      }
    }

    method Register(worker: nat, name: string, concurrency: nat, queueLimit: nat) returns (refusal: Option<nat>)
      requires Valid()
      modifies this
      ensures Valid() && (View(), refusal) == Scheduler.Register(old(View()), worker, name, concurrency, queueLimit)
    {
      ghost var s := View();
      RegisterInv(s, worker, name, concurrency, queueLimit);
      NobodyYet(s, worker, name);
      refusal := RegisterSection(worker, name, concurrency, queueLimit);
    }

    method RegisterSection(worker: nat, name: string, concurrency: nat, queueLimit: nat) returns (refusal: Option<nat>)
      requires Cached()
      requires name !in routes ==> WorkersOn(Registrations(workers), name) == {} && Queued(calls, name) == {}
      requires worker !in workers ==> OwnedBy(calls, worker) == {}
      modifies this
      ensures Cached() && (View(), refusal) == Scheduler.Register(old(View()), worker, name, concurrency, queueLimit)
    {
      if worker !in connections {
        return Some(SERVICE_UNAVAILABLE);
      }
      if worker in workers {
        return Some(INVALID);
      }
      if name in routes && routes[name].queueLimit != queueLimit {
        return Some(INVALID);
      }
      var entry := Worker(name, concurrency, 0, 0);
      MembersAfterEnrol(routes, workers, name, worker, entry, queueLimit);
      LimitsAfterEnrol(routes, name, worker, queueLimit);
      RegistrationsUpdate(workers, worker, entry);
      routes := Enrol(routes, name, worker, queueLimit);
      workers := workers[worker := entry];
      assert Limits(routes) == Limits(old(routes))[name := queueLimit];
      refusal := None;
    }

    /** The first section of `take`: the waiter is counted, within the worker's concurrency. */
    method BeginTake(worker: nat, take: nat) returns (refusal: Option<nat>)
      requires Valid() && take !in waiters
      modifies this`workers, this`waiters
      ensures Valid() && (View(), refusal) == Scheduler.BeginTake(old(View()), worker, take)
    {
      BeginTakeInv(View(), worker, take);
      refusal := BeginTakeSection(worker, take);
    }

    method BeginTakeSection(worker: nat, take: nat) returns (refusal: Option<nat>)
      requires Cached()
      modifies this`workers, this`waiters
      ensures Cached() && (View(), refusal) == Scheduler.BeginTake(old(View()), worker, take)
    {
      if worker !in workers {
        return Some(UNAUTHORIZED);
      }
      if workers[worker].pendingTakes >= workers[worker].concurrency {
        return Some(OVERLOADED);
      }
      var entry := workers[worker].(pendingTakes := workers[worker].pendingTakes + 1);
      RegistrationsUpdate(workers, worker, entry);
      workers := workers[worker := entry];
      waiters := waiters[take := Waiter(worker, Started, false)];
      SameWorkersOn(Registrations(workers), Registrations(old(workers)));
      refusal := None;
    }

    /** `notified()` and `enable()`, outside the lock. */
    method Listen(take: nat)
      requires Valid()
      modifies this`waiters
      ensures Valid() && View() == Scheduler.Listen(old(View()), take)
    {
      ListenInv(View(), take);
      if take in waiters {
        waiters := waiters[take := waiters[take].(phase := Listening, fired := false)];
      }
      assert View() == Scheduler.Listen(old(View()), take);
    }

    /** One turn of the loop of `take`: a section of `try_take`, then park or return. */
    method Poll(take: nat, now1: int, now2: int) returns (attempt: Attempt)
      requires Valid()
      modifies this
      ensures Valid() && (View(), attempt) == Scheduler.Poll(old(View()), take, now1, now2)
    {
      PollInv(View(), take, now1, now2);
      if take in waiters {
        WorkersRouted(View(), waiters[take].worker);
      }
      attempt := PollSection(take, now1, now2);
    }

    method PollSection(take: nat, now1: int, now2: int) returns (attempt: Attempt)
      requires Cached()
      requires take in waiters && waiters[take].worker in workers ==> workers[waiters[take].worker].route in routes
      modifies this
      ensures Cached() && (View(), attempt) == Scheduler.Poll(old(View()), take, now1, now2)
    {
      if take !in waiters {
        return Idle;
      }
      TryTakeKeepsWaiters(View(), waiters[take].worker, now1, now2);
      attempt := TryTakeSection(waiters[take].worker, now1, now2);
      var phase := match attempt
                   case Idle => Parked
                   case Retry => Listening
                   case _ => Returned;
      waiters := waiters[take := waiters[take].(phase := phase)];
    }

    /** `TakeGuard::drop`. */
    method EndTake(take: nat)
      requires Valid()
      modifies this`workers, this`waiters
      ensures Valid() && View() == Scheduler.EndTake(old(View()), take)
    {
      EndTakeInv(View(), take);
      EndTakeSection(take);
    }

    method EndTakeSection(take: nat)
      requires Cached()
      modifies this`workers, this`waiters
      ensures Cached() && View() == Scheduler.EndTake(old(View()), take)
    {
      if take in waiters {
        var worker := waiters[take].worker;
        waiters := waiters - {take};
        if worker in workers {
          var pending := workers[worker].pendingTakes;
          var entry := workers[worker].(pendingTakes := if pending == 0 then 0 else pending - 1);
          RegistrationsUpdate(workers, worker, entry);
          workers := workers[worker := entry];
          SameWorkersOn(Registrations(workers), Registrations(old(workers)));
        }
      }
    }

    method Disconnect(connection: nat)
      requires Valid()
      modifies this
      ensures Valid() && View() == Scheduler.Disconnect(old(View()), connection)
    {
      DisconnectInv(View(), connection);
      DisconnectInPhases(View(), connection);
      WorkersRouted(View(), connection);
      DisconnectSection(connection);
    }

    method DisconnectSection(connection: nat)
      requires Cached() && (connection in workers ==> workers[connection].route in routes)
      modifies this
      ensures Cached()
      ensures View() == if connection in old(View()).workers then Retire(Depart(old(View()), connection), connection)
                        else Depart(old(View()), connection)
    {
      connections := connections - {connection};
      OrphanCalls(connection);
      MembersStay(routes, workers, old(routes), old(workers));
      assert View() == Depart(old(View()), connection);
      if connection in workers {
        RetireWorker(connection);
      }
    }

    /** The first loop: the calls this connection made, in whatever order the table lists them. */
    method OrphanCalls(connection: nat)
      requires Counted() && QueuesMatch(routes, calls)
      modifies this`calls, this`retainedBytes, this`workers, this`routes, this`waiters
      ensures calls == Orphan(old(calls), CallsOf(old(calls), connection))
      ensures Unmoved(old(routes), old(workers), old(waiters))
      ensures Counted() && QueuesMatch(routes, calls)
    {
      var todo := set id | id in calls && calls[id].caller == connection;
      ghost var done := {};
      OrphanNone(calls);
      while todo != {}
        invariant done + todo == CallsOf(old(calls), connection) && done !! todo
        invariant calls == Orphan(old(calls), done)
        invariant Unmoved(old(routes), old(workers), old(waiters))
        invariant Counted() && QueuesMatch(routes, calls)
      {
        var id :| id in todo;
        OrphanNext(old(calls), done, id);
        DropCall(id);
        todo, done := todo - {id}, done + {id};
      }
      assert done == CallsOf(old(calls), connection);
    }

    /** The other two loops: these calls leave, and whoever still waits for them is told. */
    method FailCalls(ids: set<nat>)
      requires Counted() && QueuesMatch(routes, calls) && Unowned(ids, calls, Registrations(workers))
      modifies this`calls, this`retainedBytes, this`workers, this`routes, this`waiters, this`sent
      ensures calls == old(calls) - ids && sent == Answer(old(sent), old(calls), ids, UNAVAILABLE)
      ensures Unmoved(old(routes), old(workers), old(waiters))
      ensures Counted() && QueuesMatch(routes, calls)
    {
      hide QueuesMatch, RunningMatches, Retained, Answer, Registrations, Limits;
      var todo := ids;
      AnswerNone(sent, calls, UNAVAILABLE);
      assert ids - todo == {};
      while todo != {}
        invariant todo <= ids
        invariant calls == old(calls) - (ids - todo) && sent == Answer(old(sent), old(calls), ids - todo, UNAVAILABLE)
        invariant Unmoved(old(routes), old(workers), old(waiters))
        invariant Counted() && QueuesMatch(routes, calls)
      {
        var id :| id in todo;
        AnswerNext(old(sent), old(calls), ids - todo, id, UNAVAILABLE);
        UnownedOne(ids, old(calls), Registrations(old(workers)), ids - todo, id);
        assert (ids - todo) + {id} == ids - (todo - {id});
        FailCall(id);
        todo := todo - {id};
      }
      assert ids - todo == ids;
    }

    method FailCall(id: nat)
      requires Counted() && QueuesMatch(routes, calls) && Unowned({id}, calls, Registrations(workers))
      modifies this`calls, this`retainedBytes, this`workers, this`routes, this`waiters, this`sent
      ensures calls == old(calls) - {id} && sent == Answer(old(sent), old(calls), {id}, UNAVAILABLE)
      ensures Unmoved(old(routes), old(workers), old(waiters))
      ensures Counted() && QueuesMatch(routes, calls)
    {
      var call := calls[id];
      AnswerOne(sent, calls, id, UNAVAILABLE);
      Remove(id);
      if call.open {
        sent := sent[id := UNAVAILABLE];
      }
    }

    /** The worker half of `disconnect`.  Its table entries go one after the other; in between, running
        calls have an owner nobody knows and queued ones a route that no longer exists. */
    method RetireWorker(connection: nat)
      requires Cached() && connection in workers && workers[connection].route in routes
      modifies this`calls, this`retainedBytes, this`workers, this`routes, this`waiters, this`sent
      ensures Cached() && View() == Retire(old(View()), connection)
    {
      hide QueuesMatch, RunningMatches, MembersMatch, Retained, Answer, Fire, Limits, Registrations;
      RouteOf(workers, connection);
      var name := workers[connection].route;
      RetireAdds(View(), connection, OwnedBy(calls, connection));
      SinkOwned(connection);
      LeaveRoute(name, connection);
    }

    /** The worker is struck off and the calls it was running fail. */
    method SinkOwned(connection: nat)
      requires Cached() && connection in workers && workers[connection].route in routes
      modifies this`calls, this`retainedBytes, this`workers, this`routes, this`waiters, this`sent
      ensures Counted() && QueuesMatch(routes, calls)
      ensures var name := old(workers[connection].route);
              name in routes
              && MembersMatch(routes[name := routes[name].(workers := Without(routes[name].workers, connection))],
                              workers)
      ensures Registrations(workers) == old(View()).workers - {connection} && Limits(routes) == old(View()).limits
      ensures waiters == Fire(old(waiters), {connection})
      ensures var owned := OwnedBy(old(calls), connection);
              calls == old(calls) - owned && sent == Answer(old(sent), old(calls), owned, UNAVAILABLE)
    {
      RegistrationsWithout(workers, connection);
      workers := workers - {connection};
      waiters := Fire(waiters, {connection});
      FailCalls(OwnedBy(calls, connection));
      MembersAfterRetireKept(routes, workers, old(routes), old(workers), connection);
    }

    /** The route loses this member, and goes away with the last one. */
    method LeaveRoute(name: string, connection: nat)
      requires Counted() && QueuesMatch(routes, calls) && name in routes
      requires MembersMatch(routes[name := routes[name].(workers := Without(routes[name].workers, connection))],
                            workers)
      modifies this`calls, this`retainedBytes, this`workers, this`routes, this`waiters, this`sent
      ensures Cached() && Registrations(workers) == Registrations(old(workers))
      ensures var peers := WorkersOn(Registrations(old(workers)), name);
              && (peers != {} ==> calls == old(calls) && sent == old(sent) && Limits(routes) == Limits(old(routes))
                                  && waiters == Fire(old(waiters), peers))
              && (peers == {} ==> calls == old(calls) - Queued(old(calls), name)
                                  && sent == Answer(old(sent), old(calls), Queued(old(calls), name), UNAVAILABLE)
                                  && Limits(routes) == Limits(old(routes)) - {name} && waiters == old(waiters))
    {
      var members := Without(routes[name].workers, connection);
      routes := routes[name := routes[name].(workers := members)];
      assert Limits(routes) == Limits(old(routes));
      EmptyRoute(members);
      if members == [] {
        CloseRoute(name);
      } else {
        NotifyRoute(name);
      }
    }

    method CloseRoute(name: string)
      requires Cached() && name in routes
      modifies this`calls, this`retainedBytes, this`workers, this`routes, this`waiters, this`sent
      ensures Cached() && Registrations(workers) == Registrations(old(workers))
      ensures calls == old(calls) - Queued(old(calls), name)
      ensures sent == Answer(old(sent), old(calls), Queued(old(calls), name), UNAVAILABLE)
      ensures Limits(routes) == Limits(old(routes)) - {name} && waiters == old(waiters)
    {
      var queue := routes[name].queue;
      LimitsWithout(routes, name);
      routes := routes - {name};
      assert (set id | id in queue) == Elements(queue);
      FailCalls(set id | id in queue);
      MembersStay(routes, workers, old(routes) - {name}, old(workers));
    }
  }

  lemma RouteOf(workers: map<nat, Worker>, worker: nat)
    requires worker in workers
    ensures worker in Registrations(workers) && Registrations(workers)[worker].route == workers[worker].route
  {
  }

  lemma LimitsWithout(routes: map<string, Route>, name: string)
    ensures Limits(routes - {name}) == Limits(routes) - {name}
  {
  }

  lemma EmptyRoute(members: seq<nat>)
    ensures members == [] <==> Elements(members) == {}
  {
    if members != [] {
      assert members[0] in Elements(members);
    }
  }

  lemma RegistrationsWithout(workers: map<nat, Worker>, worker: nat)
    ensures Registrations(workers - {worker}) == Registrations(workers) - {worker}
  {
    assert Registrations(workers - {worker}).Keys == Registrations(workers).Keys - {worker};
  }

  lemma MembersAfterRetireKept(routes: map<string, Route>, workers: map<nat, Worker>,
                               routes0: map<string, Route>, workers0: map<nat, Worker>, worker: nat)
    requires MembersMatch(routes0, workers0) && worker in workers0 && workers0[worker].route in routes0
    requires SameMembers(routes, routes0) && Registrations(workers) == Registrations(workers0) - {worker}
    ensures var name := workers0[worker].route;
            MembersMatch(routes[name := routes[name].(workers := Without(routes[name].workers, worker))], workers)
  {
    var name := workers0[worker].route;
    MembersAfterRetire(routes0, workers0, worker);
    RegistrationsWithout(workers0, worker);
    var after := routes[name := routes[name].(workers := Without(routes[name].workers, worker))];
    var after0 := routes0[name := routes0[name].(workers := Without(routes0[name].workers, worker))];
    forall r | r in after
      ensures Distinct(after[r].workers) && Elements(after[r].workers) == WorkersOn(Registrations(workers), r)
    {
      assert r in after0 && after[r].workers == after0[r].workers;
    }
  }

  /** The pieces of a retirement add up to it. */
  lemma RetireAdds(s: State, worker: nat, owned: set<nat>)
    requires worker in s.workers && owned == OwnedBy(s.calls, worker)
    ensures var route := s.workers[worker].route;
            var rest := s.calls - owned;
            var sent := Answer(s.sent, s.calls, owned, UNAVAILABLE);
            var peers := WorkersOn(s.workers, route);
            && WorkersOn(s.workers - {worker}, route) == peers - {worker}
            && Fire(Fire(s.waiters, {worker}), peers - {worker}) == Fire(s.waiters, peers)
            && (peers - {worker} == {} <==> peers == {worker})
            && (peers == {worker} ==>
                  Retire(s, worker).calls == rest - Queued(rest, route)
                  && Retire(s, worker).sent == Answer(sent, rest, Queued(rest, route), UNAVAILABLE))
            && (peers != {worker} ==> Retire(s, worker).calls == rest && Retire(s, worker).sent == sent)
  {
    var route := s.workers[worker].route;
    var peers := WorkersOn(s.workers, route);
    assert worker in peers;
    FireTwice(s.waiters, {worker}, peers - {worker});
    assert {worker} + (peers - {worker}) == peers;
    var rest := s.calls - owned;
    assert Queued(rest, route) == Queued(s.calls, route);
    AnswerUnion(s.sent, s.calls, owned, Queued(rest, route), UNAVAILABLE);
    TakenTogether(s.calls, owned, Queued(rest, route));
    if peers != {worker} {
      assert owned + {} == owned;
    }
  }

  lemma TryTakeKeepsWaiters(s: State, worker: nat, now1: int, now2: int)
    ensures Scheduler.TryTake(s, worker, now1, now2).0.waiters == s.waiters
  {
  }

  lemma SameWorkersOn(after: map<nat, Registration>, before: map<nat, Registration>)
    requires after.Keys == before.Keys
    requires forall w :: w in before ==> after[w].route == before[w].route
    ensures forall r :: WorkersOn(after, r) == WorkersOn(before, r)
  {
  }

  lemma NobodyYet(s: State, worker: nat, name: string)
    requires CallsPlaced(s) && RoutesServed(s)
    ensures name !in s.limits ==> WorkersOn(s.workers, name) == {} && Queued(s.calls, name) == {}
    ensures worker !in s.workers ==> OwnedBy(s.calls, worker) == {}
  {
  }

  ghost function AfterRetries(s: State, worker: nat, clock: nat -> (int, int), k: nat): State {
    if k == 0 then s
    else
      Scheduler.TryTake(AfterRetries(s, worker, clock, k - 1), worker, clock(k - 1).0, clock(k - 1).1).0
  }

  ghost predicate Retried(s: State, worker: nat, clock: nat -> (int, int), k: nat) {
    forall i: nat ::
      i < k ==> Scheduler.TryTake(AfterRetries(s, worker, clock, i), worker, clock(i).0, clock(i).1).1.Retry?
  }

  /** The k-th section was the first not to retry, and this is what it did. */
  ghost predicate Decided(s: State, worker: nat, clock: nat -> (int, int), k: nat, t: State, attempt: Attempt) {
    Retried(s, worker, clock, k)
    && (t, attempt) == Scheduler.TryTake(AfterRetries(s, worker, clock, k), worker, clock(k).0, clock(k).1)
  }

  lemma WorkersRouted(s: State, worker: nat)
    requires RoutesServed(s)
    ensures worker in s.workers ==> s.workers[worker].route in s.limits
  {
    if worker in s.workers {
      assert worker in WorkersOn(s.workers, s.workers[worker].route);
    }
  }

  function OverdueOn(routes: map<string, Route>, calls: map<nat, Call>, route: string, now: int): seq<nat> {
    if route in routes then OverdueIn(routes[route].queue, calls, now) else []
  }

  lemma OverdueOnExact(routes: map<string, Route>, calls: map<nat, Call>, route: string, now: int)
    requires QueuesMatch(routes, calls)
    requires route !in routes ==> Queued(calls, route) == {}
    ensures Distinct(OverdueOn(routes, calls, route, now))
    ensures Elements(OverdueOn(routes, calls, route, now)) == Overdue(calls, route, now)
    ensures Overdue(calls, route, now) <= Queued(calls, route)
  {
    if route in routes {
      OverdueInDistinct(routes[route].queue, calls, now);
    }
  }
}
