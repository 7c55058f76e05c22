/**
 The RPC scheduler as a machine over values: what each lock section of the broker does to the
 calls, the registrations, the reply channels and the parked TAKE waiters.  Everything the
 implementation caches (route queues, running counts, retained bytes) is absent here and read
 off the calls instead, so that the class in `Rpc` has something simple to refine.
 */
module Scheduler {
  import opened Basics
  import opened Codes

  /** Instants are nanoseconds. */
  const NANOS_PER_MS := 1_000_000

  datatype Reply = Success(payload: seq<byte>) | Failure(code: nat, message: seq<byte>)

  /** `open` says that the response channel has not been used or dropped yet. */
  datatype Call = Call(caller: nat, route: string, owner: Option<nat>, deadline: int,
                       payload: seq<byte>, open: bool, cost: nat)

  datatype Registration = Registration(route: string, concurrency: nat, takes: nat)

  /** One `take` future: started, listening to its worker's notification, parked, or returned. */
  datatype Phase = Started | Listening | Parked | Returned

  datatype Waiter = Waiter(worker: nat, phase: Phase, fired: bool)

  datatype Job = Job(callId: nat, remainingMs: nat, payload: seq<byte>)

  datatype State = State(connections: set<nat>, limits: map<string, nat>, workers: map<nat, Registration>,
                         calls: map<nat, Call>, nextId: nat, sent: map<nat, Reply>, waiters: map<nat, Waiter>,
                         maxCalls: nat, maxBytes: nat)

  datatype Admission = Accepted(id: nat, deadline: int) | Rejected(code: nat)

  datatype Attempt = Refused(code: nat) | Idle | Retry | Taken(job: Job)

  function Fresh(maxCalls: nat, maxBytes: nat): State {
    State({}, map[], map[], map[], 1, map[], map[], maxCalls, maxBytes)
  }

  // ---------------------------------------------------------------- what is read off the calls

  function Queued(calls: map<nat, Call>, route: string): set<nat> {
    set id | id in calls && calls[id].owner.None? && calls[id].route == route
  }

  function OwnedBy(calls: map<nat, Call>, worker: nat): set<nat> {
    set id | id in calls && calls[id].owner == Some(worker)
  }

  ghost function Retained(calls: map<nat, Call>): nat
    decreases |calls|
  {
    if calls == map[] then 0
    else
      var id :| id in calls;
      calls[id].cost + Retained(calls - {id})
  }

  function WorkersOn(workers: map<nat, Registration>, route: string): set<nat> {
    set w | w in workers && workers[w].route == route
  }

  function TakesOf(waiters: map<nat, Waiter>, worker: nat): set<nat> {
    set t | t in waiters && waiters[t].worker == worker
  }

  /** Shared input frame, decoded route, growth and channel: `512 + 2 * route + payload`. */
  function Cost(route: string, payload: seq<byte>): nat {
    512 + 2 * |route| + |payload|
  }

  // ---------------------------------------------------------------- building blocks of the steps

  /** `notify_waiters` on the given workers: wakes exactly the futures already enabled. */
  function Fire(waiters: map<nat, Waiter>, workers: set<nat>): map<nat, Waiter> {
    map t | t in waiters ::
      if waiters[t].worker in workers && (waiters[t].phase.Listening? || waiters[t].phase.Parked?)
      then waiters[t].(fired := true) else waiters[t]
  }

  /** The reply goes out on every channel of `ids` that is still open. */
  function Answer(sent: map<nat, Reply>, calls: map<nat, Call>, ids: set<nat>, reply: Reply): map<nat, Reply> {
    sent + map id | id in ids && id in calls && calls[id].open :: reply
  }

  function Overdue(calls: map<nat, Call>, route: string, now: int): set<nat> {
    set id | id in Queued(calls, route) && calls[id].deadline <= now
  }

  const LATE := Failure(DEADLINE_EXCEEDED, [])
  const UNAVAILABLE := Failure(SERVICE_UNAVAILABLE, [])

  function ExpireQueued(s: State, route: string, now: int): State {
    var late := Overdue(s.calls, route, now);
    s.(calls := s.calls - late, sent := Answer(s.sent, s.calls, late, LATE))
  }

  function CeilMs(nanos: int): int {
    (nanos + NANOS_PER_MS - 1) / NANOS_PER_MS
  }

  function Clamp(x: int, low: int, high: int): int {
    if x < low then low else if x > high then high else x
  }

  // ---------------------------------------------------------------- the steps

  function Connect(s: State, connection: nat): State {
    s.(connections := s.connections + {connection})
  }

  function Register(s: State, worker: nat, name: string, concurrency: nat, queueLimit: nat): (State, Option<nat>) {
    if worker !in s.connections then (s, Some(SERVICE_UNAVAILABLE))
    else if worker in s.workers then (s, Some(INVALID))
    else if name in s.limits && s.limits[name] != queueLimit then (s, Some(INVALID))
    else
      (s.(limits := s.limits[name := queueLimit], workers := s.workers[worker := Registration(name, concurrency, 0)]),
       None)
  }

  /** The admission decision on a route whose overdue calls are gone. */
  ghost function AdmitOrRefuse(s: State, caller: nat, route: string, timeoutMs: nat, payload: seq<byte>, now: int)
    : (State, Admission)
    requires route in s.limits
  {
    var cost := Cost(route, payload);
    if |Queued(s.calls, route)| >= s.limits[route] || |s.calls| >= s.maxCalls
       || cost > s.maxBytes - Retained(s.calls) || s.nextId == MAX_U64 then (s, Rejected(OVERLOADED))
    else
      var deadline := now + timeoutMs * NANOS_PER_MS;
      (s.(calls := s.calls[s.nextId := Call(caller, route, None, deadline, payload, true, cost)],
          nextId := s.nextId + 1,
          waiters := Fire(s.waiters, WorkersOn(s.workers, route))),
       Accepted(s.nextId, deadline))
  }

  ghost function Request(s: State, caller: nat, route: string, timeoutMs: nat, payload: seq<byte>, now1: int, now2: int)
    : (State, Admission)
  {
    if caller !in s.connections then (s, Rejected(SERVICE_UNAVAILABLE))
    else if route !in s.limits then (s, Rejected(NO_SERVICE))
    else
      AdmitOrRefuse(ExpireQueued(s, route, now1), caller, route, timeoutMs, payload, now2)
  }

  /** The oldest queued call goes to the worker, unless its deadline has just passed. */
  ghost function TakeHead(s: State, worker: nat, route: string, now: int): (State, Attempt) {
    var queue := Queued(s.calls, route);
    if queue == {} then (s, Idle)
    else
      var id := Least(queue);
      var call := s.calls[id];
      if call.deadline <= now then (s.(calls := s.calls - {id}, sent := Answer(s.sent, s.calls, {id}, LATE)), Retry)
      else
        (s.(calls := s.calls[id := call.(owner := Some(worker))]),
         Taken(Job(id, Clamp(CeilMs(call.deadline - now), 1, 30_000), call.payload)))
  }

  /** One lock section of `try_take`: either it decides, or it dropped an expired head and retries. */
  ghost function TryTake(s: State, worker: nat, now1: int, now2: int): (State, Attempt) {
    if worker !in s.workers then (s, Refused(UNAUTHORIZED))
    else if |OwnedBy(s.calls, worker)| >= s.workers[worker].concurrency then (s, Idle)
    else
      var route := s.workers[worker].route;
      TakeHead(ExpireQueued(s, route, now1), worker, route, now2)
  }

  function Outcome(call: Call, failed: bool, payload: seq<byte>, now: int): Reply {
    if call.deadline <= now then LATE
    else if failed then Failure(HANDLER_ERROR, payload)
    else Success(payload)
  }

  function Complete(s: State, worker: nat, id: nat, failed: bool, payload: seq<byte>, now: int): (State, Option<nat>) {
    if worker !in s.workers then (s, Some(UNAUTHORIZED))
    else if id !in s.calls then (s, Some(INVALID))
    else if s.calls[id].owner != Some(worker) then (s, Some(UNAUTHORIZED))
    else
      (s.(calls := s.calls - {id}, sent := Answer(s.sent, s.calls, {id}, Outcome(s.calls[id], failed, payload, now)),
          waiters := Fire(s.waiters, {worker})),
       None)
  }

  /** The channel of `id` is spent; a queued call goes with it, a running one keeps its slot. */
  function Abandon(s: State, id: nat): State {
    if id !in s.calls then s
    else if s.calls[id].owner.None? then s.(calls := s.calls - {id})
    else s.(calls := s.calls[id := s.calls[id].(open := false)])
  }

  function Expire(s: State, id: nat): State {
    Abandon(s.(sent := Answer(s.sent, s.calls, {id}, LATE)), id)
  }

  /** A dropped ticket. */
  function Cancel(s: State, id: nat): State {
    Abandon(s, id)
  }

  /** The calls a closing connection takes with it: its queued ones, the ones it was running, and
      the queue of a route that loses its last worker. */
  function Lost(s: State, connection: nat): set<nat> {
    set id | id in s.calls &&
             (|| (s.calls[id].caller == connection && s.calls[id].owner.None?)
              || (connection in s.workers &&
                  (|| s.calls[id].owner == Some(connection)
                   || (s.calls[id].owner.None? && s.calls[id].route == s.workers[connection].route
                       && WorkersOn(s.workers, s.workers[connection].route) == {connection}))))
  }

  /** Of those, the ones somebody else is still waiting for. */
  function Bereaved(s: State, connection: nat): set<nat> {
    set id | id in Lost(s, connection) && s.calls[id].caller != connection
  }

  function Disconnect(s: State, connection: nat): State {
    var lost := Lost(s, connection);
    var calls := map id | id in s.calls && id !in lost ::
                   if s.calls[id].caller == connection then s.calls[id].(open := false) else s.calls[id];
    var t := s.(connections := s.connections - {connection}, calls := calls,
                sent := Answer(s.sent, s.calls, Bereaved(s, connection), UNAVAILABLE));
    if connection !in s.workers then t
    else
      var route := s.workers[connection].route;
      var peers := WorkersOn(s.workers, route);
      t.(workers := s.workers - {connection},
         limits := if peers == {connection} then s.limits - {route} else s.limits,
         waiters := Fire(s.waiters, peers))
  }

  function BeginTake(s: State, worker: nat, take: nat): (State, Option<nat>) {
    if worker !in s.workers then (s, Some(UNAUTHORIZED))
    else if s.workers[worker].takes >= s.workers[worker].concurrency then (s, Some(OVERLOADED))
    else
      (s.(workers := s.workers[worker := s.workers[worker].(takes := s.workers[worker].takes + 1)],
          waiters := s.waiters[take := Waiter(worker, Started, false)]),
       None)
  }

  /** `notified()` followed by `enable()`: a fresh, unfired notification. */
  function Listen(s: State, take: nat): State {
    if take !in s.waiters then s
    else s.(waiters := s.waiters[take := s.waiters[take].(phase := Listening, fired := false)])
  }

  ghost function Poll(s: State, take: nat, now1: int, now2: int): (State, Attempt) {
    if take !in s.waiters then (s, Idle)
    else
      var (t, attempt) := TryTake(s, s.waiters[take].worker, now1, now2);
      var phase := match attempt
                   case Idle => Parked
                   case Retry => Listening
                   case _ => Returned;
      (t.(waiters := t.waiters[take := t.waiters[take].(phase := phase)]), attempt)
  }

  function Saturating(takes: nat): nat {
    if takes == 0 then 0 else takes - 1
  }

  /** The guard of a `take` future is dropped, whatever became of the future. */
  function EndTake(s: State, take: nat): State {
    if take !in s.waiters then s
    else
      var worker := s.waiters[take].worker;
      s.(waiters := s.waiters - {take},
         workers := if worker in s.workers
                    then s.workers[worker := s.workers[worker].(takes := Saturating(s.workers[worker].takes))]
                    else s.workers)
  }

  // ---------------------------------------------------------------- the global invariant

  ghost predicate CallsPlaced(s: State) {
    && s.nextId >= 1
    && (forall id :: id in s.calls ==> 1 <= id < s.nextId)
    && (forall id :: id in s.calls && s.calls[id].owner.None? ==>
          s.calls[id].route in s.limits && s.calls[id].open)
    && (forall id :: id in s.calls && s.calls[id].owner.Some? ==>
          s.calls[id].owner.value in s.workers && s.workers[s.calls[id].owner.value].route == s.calls[id].route)
    && (forall id :: id in s.calls && s.calls[id].open ==> s.calls[id].caller in s.connections)
  }

  ghost predicate RoutesServed(s: State) {
    && (forall r :: r in s.limits <==> WorkersOn(s.workers, r) != {})
    && (forall w :: w in s.workers ==> w in s.connections)
  }

  ghost predicate WithinBudgets(s: State) {
    && (forall w :: w in s.workers ==> |OwnedBy(s.calls, w)| <= s.workers[w].concurrency)
    && (forall r :: r in s.limits ==> |Queued(s.calls, r)| <= s.limits[r])
    && |s.calls| <= s.maxCalls
    && Retained(s.calls) <= s.maxBytes
  }

  /** A reply is final: nothing waits on a channel that was answered, and no accepted call is ever
      told that it was not accepted. */
  ghost predicate RepliesFinal(s: State) {
    && (forall id :: id in s.sent ==> 1 <= id < s.nextId && (id in s.calls ==> !s.calls[id].open))
    && (forall id :: id in s.sent && s.sent[id].Failure? ==>
          s.sent[id].code in {DEADLINE_EXCEEDED, SERVICE_UNAVAILABLE, HANDLER_ERROR})
  }

  ghost predicate TakesCounted(s: State) {
    && (forall w :: w in s.workers ==>
          s.workers[w].takes == |TakesOf(s.waiters, w)| && s.workers[w].takes <= s.workers[w].concurrency)
    && (forall t :: t in s.waiters ==>
          s.waiters[t].worker in s.workers || s.waiters[t].worker !in s.connections)
  }

  /** Nothing this waiter could take: its queue is empty or its worker is full. */
  ghost predicate NothingFor(s: State, worker: nat) {
    worker in s.workers &&
    (Queued(s.calls, s.workers[worker].route) == {} || |OwnedBy(s.calls, worker)| >= s.workers[worker].concurrency)
  }

  ghost predicate NoLostWakeup(s: State) {
    forall t ::
      t in s.waiters && s.waiters[t].phase.Parked? && !s.waiters[t].fired ==> NothingFor(s, s.waiters[t].worker)
  }

  ghost predicate Inv(s: State) {
    CallsPlaced(s) && RoutesServed(s) && WithinBudgets(s) && RepliesFinal(s) && TakesCounted(s) && NoLostWakeup(s)
  }
}
