/** Every step of the scheduler keeps the global invariant. */
module SchedulerInvariant {
  import opened Basics
  import opened Codes
  import opened Scheduler

  // ---------------------------------------------------------------- retained bytes as a sum

  lemma {:induction false} RetainedRemove(calls: map<nat, Call>, id: nat)
    requires id in calls
    ensures Retained(calls) == calls[id].cost + Retained(calls - {id})
    decreases |calls|
  {
    var first :| first in calls && Retained(calls) == calls[first].cost + Retained(calls - {first});
    if first != id {
      var both := calls - {first} - {id};
      assert (calls - {id}) - {first} == both;
      RetainedRemove(calls - {first}, id);
      RetainedRemove(calls - {id}, first);
    }
  }

  lemma RetainedInsert(calls: map<nat, Call>, id: nat, call: Call)
    requires id !in calls
    ensures Retained(calls[id := call]) == Retained(calls) + call.cost
  {
    assert calls[id := call] - {id} == calls;
    RetainedRemove(calls[id := call], id);
  }

  /** `after` lost some calls, and the rest changed at most their channel. */
  ghost predicate Shrunk(after: map<nat, Call>, before: map<nat, Call>) {
    && after.Keys <= before.Keys
    && forall id :: id in after ==>
         after[id] == before[id] || after[id] == before[id].(open := false)
  }

  lemma {:induction false} RetainedShrinks(after: map<nat, Call>, before: map<nat, Call>)
    requires after.Keys <= before.Keys
    requires forall id :: id in after ==> after[id].cost == before[id].cost
    ensures Retained(after) <= Retained(before)
    ensures after.Keys == before.Keys ==> Retained(after) == Retained(before)
    decreases |before|
  {
    if before != map[] {
      var id :| id in before;
      RetainedRemove(before, id);
      if id in after {
        RetainedRemove(after, id);
        RetainedShrinks(after - {id}, before - {id});
      } else {
        RetainedShrinks(after, before - {id});
      }
    }
  }

  lemma ShrunkSizes(after: map<nat, Call>, before: map<nat, Call>)
    requires Shrunk(after, before)
    ensures |after| <= |before| && Retained(after) <= Retained(before)
    ensures forall r :: Queued(after, r) <= Queued(before, r) && |Queued(after, r)| <= |Queued(before, r)|
    ensures forall w :: OwnedBy(after, w) <= OwnedBy(before, w) && |OwnedBy(after, w)| <= |OwnedBy(before, w)|
  {
    SubsetSize(after.Keys, before.Keys);
    RetainedShrinks(after, before);
    forall r ensures Queued(after, r) <= Queued(before, r) && |Queued(after, r)| <= |Queued(before, r)| {
      assert Queued(after, r) <= Queued(before, r);
      SubsetSize(Queued(after, r), Queued(before, r));
    }
    forall w ensures OwnedBy(after, w) <= OwnedBy(before, w) && |OwnedBy(after, w)| <= |OwnedBy(before, w)| {
      assert OwnedBy(after, w) <= OwnedBy(before, w);
      SubsetSize(OwnedBy(after, w), OwnedBy(before, w));
    }
  }

  lemma FireKeepsTakes(waiters: map<nat, Waiter>, workers: set<nat>)
    ensures forall w :: TakesOf(Fire(waiters, workers), w) == TakesOf(waiters, w)
  {
  }

  // ---------------------------------------------------------------- one lemma a step

  lemma FreshInv(maxCalls: nat, maxBytes: nat)
    ensures Inv(Fresh(maxCalls, maxBytes))
  {
  }

  lemma ConnectInv(s: State, connection: nat)
    requires Inv(s)
    requires forall t :: t in s.waiters ==> s.waiters[t].worker != connection
    ensures Inv(Connect(s, connection))
  {
  }

  lemma RegisterServed(s: State, worker: nat, name: string, concurrency: nat, queueLimit: nat)
    requires RoutesServed(s)
    ensures RoutesServed(Register(s, worker, name, concurrency, queueLimit).0)
  {
    var t := Register(s, worker, name, concurrency, queueLimit).0;
    if t != s {
      forall r ensures WorkersOn(t.workers, r) == WorkersOn(s.workers, r) + if r == name then {worker} else {} {
      }
    }
  }

  lemma RegisterTakes(s: State, worker: nat, name: string, concurrency: nat, queueLimit: nat)
    requires TakesCounted(s)
    ensures TakesCounted(Register(s, worker, name, concurrency, queueLimit).0)
  {
    if worker in s.connections && worker !in s.workers {
      assert TakesOf(s.waiters, worker) == {};
    }
  }

  lemma RegisterBudgets(s: State, worker: nat, name: string, concurrency: nat, queueLimit: nat)
    requires CallsPlaced(s) && WithinBudgets(s)
    ensures WithinBudgets(Register(s, worker, name, concurrency, queueLimit).0)
  {
    if worker !in s.workers {
      assert OwnedBy(s.calls, worker) == {};
    }
    if name !in s.limits {
      assert Queued(s.calls, name) == {};
    }
  }

  lemma RegisterPlaced(s: State, worker: nat, name: string, concurrency: nat, queueLimit: nat)
    requires CallsPlaced(s) && NoLostWakeup(s)
    ensures CallsPlaced(Register(s, worker, name, concurrency, queueLimit).0)
    ensures NoLostWakeup(Register(s, worker, name, concurrency, queueLimit).0)
  {
  }

  lemma RegisterInv(s: State, worker: nat, name: string, concurrency: nat, queueLimit: nat)
    requires Inv(s)
    ensures Inv(Register(s, worker, name, concurrency, queueLimit).0)
  {
    RegisterServed(s, worker, name, concurrency, queueLimit);
    RegisterTakes(s, worker, name, concurrency, queueLimit);
    RegisterBudgets(s, worker, name, concurrency, queueLimit);
    RegisterPlaced(s, worker, name, concurrency, queueLimit);
  }

  // Dropping calls that nobody runs, after answering the open ones, disturbs nothing.

  ghost predicate Settled(s: State, t: State, answered: set<nat>, reply: Reply) {
    && t == s.(calls := t.calls, sent := Answer(s.sent, s.calls, answered, reply))
    && Shrunk(t.calls, s.calls)
    && (forall id :: id in answered && id in t.calls ==> !t.calls[id].open)
    && (forall id :: id in t.calls && t.calls[id].owner.None? ==> t.calls[id].open)
    && (forall id :: id in s.calls && id !in t.calls ==> s.calls[id].owner.None?)
    && (reply.Failure? ==> reply.code in {DEADLINE_EXCEEDED, SERVICE_UNAVAILABLE, HANDLER_ERROR})
  }

  lemma SettledPlaced(s: State, t: State, answered: set<nat>, reply: Reply)
    requires CallsPlaced(s) && Settled(s, t, answered, reply)
    ensures CallsPlaced(t)
  {
  }

  lemma SettledReplies(s: State, t: State, answered: set<nat>, reply: Reply)
    requires CallsPlaced(s) && RepliesFinal(s) && Settled(s, t, answered, reply)
    ensures RepliesFinal(t)
  {
  }

  lemma SettledWakeup(s: State, t: State, answered: set<nat>, reply: Reply)
    requires NoLostWakeup(s) && Settled(s, t, answered, reply)
    ensures NoLostWakeup(t)
  {
    hide Queued, OwnedBy, Answer, Retained, Shrunk;
    ShrunkSizes(t.calls, s.calls);
    SettledOwners(s, t, answered, reply);
  }

  lemma SettledOwners(s: State, t: State, answered: set<nat>, reply: Reply)
    requires Settled(s, t, answered, reply)
    ensures forall w :: OwnedBy(t.calls, w) == OwnedBy(s.calls, w)
  {
    hide Answer;
    forall w ensures OwnedBy(t.calls, w) == OwnedBy(s.calls, w) {
    }
  }

  lemma BudgetsShrink(s: State, t: State)
    requires WithinBudgets(s) && Shrunk(t.calls, s.calls)
    requires t.workers == s.workers && t.limits == s.limits && t.maxCalls == s.maxCalls && t.maxBytes == s.maxBytes
    ensures WithinBudgets(t)
  {
    ShrunkSizes(t.calls, s.calls);
  }

  lemma SettledInv(s: State, t: State, answered: set<nat>, reply: Reply)
    requires Inv(s) && Settled(s, t, answered, reply)
    ensures Inv(t)
  {
    SettledPlaced(s, t, answered, reply);
    SettledReplies(s, t, answered, reply);
    SettledWakeup(s, t, answered, reply);
    BudgetsShrink(s, t);
  }

  lemma ExpireQueuedSettles(s: State, route: string, now: int)
    requires CallsPlaced(s)
    ensures Settled(s, ExpireQueued(s, route, now), Overdue(s.calls, route, now), LATE)
  {
  }

  lemma ExpireQueuedInv(s: State, route: string, now: int)
    requires Inv(s)
    ensures Inv(ExpireQueued(s, route, now))
  {
    ExpireQueuedSettles(s, route, now);
    SettledInv(s, ExpireQueued(s, route, now), Overdue(s.calls, route, now), LATE);
  }

  lemma ExpireSettles(s: State, id: nat)
    requires CallsPlaced(s) && id in s.calls
    ensures Settled(s, Expire(s, id), {id}, LATE)
  {
    hide Answer;
  }

  lemma CancelSettles(s: State, id: nat)
    requires CallsPlaced(s) && id in s.calls
    ensures Settled(s, Cancel(s, id), {}, LATE)
  {
    assert Answer(s.sent, s.calls, {}, LATE) == s.sent;
  }

  lemma AbandonNothing(s: State, id: nat)
    requires id !in s.calls
    ensures Expire(s, id) == s && Cancel(s, id) == s
  {
    assert Answer(s.sent, s.calls, {id}, LATE) == s.sent;
  }

  lemma ExpireInv(s: State, id: nat)
    requires Inv(s)
    ensures Inv(Expire(s, id))
  {
    if id in s.calls {
      ExpireSettles(s, id);
      SettledInv(s, Expire(s, id), {id}, LATE);
    } else {
      AbandonNothing(s, id);
    }
  }

  lemma CancelInv(s: State, id: nat)
    requires Inv(s)
    ensures Inv(Cancel(s, id))
  {
    if id in s.calls {
      CancelSettles(s, id);
      SettledInv(s, Cancel(s, id), {}, LATE);
    } else {
      AbandonNothing(s, id);
    }
  }

  // A waiter changes phase, but nobody's number of TAKE futures does.

  lemma TakesSame(s: State, t: State)
    requires TakesCounted(s)
    requires t.workers == s.workers && t.connections == s.connections && t.waiters.Keys == s.waiters.Keys
    requires forall k :: k in s.waiters ==> t.waiters[k].worker == s.waiters[k].worker
    ensures TakesCounted(t)
  {
    forall w ensures TakesOf(t.waiters, w) == TakesOf(s.waiters, w) {
    }
  }

  /** A step that touches neither the calls nor the registrations' routes and sizes. */
  ghost predicate OnlyTakes(s: State, t: State) {
    && t == s.(workers := t.workers, waiters := t.waiters) && t.workers.Keys == s.workers.Keys
    && forall w :: w in s.workers ==>
         t.workers[w].route == s.workers[w].route && t.workers[w].concurrency == s.workers[w].concurrency
  }

  lemma CallsUntouched(s: State, t: State)
    requires CallsPlaced(s) && WithinBudgets(s) && RepliesFinal(s) && OnlyTakes(s, t)
    ensures CallsPlaced(t) && WithinBudgets(t) && RepliesFinal(t)
  {
  }

  lemma RoutesUntouched(s: State, t: State)
    requires RoutesServed(s) && OnlyTakes(s, t)
    ensures RoutesServed(t)
  {
    forall r ensures WorkersOn(t.workers, r) == WorkersOn(s.workers, r) {
    }
  }

  /** No waiter is parked that was not parked before. */
  ghost predicate NoneParked(s: State, t: State) {
    forall k :: k in t.waiters && t.waiters[k].phase.Parked? ==> k in s.waiters && s.waiters[k] == t.waiters[k]
  }

  lemma WaitersUntouched(s: State, t: State)
    requires NoLostWakeup(s) && OnlyTakes(s, t) && NoneParked(s, t)
    ensures NoLostWakeup(t)
  {
    forall k | k in t.waiters && t.waiters[k].phase.Parked? && !t.waiters[k].fired
      ensures NothingFor(t, t.waiters[k].worker)
    {
      assert NothingFor(s, s.waiters[k].worker);
    }
  }

  lemma OnlyTakesInv(s: State, t: State)
    requires Inv(s) && OnlyTakes(s, t) && NoneParked(s, t) && TakesCounted(t)
    ensures Inv(t)
  {
    CallsUntouched(s, t);
    RoutesUntouched(s, t);
    WaitersUntouched(s, t);
  }

  // Admission.

  ghost function Admit(s: State, call: Call): State {
    s.(calls := s.calls[s.nextId := call], nextId := s.nextId + 1,
       waiters := Fire(s.waiters, WorkersOn(s.workers, call.route)))
  }

  ghost predicate Admissible(s: State, call: Call) {
    && call.caller in s.connections && call.route in s.limits && call.owner.None? && call.open
    && |Queued(s.calls, call.route)| < s.limits[call.route] && |s.calls| < s.maxCalls
    && call.cost + Retained(s.calls) <= s.maxBytes
  }

  lemma AdmitQueues(s: State, call: Call)
    requires CallsPlaced(s) && call.owner.None?
    ensures forall r ::
              Queued(Admit(s, call).calls, r) == Queued(s.calls, r) + if r == call.route then {s.nextId} else {}
    ensures forall w :: OwnedBy(Admit(s, call).calls, w) == OwnedBy(s.calls, w)
  {
  }

  lemma AdmitBudgets(s: State, call: Call)
    requires CallsPlaced(s) && WithinBudgets(s) && Admissible(s, call)
    ensures WithinBudgets(Admit(s, call))
  {
    hide CallsPlaced, Queued, OwnedBy, Retained, Fire;
    NextIsNew(s);
    RetainedInsert(s.calls, s.nextId, call);
    OneCallMore(s.calls, s.nextId, call);
    forall r ensures |Queued(Admit(s, call).calls, r)| == |Queued(s.calls, r)| + if r == call.route then 1 else 0 {
      QueueSize(s.calls, s.nextId, call, r);
    }
    AdmitQueues(s, call);
  }

  lemma NextIsNew(s: State)
    requires CallsPlaced(s)
    ensures s.nextId !in s.calls
  {
  }

  lemma OneCallMore(calls: map<nat, Call>, id: nat, call: Call)
    requires id !in calls
    ensures |calls[id := call]| == |calls| + 1
  {
  }

  lemma QueueAfterInsert(calls: map<nat, Call>, id: nat, call: Call, r: string)
    requires id !in calls && call.owner.None?
    ensures Queued(calls[id := call], r) == Queued(calls, r) + (if r == call.route then {id} else {})
    ensures id !in Queued(calls, r)
  {
  }

  lemma QueueSize(calls: map<nat, Call>, id: nat, call: Call, r: string)
    requires id !in calls && call.owner.None?
    ensures |Queued(calls[id := call], r)| == |Queued(calls, r)| + if r == call.route then 1 else 0
  {
    hide Queued;
    QueueAfterInsert(calls, id, call, r);
  }

  lemma AdmitPlaced(s: State, call: Call)
    requires CallsPlaced(s) && RepliesFinal(s) && Admissible(s, call)
    ensures CallsPlaced(Admit(s, call)) && RepliesFinal(Admit(s, call))
  {
  }

  lemma AdmitWakes(s: State, call: Call)
    requires CallsPlaced(s) && NoLostWakeup(s) && call.owner.None?
    ensures NoLostWakeup(Admit(s, call))
  {
    AdmitQueues(s, call);
    var t := Admit(s, call);
    forall k | k in t.waiters && t.waiters[k].phase.Parked? && !t.waiters[k].fired
      ensures NothingFor(t, t.waiters[k].worker)
    {
      assert NothingFor(s, s.waiters[k].worker);
    }
  }

  lemma AdmitInv(s: State, call: Call)
    requires Inv(s) && Admissible(s, call)
    ensures Inv(Admit(s, call))
  {
    hide CallsPlaced, WithinBudgets, RepliesFinal, TakesCounted, NoLostWakeup;
    AdmitBudgets(s, call);
    AdmitPlaced(s, call);
    AdmitWakes(s, call);
    TakesSame(s, Admit(s, call));
  }

  ghost function NewCall(caller: nat, route: string, timeoutMs: nat, payload: seq<byte>, now: int): Call {
    Call(caller, route, None, now + timeoutMs * NANOS_PER_MS, payload, true, Cost(route, payload))
  }

  lemma RequestCases(s: State, caller: nat, route: string, timeoutMs: nat, payload: seq<byte>, now1: int, now2: int)
    ensures var r := Request(s, caller, route, timeoutMs, payload, now1, now2);
            var u := ExpireQueued(s, route, now1);
            && (r.1.Rejected? ==> r.0 == s || r.0 == u)
            && (r.1.Accepted? ==>
                  var call := NewCall(caller, route, timeoutMs, payload, now2);
                  Admissible(u, call) && r.0 == Admit(u, call) && r.1.id == s.nextId && r.1.deadline == call.deadline)
  {
    var u := ExpireQueued(s, route, now1);
    assert u.limits == s.limits && u.connections == s.connections && u.nextId == s.nextId
           && u.waiters == s.waiters && u.workers == s.workers;
  }

  lemma RequestInv(s: State, caller: nat, route: string, timeoutMs: nat, payload: seq<byte>, now1: int, now2: int)
    requires Inv(s)
    ensures Inv(Request(s, caller, route, timeoutMs, payload, now1, now2).0)
  {
    RequestCases(s, caller, route, timeoutMs, payload, now1, now2);
    ExpireQueuedInv(s, route, now1);
    if Request(s, caller, route, timeoutMs, payload, now1, now2).1.Accepted? {
      AdmitInv(ExpireQueued(s, route, now1), NewCall(caller, route, timeoutMs, payload, now2));
    }
  }

  // Dispatch.

  ghost function Assign(s: State, worker: nat, id: nat): State
    requires id in s.calls
  {
    s.(calls := s.calls[id := s.calls[id].(owner := Some(worker))])
  }

  ghost predicate Assignable(s: State, worker: nat, id: nat) {
    && worker in s.workers && id in Queued(s.calls, s.workers[worker].route)
    && |OwnedBy(s.calls, worker)| < s.workers[worker].concurrency
  }

  lemma AssignSets(s: State, worker: nat, id: nat)
    requires Assignable(s, worker, id)
    ensures forall r :: Queued(Assign(s, worker, id).calls, r) == Queued(s.calls, r) - {id}
    ensures forall w ::
              OwnedBy(Assign(s, worker, id).calls, w) == OwnedBy(s.calls, w) + if w == worker then {id} else {}
    ensures |Assign(s, worker, id).calls| == |s.calls| && Retained(Assign(s, worker, id).calls) == Retained(s.calls)
  {
    hide Retained;
    var t := Assign(s, worker, id);
    assert t.calls.Keys == s.calls.Keys;
    assert |t.calls| == |t.calls.Keys| == |s.calls.Keys|;
    RetainedShrinks(t.calls, s.calls);
  }

  lemma AssignBudgets(s: State, worker: nat, id: nat)
    requires WithinBudgets(s) && Assignable(s, worker, id)
    ensures WithinBudgets(Assign(s, worker, id))
  {
    AssignSets(s, worker, id);
    forall r ensures |Queued(s.calls, r) - {id}| <= |Queued(s.calls, r)| {
      SubsetSize(Queued(s.calls, r) - {id}, Queued(s.calls, r));
    }
  }

  lemma AssignWakes(s: State, worker: nat, id: nat)
    requires NoLostWakeup(s) && Assignable(s, worker, id)
    ensures NoLostWakeup(Assign(s, worker, id))
  {
    AssignSets(s, worker, id);
    forall w ensures |OwnedBy(Assign(s, worker, id).calls, w)| >= |OwnedBy(s.calls, w)| {
      SubsetSize(OwnedBy(s.calls, w), OwnedBy(Assign(s, worker, id).calls, w));
    }
  }

  lemma AssignInv(s: State, worker: nat, id: nat)
    requires Inv(s) && Assignable(s, worker, id)
    ensures Inv(Assign(s, worker, id))
  {
    AssignBudgets(s, worker, id);
    AssignWakes(s, worker, id);
    AssignPlaced(s, worker, id);
  }

  lemma AssignPlaced(s: State, worker: nat, id: nat)
    requires CallsPlaced(s) && RepliesFinal(s) && Assignable(s, worker, id)
    ensures CallsPlaced(Assign(s, worker, id)) && RepliesFinal(Assign(s, worker, id))
  {
  }

  /** The head of the queue missed its deadline between the clean-up and the second look. */
  ghost function DropHead(s: State, id: nat): State {
    s.(calls := s.calls - {id}, sent := Answer(s.sent, s.calls, {id}, LATE))
  }

  lemma DropHeadInv(s: State, id: nat, route: string)
    requires Inv(s) && id in Queued(s.calls, route)
    ensures Inv(DropHead(s, id))
  {
    DropHeadSettles(s, id, route);
    SettledInv(s, DropHead(s, id), {id}, LATE);
  }

  lemma DropHeadSettles(s: State, id: nat, route: string)
    requires CallsPlaced(s) && id in Queued(s.calls, route)
    ensures Settled(s, DropHead(s, id), {id}, LATE)
  {
  }

  /** What one attempt comes to, in terms of the three primitive moves above. */
  lemma TryTakeCases(s: State, worker: nat, now1: int, now2: int)
    requires CallsPlaced(s)
    ensures var (t, attempt) := TryTake(s, worker, now1, now2);
            match attempt
            case Refused(_) => worker !in s.workers && t == s
            case Idle => worker in s.workers && NothingFor(t, worker)
                         && (t == s || t == ExpireQueued(s, s.workers[worker].route, now1))
            case Retry =>
              worker in s.workers &&
              var route := s.workers[worker].route;
              var u := ExpireQueued(s, route, now1);
              Queued(u.calls, route) != {} &&
              var id := Least(Queued(u.calls, route));
              t == DropHead(u, id) && u.calls[id].deadline <= now2
            case Taken(job) =>
              worker in s.workers &&
              var route := s.workers[worker].route;
              var u := ExpireQueued(s, route, now1);
              Assignable(u, worker, job.callId) && t == Assign(u, worker, job.callId)
              && job.callId == Least(Queued(u.calls, route)) && u.calls[job.callId].deadline > now2
              && job.payload == u.calls[job.callId].payload
              && job.remainingMs == Clamp(CeilMs(u.calls[job.callId].deadline - now2), 1, 30_000)
  {
    if worker in s.workers {
      var u := ExpireQueued(s, s.workers[worker].route, now1);
      assert OwnedBy(u.calls, worker) == OwnedBy(s.calls, worker);
    }
  }

  lemma TryTakeInv(s: State, worker: nat, now1: int, now2: int)
    requires Inv(s)
    ensures Inv(TryTake(s, worker, now1, now2).0)
  {
    TryTakeCases(s, worker, now1, now2);
    if worker in s.workers {
      var route := s.workers[worker].route;
      ExpireQueuedInv(s, route, now1);
      var u := ExpireQueued(s, route, now1);
      match TryTake(s, worker, now1, now2).1 {
        case Retry => DropHeadInv(u, Least(Queued(u.calls, route)), route);
        case Taken(job) => AssignInv(u, worker, job.callId);
        case _ =>
      }
    }
  }

  /** Each retry of `try_take` removes a live call, so its loop ends. */
  lemma RetryShrinks(s: State, worker: nat, now1: int, now2: int)
    requires CallsPlaced(s)
    ensures TryTake(s, worker, now1, now2).1.Retry? ==> TryTake(s, worker, now1, now2).0.calls.Keys < s.calls.Keys
  {
    TryTakeCases(s, worker, now1, now2);
    if TryTake(s, worker, now1, now2).1.Retry? {
      var route := s.workers[worker].route;
      var head := Least(Queued(ExpireQueued(s, route, now1).calls, route));
      assert head in s.calls && head !in TryTake(s, worker, now1, now2).0.calls;
    }
  }

  lemma PollWakes(s: State, take: nat, now1: int, now2: int)
    requires take in s.waiters && CallsPlaced(s)
    requires NoLostWakeup(TryTake(s, s.waiters[take].worker, now1, now2).0)
    ensures NoLostWakeup(Poll(s, take, now1, now2).0)
  {
    TryTakeCases(s, s.waiters[take].worker, now1, now2);
    var u := TryTake(s, s.waiters[take].worker, now1, now2).0;
    var t := Poll(s, take, now1, now2).0;
    forall k | k in t.waiters && t.waiters[k].phase.Parked? && !t.waiters[k].fired
      ensures NothingFor(t, t.waiters[k].worker)
    {
      assert NothingFor(u, u.waiters[k].worker);
    }
  }

  lemma PollShape(s: State, take: nat, now1: int, now2: int)
    requires take in s.waiters && CallsPlaced(s)
    ensures var u := TryTake(s, s.waiters[take].worker, now1, now2).0;
            var t := Poll(s, take, now1, now2).0;
            OnlyTakes(u, t) && u.workers == t.workers && u.waiters.Keys == t.waiters.Keys
            && forall k :: k in u.waiters ==> t.waiters[k].worker == u.waiters[k].worker
  {
    hide Queued, OwnedBy, Least, CallsPlaced, NothingFor, TryTake, Answer, Overdue;
    TryTakeCases(s, s.waiters[take].worker, now1, now2);
  }

  lemma PollInv(s: State, take: nat, now1: int, now2: int)
    requires Inv(s)
    ensures Inv(Poll(s, take, now1, now2).0)
  {
    if take in s.waiters {
      var u := TryTake(s, s.waiters[take].worker, now1, now2).0;
      TryTakeInv(s, s.waiters[take].worker, now1, now2);
      PollWakes(s, take, now1, now2);
      PollShape(s, take, now1, now2);
      TakesSame(u, Poll(s, take, now1, now2).0);
      CallsUntouched(u, Poll(s, take, now1, now2).0);
      RoutesUntouched(u, Poll(s, take, now1, now2).0);
    }
  }

  // Completion.

  ghost predicate Completable(s: State, worker: nat, id: nat) {
    worker in s.workers && id in s.calls && s.calls[id].owner == Some(worker)
  }

  ghost function Finish(s: State, worker: nat, id: nat, reply: Reply): State {
    s.(calls := s.calls - {id}, sent := Answer(s.sent, s.calls, {id}, reply), waiters := Fire(s.waiters, {worker}))
  }

  lemma FinishPlaced(s: State, worker: nat, id: nat, reply: Reply)
    requires CallsPlaced(s) && RepliesFinal(s) && Completable(s, worker, id)
    requires reply.Failure? ==> reply.code in {DEADLINE_EXCEEDED, SERVICE_UNAVAILABLE, HANDLER_ERROR}
    ensures CallsPlaced(Finish(s, worker, id, reply)) && RepliesFinal(Finish(s, worker, id, reply))
  {
  }

  lemma FinishWakes(s: State, worker: nat, id: nat, reply: Reply)
    requires NoLostWakeup(s) && Completable(s, worker, id)
    ensures NoLostWakeup(Finish(s, worker, id, reply))
  {
    var t := Finish(s, worker, id, reply);
    forall k | k in t.waiters && t.waiters[k].phase.Parked? && !t.waiters[k].fired
      ensures NothingFor(t, t.waiters[k].worker)
    {
      var w := s.waiters[k].worker;
      assert w != worker && NothingFor(s, w);
      assert OwnedBy(t.calls, w) == OwnedBy(s.calls, w);
      assert Queued(t.calls, s.workers[w].route) == Queued(s.calls, s.workers[w].route);
    }
  }

  lemma FinishInv(s: State, worker: nat, id: nat, reply: Reply)
    requires Inv(s) && Completable(s, worker, id)
    requires reply.Failure? ==> reply.code in {DEADLINE_EXCEEDED, SERVICE_UNAVAILABLE, HANDLER_ERROR}
    ensures Inv(Finish(s, worker, id, reply))
  {
    hide CallsPlaced, WithinBudgets, RepliesFinal, TakesCounted, NoLostWakeup;
    FinishPlaced(s, worker, id, reply);
    FinishWakes(s, worker, id, reply);
    BudgetsShrink(s, Finish(s, worker, id, reply));
    TakesSame(s, Finish(s, worker, id, reply));
  }

  lemma CompleteInv(s: State, worker: nat, id: nat, failed: bool, payload: seq<byte>, now: int)
    requires Inv(s)
    ensures Inv(Complete(s, worker, id, failed, payload, now).0)
  {
    if Completable(s, worker, id) {
      FinishInv(s, worker, id, Outcome(s.calls[id], failed, payload, now));
    }
  }

  // Disconnection.

  lemma DisconnectShrinks(s: State, connection: nat)
    ensures Shrunk(Disconnect(s, connection).calls, s.calls)
    ensures forall w :: w != connection ==> OwnedBy(Disconnect(s, connection).calls, w) == OwnedBy(s.calls, w)
  {
  }

  lemma DisconnectServed(s: State, connection: nat)
    requires RoutesServed(s)
    ensures RoutesServed(Disconnect(s, connection))
  {
    var t := Disconnect(s, connection);
    forall r ensures WorkersOn(t.workers, r) == WorkersOn(s.workers, r) - {connection} {
    }
  }

  lemma DisconnectQueued(s: State, connection: nat, id: nat)
    requires CallsPlaced(s) && RoutesServed(s)
    requires id in Disconnect(s, connection).calls && Disconnect(s, connection).calls[id].owner.None?
    ensures Disconnect(s, connection).calls[id].route in Disconnect(s, connection).limits
            && Disconnect(s, connection).calls[id].open
  {
    hide Answer, Fire, Bereaved;
  }

  lemma DisconnectOwned(s: State, connection: nat, id: nat)
    requires CallsPlaced(s) && id in Disconnect(s, connection).calls && Disconnect(s, connection).calls[id].owner.Some?
    ensures var t := Disconnect(s, connection);
            t.calls[id].owner.value in t.workers && t.workers[t.calls[id].owner.value].route == t.calls[id].route
  {
    hide Answer, Fire, Bereaved, WorkersOn;
  }

  lemma DisconnectOpen(s: State, connection: nat, id: nat)
    requires CallsPlaced(s) && id in Disconnect(s, connection).calls
    ensures 1 <= id < Disconnect(s, connection).nextId
    ensures var t := Disconnect(s, connection); t.calls[id].open ==> t.calls[id].caller in t.connections
  {
    hide Answer, Fire, Bereaved, WorkersOn;
  }

  lemma DisconnectPlaced(s: State, connection: nat)
    requires CallsPlaced(s) && RoutesServed(s)
    ensures CallsPlaced(Disconnect(s, connection))
  {
    DisconnectIds(s, connection);
    hide Disconnect;
    var t := Disconnect(s, connection);
    forall id | id in t.calls ensures 1 <= id < t.nextId && (t.calls[id].open ==> t.calls[id].caller in t.connections) {
      DisconnectOpen(s, connection, id);
    }
    forall id | id in t.calls && t.calls[id].owner.None? ensures t.calls[id].route in t.limits && t.calls[id].open {
      DisconnectQueued(s, connection, id);
    }
    forall id | id in t.calls && t.calls[id].owner.Some?
      ensures t.calls[id].owner.value in t.workers && t.workers[t.calls[id].owner.value].route == t.calls[id].route
    {
      DisconnectOwned(s, connection, id);
    }
  }

  lemma DisconnectIds(s: State, connection: nat)
    ensures Disconnect(s, connection).nextId == s.nextId
  {
  }

  lemma DisconnectReplies(s: State, connection: nat)
    requires CallsPlaced(s) && RepliesFinal(s)
    ensures RepliesFinal(Disconnect(s, connection))
  {
  }

  lemma DisconnectBudgets(s: State, connection: nat)
    requires WithinBudgets(s)
    ensures WithinBudgets(Disconnect(s, connection))
  {
    var t := Disconnect(s, connection);
    DisconnectShrinks(s, connection);
    ShrunkSizes(t.calls, s.calls);
  }

  lemma DisconnectTakes(s: State, connection: nat)
    requires TakesCounted(s)
    ensures TakesCounted(Disconnect(s, connection))
  {
    if connection in s.workers {
      FireKeepsTakes(s.waiters, WorkersOn(s.workers, s.workers[connection].route));
    }
  }

  /** Others' workers keep what they run, and their queues only shrink. */
  lemma DisconnectNothingFor(s: State, connection: nat, worker: nat)
    requires NothingFor(s, worker) && worker != connection
    ensures NothingFor(Disconnect(s, connection), worker)
  {
    DisconnectShrinks(s, connection);
    ShrunkSizes(Disconnect(s, connection).calls, s.calls);
  }

  lemma DisconnectWakes(s: State, connection: nat)
    requires NoLostWakeup(s)
    ensures NoLostWakeup(Disconnect(s, connection))
  {
    var t := Disconnect(s, connection);
    forall k | k in t.waiters && t.waiters[k].phase.Parked? && !t.waiters[k].fired
      ensures NothingFor(t, t.waiters[k].worker)
    {
      assert NothingFor(s, s.waiters[k].worker);
      DisconnectNothingFor(s, connection, s.waiters[k].worker);
    }
  }

  lemma DisconnectInv(s: State, connection: nat)
    requires Inv(s)
    ensures Inv(Disconnect(s, connection))
  {
    DisconnectServed(s, connection);
    DisconnectPlaced(s, connection);
    DisconnectReplies(s, connection);
    DisconnectBudgets(s, connection);
    DisconnectTakes(s, connection);
    DisconnectWakes(s, connection);
  }

  // TAKE futures.

  lemma TakesOfInsert(waiters: map<nat, Waiter>, take: nat, waiter: Waiter, w: nat)
    requires take !in waiters
    ensures TakesOf(waiters[take := waiter], w) == TakesOf(waiters, w) + if w == waiter.worker then {take} else {}
    ensures |TakesOf(waiters[take := waiter], w)| == |TakesOf(waiters, w)| + if w == waiter.worker then 1 else 0
  {
    assert TakesOf(waiters[take := waiter], w) == TakesOf(waiters, w) + if w == waiter.worker then {take} else {};
  }

  lemma TakesOfRemove(waiters: map<nat, Waiter>, take: nat, w: nat)
    requires take in waiters
    ensures |TakesOf(waiters - {take}, w)| == |TakesOf(waiters, w)| - if w == waiters[take].worker then 1 else 0
  {
    assert TakesOf(waiters - {take}, w) == TakesOf(waiters, w) - {take};
  }

  lemma BeginTakeCounts(s: State, worker: nat, take: nat)
    requires TakesCounted(s) && take !in s.waiters
    requires worker in s.workers && s.workers[worker].takes < s.workers[worker].concurrency
    ensures TakesCounted(BeginTake(s, worker, take).0)
  {
    var t := BeginTake(s, worker, take).0;
    forall w | w in t.workers
      ensures t.workers[w].takes == |TakesOf(t.waiters, w)| && t.workers[w].takes <= t.workers[w].concurrency
    {
      TakesOfInsert(s.waiters, take, Waiter(worker, Started, false), w);
    }
  }

  lemma BeginTakeShape(s: State, worker: nat, take: nat)
    requires take !in s.waiters
    ensures OnlyTakes(s, BeginTake(s, worker, take).0) && NoneParked(s, BeginTake(s, worker, take).0)
    ensures BeginTake(s, worker, take).0 != s ==>
              worker in s.workers && s.workers[worker].takes < s.workers[worker].concurrency
  {
  }

  lemma BeginTakeInv(s: State, worker: nat, take: nat)
    requires Inv(s) && take !in s.waiters
    ensures Inv(BeginTake(s, worker, take).0)
  {
    BeginTakeShape(s, worker, take);
    if BeginTake(s, worker, take).0 != s {
      BeginTakeCounts(s, worker, take);
      OnlyTakesInv(s, BeginTake(s, worker, take).0);
    }
  }

  lemma ListenShape(s: State, take: nat)
    ensures OnlyTakes(s, Listen(s, take)) && NoneParked(s, Listen(s, take))
  {
  }

  lemma ListenInv(s: State, take: nat)
    requires Inv(s)
    ensures Inv(Listen(s, take))
  {
    ListenShape(s, take);
    TakesSame(s, Listen(s, take));
    OnlyTakesInv(s, Listen(s, take));
  }

  lemma EndTakeCounts(s: State, take: nat)
    requires TakesCounted(s) && take in s.waiters
    ensures TakesCounted(EndTake(s, take))
  {
    var t := EndTake(s, take);
    forall w | w in t.workers
      ensures t.workers[w].takes == |TakesOf(t.waiters, w)| && t.workers[w].takes <= t.workers[w].concurrency
    {
      assert w == s.waiters[take].worker ==> take in TakesOf(s.waiters, w);
      TakesOfRemove(s.waiters, take, w);
    }
  }

  lemma EndTakeShape(s: State, take: nat)
    ensures OnlyTakes(s, EndTake(s, take)) && NoneParked(s, EndTake(s, take))
  {
  }

  lemma EndTakeInv(s: State, take: nat)
    requires Inv(s)
    ensures Inv(EndTake(s, take))
    ensures take in s.waiters && s.waiters[take].worker in s.workers ==> s.workers[s.waiters[take].worker].takes > 0
  {
    if take in s.waiters {
      assert take in TakesOf(s.waiters, s.waiters[take].worker);
      EndTakeCounts(s, take);
      EndTakeShape(s, take);
      OnlyTakesInv(s, EndTake(s, take));
    }
  }
}
