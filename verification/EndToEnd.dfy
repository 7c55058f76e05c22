/**
 The cluster client and the brokers it talks to, in one machine: the pool's steps, any number of broker
 processes with everything that goes on in them, and the one frame each attempt puts on the wire. A frame
 may reach its broker late, after its client has failed, or never; a broker may die and be replaced by an
 empty one at any time.
 */
module EndToEnd {
  import opened Basics
  import Cluster
  import ClusterRuns
  import Scheduler
  import SchedulerInvariant
  import SchedulerRuns

  /** A broker process, as the run of its scheduler so far. */
  datatype Process = Process(worlds: seq<SchedulerRuns.World>, steps: seq<SchedulerRuns.Step>)

  /** What has become of an attempt's frame, which asks for an answer within `timeoutMs`: still on its way to
      a process, refused by that process before anything was accepted, or accepted there as call `id` by
      the process's step `at`. */
  datatype Mail =
    | Travelling(process: nat, timeoutMs: int) | Refused(code: nat) | Accepted(process: nat, at: nat, id: nat)

  /** `wire` is the process each client was connected to; `attempts` the operations each request started,
      in order. */
  datatype State = State(
    pool: Cluster.State, processes: seq<Process>, wire: map<nat, nat>, mail: map<nat, Mail>,
    attempts: seq<seq<nat>>)

  datatype Step =
    | Starting(maxCalls: nat, maxBytes: nat, clock: int)       // a broker process comes up, empty
    | Connecting(node: nat, client: nat, process: nat)         // the pool reaches one
    | Trying(request: nat, now: real)                          // a request may start an attempt
    | Arriving(flight: nat, work: SchedulerRuns.Step)          // an attempt's frame reaches the scheduler
    | Bouncing(flight: nat, code: nat)                         // or the connection's own checks refuse it
    | Working(process: nat, work: SchedulerRuns.Step)          // anything else in a broker
    | Replying(flight: nat, outcome: Cluster.Outcome)          // the response to an attempt arrives
    | Pooling(step: Cluster.Step)                              // anything else in the pool

  function Now(p: Process): SchedulerRuns.World
    requires p.worlds != []
  {
    Last(p.worlds)
  }

  ghost function Did(p: Process, step: SchedulerRuns.Step): Process
    requires p.worlds != []
  {
    Process(p.worlds + [SchedulerRuns.Next(Now(p), step)], p.steps + [step])
  }

  ghost predicate Able(processes: seq<Process>, p: nat, step: SchedulerRuns.Step) {
    p < |processes| && processes[p].worlds != [] && SchedulerRuns.Enabled(Now(processes[p]), step)
  }

  /** What the scheduler makes of the frame, in the step that reads it. */
  ghost function Delivered(processes: seq<Process>, p: nat, step: SchedulerRuns.Step): Mail
    requires Able(processes, p, step) && step.Requesting?
  {
    var s := Now(processes[p]).state;
    match Scheduler.Request(s, step.caller, step.route, step.timeoutMs, step.payload, step.now1, step.now2).1
    case Rejected(code) => Refused(code)
    case Accepted(id, _) => Accepted(p, |processes[p].steps|, id)
  }

  /** The process has answered this frame so. */
  ghost predicate Says(processes: seq<Process>, mail: Mail, outcome: Cluster.Outcome) {
    match mail
    case Travelling(_, _) => false
    case Refused(code) => outcome == Cluster.Broker(code)
    case Accepted(p, _, id) => Answered(processes, p, id, outcome)
  }

  ghost predicate Answered(processes: seq<Process>, p: nat, id: nat, outcome: Cluster.Outcome) {
    && p < |processes| && processes[p].worlds != [] && id in Now(processes[p]).state.sent
    && match Now(processes[p]).state.sent[id]
       case Success(_) => outcome == Cluster.Reply
       case Failure(code, _) => outcome == Cluster.Broker(code)
  }

  /** The attempt a `Try` started, if it started one. */
  ghost predicate Attempted(s: State, r: nat, t: State) {
    var f := s.pool.next;
    if t.pool.next == f then t == s.(pool := t.pool)
    else
      && r < |s.attempts| && r < |t.pool.requests| && t.pool.requests[r].waits != []
      && f in t.pool.flights && t.pool.flights[f].client in s.wire
      && var frame := Travelling(s.wire[t.pool.flights[f].client], Last(t.pool.requests[r].waits));
         t == s.(pool := t.pool, attempts := s.attempts[r := s.attempts[r] + [f]], mail := s.mail[f := frame])
  }

  ghost predicate Next(s: State, step: Step, t: State) {
    match step
    case Starting(maxCalls, maxBytes, clock) =>
      t == s.(processes := s.processes
                + [Process([SchedulerRuns.World(Scheduler.Fresh(maxCalls, maxBytes), clock, {})], [])])
    case Connecting(n, c, p) =>
      && p < |s.processes| && Cluster.Next(s.pool, Cluster.Connect(n, c), t.pool)
      && t == s.(pool := t.pool, wire := s.wire[c := p])
    case Trying(r, now) => Cluster.Next(s.pool, Cluster.Try(r, now), t.pool) && Attempted(s, r, t)
    case Arriving(f, work) =>
      && f in s.mail && s.mail[f].Travelling? && Able(s.processes, s.mail[f].process, work)
      && work.Requesting? && work.timeoutMs == s.mail[f].timeoutMs
      && var p := s.mail[f].process;
         t == s.(processes := s.processes[p := Did(s.processes[p], work)],
                 mail := s.mail[f := Delivered(s.processes, p, work)])
    case Bouncing(f, code) => f in s.mail && s.mail[f].Travelling? && t == s.(mail := s.mail[f := Refused(code)])
    case Working(p, work) =>
      Able(s.processes, p, work) && t == s.(processes := s.processes[p := Did(s.processes[p], work)])
    case Replying(f, outcome) =>
      && f in s.mail && Says(s.processes, s.mail[f], outcome)
      && Cluster.Next(s.pool, Cluster.Settle(f, outcome), t.pool) && t == s.(pool := t.pool)
    case Pooling(move) =>
      && !move.Try? && !move.Connect? && (move.Settle? ==> move.flight !in s.mail)
      && Cluster.Next(s.pool, move, t.pool)
      && t == s.(pool := t.pool, attempts := if move.Begin? then s.attempts + [[]] else s.attempts)
  }

  // ---------------------------------------------------------------- what every step keeps

  /** An outcome a request may go on or answer with says what happened to its frame. */
  ghost predicate Truth(processes: seq<Process>, mail: Mail, outcome: Cluster.Outcome) {
    && (ClusterRuns.Refused(outcome) ==> mail.Refused?)
    && (outcome.Reply? ==> mail.Accepted? && Answered(processes, mail.process, mail.id, outcome))
  }

  ghost predicate TrueFlights(s: State) {
    forall f :: f in s.pool.flights && f in s.mail && s.pool.flights[f].outcome.Some? ==>
      Truth(s.processes, s.mail[f], s.pool.flights[f].outcome.value)
  }

  ghost predicate Listed(request: Cluster.Request, flights: seq<nat>) {
    && |flights| == |request.tried|
    && (request.phase.Flying? ==> flights != [] && Last(flights) == request.phase.flight)
  }

  ghost predicate Posted(s: State, flights: seq<nat>) {
    forall k :: 0 <= k < |flights| ==> flights[k] in s.mail
  }

  ghost predicate Lists(s: State) {
    && |s.attempts| == |s.pool.requests|
    && (forall r :: 0 <= r < |s.attempts| ==> Listed(s.pool.requests[r], s.attempts[r]) && Posted(s, s.attempts[r]))
    && (forall f :: f in s.mail ==> f < s.pool.next)
  }

  /** The outcomes of one request are true of the frames of its attempts. */
  ghost predicate TrueOutcomes(s: State, outcomes: seq<Cluster.Outcome>, flights: seq<nat>) {
    forall k :: 0 <= k < |outcomes| && k < |flights| && flights[k] in s.mail ==>
      Truth(s.processes, s.mail[flights[k]], outcomes[k])
  }

  ghost predicate TrueRequests(s: State) {
    forall r :: 0 <= r < |s.attempts| && r < |s.pool.requests| ==>
      TrueOutcomes(s, s.pool.requests[r].outcomes, s.attempts[r])
  }

  /** The broker was asked for an answer within the time the attempt had. */
  ghost predicate InTime(processes: seq<Process>, mail: Mail, wait: int) {
    match mail
    case Travelling(_, timeoutMs) => timeoutMs == wait
    case Refused(_) => true
    case Accepted(p, at, _) =>
      && p < |processes| && at < |processes[p].steps| && processes[p].steps[at].Requesting?
      && processes[p].steps[at].timeoutMs == wait
  }

  ghost predicate InTimes(s: State, waits: seq<int>, flights: seq<nat>) {
    forall k :: 0 <= k < |waits| && k < |flights| && flights[k] in s.mail ==>
      InTime(s.processes, s.mail[flights[k]], waits[k])
  }

  ghost predicate Timed(s: State) {
    forall r :: 0 <= r < |s.attempts| && r < |s.pool.requests| ==> InTimes(s, s.pool.requests[r].waits, s.attempts[r])
  }

  ghost predicate Processes(processes: seq<Process>) {
    forall p :: 0 <= p < |processes| ==> SchedulerRuns.IsRun(processes[p].worlds, processes[p].steps)
  }

  /** Accepted means accepted: by that step of that process, under that id. */
  ghost predicate Real(processes: seq<Process>, mail: Mail) {
    match mail
    case Travelling(p, _) => p < |processes|
    case Refused(_) => true
    case Accepted(p, at, id) =>
      && p < |processes| && at < |processes[p].steps| && |processes[p].worlds| == |processes[p].steps| + 1
      && SchedulerRuns.AcceptedId(processes[p].worlds[at].state, processes[p].steps[at]) == Some(id)
  }

  ghost predicate Wires(s: State) {
    && (forall f :: f in s.mail ==> Real(s.processes, s.mail[f]))
    && (forall c :: c in s.wire ==> s.wire[c] < |s.processes|)
  }

  ghost predicate Inv(s: State) {
    && ClusterRuns.Inv(s.pool) && Processes(s.processes)
    && Lists(s) && TrueFlights(s) && TrueRequests(s) && Timed(s) && Wires(s)
  }

  // ---------------------------------------------------------------- processes only go on

  /** No process forgets a step or a reply. */
  ghost predicate GoOn(before: seq<Process>, after: seq<Process>) {
    && |before| <= |after|
    && forall p :: 0 <= p < |before| ==> Follows(before[p], after[p])
  }

  ghost predicate Follows(before: Process, after: Process) {
    && before.worlds <= after.worlds && before.steps <= after.steps
    && (before.worlds != [] ==>
          forall id :: id in Now(before).state.sent ==>
            id in Now(after).state.sent && Now(after).state.sent[id] == Now(before).state.sent[id])
  }

  lemma DidFollows(p: Process, step: SchedulerRuns.Step)
    requires SchedulerRuns.IsRun(p.worlds, p.steps) && SchedulerRuns.Enabled(Now(p), step)
    ensures SchedulerRuns.IsRun(Did(p, step).worlds, Did(p, step).steps) && Follows(p, Did(p, step))
  {
    hide SchedulerRuns.Enabled, SchedulerRuns.Effect, SchedulerRuns.Fate, Scheduler.Inv;
    var q := Did(p, step);
    forall i | 0 <= i < |q.steps|
      ensures SchedulerRuns.Enabled(q.worlds[i], q.steps[i])
              && q.worlds[i + 1] == SchedulerRuns.Next(q.worlds[i], q.steps[i])
    {
      assert i < |p.steps| ==> q.worlds[i] == p.worlds[i] && q.steps[i] == p.steps[i];
    }
    SchedulerRuns.RunKeepsInvariant(p.worlds, p.steps, |p.steps|);
    forall id | id in Now(p).state.sent
      ensures id in Now(q).state.sent && Now(q).state.sent[id] == Now(p).state.sent[id]
    {
      SentStays(Now(p).state, step, id);
    }
  }

  lemma SentStays(s: Scheduler.State, step: SchedulerRuns.Step, id: nat)
    requires Scheduler.Inv(s) && id in s.sent
    ensures var t := SchedulerRuns.Effect(s, step); id in t.sent && t.sent[id] == s.sent[id]
  {
    hide SchedulerRuns.Effect, SchedulerRuns.Licence;
    SchedulerRuns.StepFate(s, step, id);
  }

  lemma TruthStays(before: seq<Process>, after: seq<Process>, mail: Mail, outcome: Cluster.Outcome)
    requires GoOn(before, after) && Truth(before, mail, outcome)
    ensures Truth(after, mail, outcome)
  {
    if outcome.Reply? {
      assert Follows(before[mail.process], after[mail.process]);
    }
  }

  /** Nothing was claimed of a frame that is still travelling, so nothing can turn out false. */
  lemma TruthArrives(processes: seq<Process>, frame: Mail, mail: Mail, outcome: Cluster.Outcome)
    requires frame.Travelling? && Truth(processes, frame, outcome)
    ensures Truth(processes, mail, outcome)
  {
  }

  lemma RealStays(before: seq<Process>, after: seq<Process>, mail: Mail)
    requires GoOn(before, after) && Processes(after) && Real(before, mail)
    ensures Real(after, mail)
  {
    hide SchedulerRuns.AcceptedId, SchedulerRuns.Enabled, SchedulerRuns.Effect;
    if mail.Accepted? {
      assert Follows(before[mail.process], after[mail.process]);
      assert SchedulerRuns.IsRun(after[mail.process].worlds, after[mail.process].steps);
    }
  }

  // ---------------------------------------------------------------- the brokers' side

  /** Only frames that were travelling change. */
  ghost predicate MailGoesOn(before: State, after: State) {
    && after.mail.Keys == before.mail.Keys
    && forall f :: f in before.mail ==>
         after.mail[f] == before.mail[f]
         || (&& before.mail[f].Travelling? && Real(after.processes, after.mail[f])
             && InTime(after.processes, after.mail[f], before.mail[f].timeoutMs))
  }

  lemma BrokersInv(s: State, t: State)
    requires Inv(s) && t == s.(processes := t.processes, mail := t.mail)
    requires GoOn(s.processes, t.processes) && Processes(t.processes) && MailGoesOn(s, t)
    ensures Inv(t)
  {
    hide ClusterRuns.Inv, GoOn, Processes, Truth, Real, Listed, InTime;
    forall f, wait | f in s.mail && InTime(s.processes, s.mail[f], wait) ensures InTime(t.processes, t.mail[f], wait) {
      InTimeGoesOn(s, t, f, wait);
    }
    forall f, outcome | f in s.mail && Truth(s.processes, s.mail[f], outcome)
      ensures Truth(t.processes, t.mail[f], outcome)
    {
      TruthGoesOn(s, t, f, outcome);
    }
    forall f | f in t.mail ensures Real(t.processes, t.mail[f]) {
      assert Real(s.processes, s.mail[f]);
      if t.mail[f] == s.mail[f] {
        RealStays(s.processes, t.processes, s.mail[f]);
      }
    }
    assert forall r :: 0 <= r < |s.attempts| ==> Posted(s, s.attempts[r]) && Posted(t, t.attempts[r]);
    forall r | 0 <= r < |s.attempts| && r < |s.pool.requests|
      ensures TrueOutcomes(t, t.pool.requests[r].outcomes, t.attempts[r])
    {
      assert TrueOutcomes(s, s.pool.requests[r].outcomes, s.attempts[r]);
    }
    forall r | 0 <= r < |s.attempts| && r < |s.pool.requests|
      ensures InTimes(t, t.pool.requests[r].waits, t.attempts[r])
    {
      assert InTimes(s, s.pool.requests[r].waits, s.attempts[r]);
    }
    GoOnLength(s.processes, t.processes);
  }

  lemma GoOnLength(before: seq<Process>, after: seq<Process>)
    requires GoOn(before, after)
    ensures |before| <= |after|
  {
    hide Follows;
  }

  lemma TruthGoesOn(s: State, t: State, f: nat, outcome: Cluster.Outcome)
    requires GoOn(s.processes, t.processes) && MailGoesOn(s, t) && f in s.mail
    requires Truth(s.processes, s.mail[f], outcome)
    ensures Truth(t.processes, t.mail[f], outcome)
  {
    hide GoOn, Truth, Real;
    TruthStays(s.processes, t.processes, s.mail[f], outcome);
    if t.mail[f] != s.mail[f] {
      TruthArrives(t.processes, s.mail[f], t.mail[f], outcome);
    }
  }

  lemma InTimeGoesOn(s: State, t: State, f: nat, wait: int)
    requires GoOn(s.processes, t.processes) && MailGoesOn(s, t) && f in s.mail
    requires InTime(s.processes, s.mail[f], wait)
    ensures InTime(t.processes, t.mail[f], wait)
  {
    hide Real;
    if s.mail[f].Accepted? {
      assert Follows(s.processes[s.mail[f].process], t.processes[s.mail[f].process]);
    }
  }

  lemma WorkGoesOn(processes: seq<Process>, p: nat, work: SchedulerRuns.Step)
    requires Processes(processes) && Able(processes, p, work)
    ensures var after := processes[p := Did(processes[p], work)]; GoOn(processes, after) && Processes(after)
  {
    hide SchedulerRuns.IsRun, SchedulerRuns.Enabled, Did, Follows;
    DidFollows(processes[p], work);
    forall q | 0 <= q < |processes| ensures Follows(processes[q], processes[p := Did(processes[p], work)][q]) {
      FollowsItself(processes[q]);
    }
  }

  lemma FollowsItself(p: Process)
    ensures Follows(p, p)
  {
  }

  lemma GoOnItself(processes: seq<Process>)
    ensures GoOn(processes, processes)
  {
    hide Follows;
    forall p | 0 <= p < |processes| ensures Follows(processes[p], processes[p]) {
      FollowsItself(processes[p]);
    }
  }

  lemma DeliveredIsReal(processes: seq<Process>, p: nat, work: SchedulerRuns.Step)
    requires Processes(processes) && Able(processes, p, work) && work.Requesting?
    ensures var after := processes[p := Did(processes[p], work)];
            && !Delivered(processes, p, work).Travelling? && Real(after, Delivered(processes, p, work))
            && InTime(after, Delivered(processes, p, work), work.timeoutMs)
  {
    hide SchedulerRuns.Enabled, SchedulerRuns.Effect, Scheduler.Request, SchedulerRuns.IsRun;
    RunLengths(processes[p]);
    assert SchedulerRuns.IsRun(processes[p].worlds, processes[p].steps);
    var s := Now(processes[p]).state;
    IdHandedOut(s, work);
  }

  lemma RunLengths(p: Process)
    requires SchedulerRuns.IsRun(p.worlds, p.steps)
    ensures |p.worlds| == |p.steps| + 1
  {
    hide SchedulerRuns.Enabled, SchedulerRuns.Effect;
  }

  lemma IdHandedOut(s: Scheduler.State, work: SchedulerRuns.Step)
    requires work.Requesting?
    ensures match Scheduler.Request(s, work.caller, work.route, work.timeoutMs, work.payload, work.now1, work.now2).1
            case Rejected(_) => true
            case Accepted(id, _) => SchedulerRuns.AcceptedId(s, work) == Some(id)
  {
    SchedulerInvariant.RequestCases(s, work.caller, work.route, work.timeoutMs, work.payload, work.now1, work.now2);
  }

  lemma BrokerStepInv(s: State, step: Step, t: State)
    requires Inv(s) && Next(s, step, t)
    requires step.Starting? || step.Arriving? || step.Bouncing? || step.Working?
    ensures Inv(t)
  {
    hide Inv, Delivered, Did, Able, GoOn, Processes, Real, InTime;
    InvParts(s);
    match step {
      case Starting(maxCalls, maxBytes, clock) => StartGoesOn(s, t, maxCalls, maxBytes, clock);
      case Arriving(f, work) =>
        WorkGoesOn(s.processes, s.mail[f].process, work);
        DeliveredIsReal(s.processes, s.mail[f].process, work);
      case Bouncing(f, code) =>
        GoOnItself(s.processes);
        RefusedIsReal(t.processes, code);
      case Working(p, work) => WorkGoesOn(s.processes, p, work);
    }
    BrokersInv(s, t);
  }

  lemma InvParts(s: State)
    requires Inv(s)
    ensures Processes(s.processes)
  {
  }

  lemma RefusedIsReal(processes: seq<Process>, code: nat)
    ensures Real(processes, Refused(code)) && forall wait :: InTime(processes, Refused(code), wait)
  {
  }

  lemma StartGoesOn(s: State, t: State, maxCalls: nat, maxBytes: nat, clock: int)
    requires Processes(s.processes) && Next(s, Starting(maxCalls, maxBytes, clock), t)
    ensures GoOn(s.processes, t.processes) && Processes(t.processes)
  {
    hide Follows, SchedulerRuns.IsRun;
    GoOnItself(s.processes);
    var p := t.processes[|s.processes|];
    assert SchedulerRuns.IsRun(p.worlds, p.steps) by {
      FreshRun(maxCalls, maxBytes, clock);
    }
  }

  lemma FreshRun(maxCalls: nat, maxBytes: nat, clock: int)
    ensures SchedulerRuns.IsRun([SchedulerRuns.World(Scheduler.Fresh(maxCalls, maxBytes), clock, {})], [])
  {
  }

  // ---------------------------------------------------------------- the pool's side

  /** A request that starts nothing: at most the outcome of its attempt is noted. */
  ghost predicate Keeps(s: Cluster.State, q: Cluster.Request, after: Cluster.Request) {
    && after.tried == q.tried && after.waits == q.waits && (after.phase.Flying? ==> after.phase == q.phase)
    && (|| after.outcomes == q.outcomes
        || (&& q.phase.Flying? && q.phase.flight in s.flights && s.flights[q.phase.flight].outcome.Some?
            && after.outcomes == q.outcomes + [s.flights[q.phase.flight].outcome.value]))
  }

  ghost predicate Starts(q: Cluster.Request, after: Cluster.Request, f: nat) {
    && |after.tried| == |q.tried| + 1 && |after.waits| == |q.waits| + 1 && q.waits <= after.waits
    && after.phase == Cluster.Flying(f) && after.outcomes == q.outcomes
  }

  ghost predicate Fresh(q: Cluster.Request) {
    q.tried == [] && q.waits == [] && q.outcomes == [] && q.phase.Choosing?
  }

  /** The requests after a step: one may have started an attempt, one may be new, all others keep. */
  ghost predicate RequestsGoOn(s: Cluster.State, step: Cluster.Step, t: Cluster.State) {
    && |t.requests| == |s.requests| + (if step.Begin? then 1 else 0)
    && (step.Begin? ==> Fresh(Last(t.requests)))
    && (forall r :: 0 <= r < |s.requests| ==>
          Keeps(s, s.requests[r], t.requests[r])
          || (step.Try? && step.request == r && t.next == s.next + 1 && Starts(s.requests[r], t.requests[r], s.next)))
    && (step.Try? && t.next != s.next ==>
          step.request < |s.requests| && Starts(s.requests[step.request], t.requests[step.request], s.next))
    && s.next <= t.next
  }

  /** The operations in flight after a step. */
  ghost predicate FlightsGoOn(s: Cluster.State, step: Cluster.Step, t: Cluster.State) {
    forall f :: f in t.flights ==>
      || (f == s.next && t.flights[f].outcome in {None, Some(Cluster.Backpressure)})
      || (&& f in s.flights
          && (|| t.flights[f].outcome == s.flights[f].outcome || t.flights[f].outcome == Some(Cluster.Lost)
              || (step.Settle? && step.flight == f && t.flights[f].outcome == Some(step.outcome))))
  }

  lemma TryGoesOn(s: Cluster.State, r: nat, t: Cluster.State)
    requires r < |s.requests| && s.requests[r].phase.Choosing? && Cluster.Tries(s, r, t)
    ensures RequestsGoOn(s, Cluster.Try(r, s.now), t) && FlightsGoOn(s, Cluster.Try(r, s.now), t)
    ensures t.next == s.next ==> t.flights == s.flights
    ensures t.next != s.next ==> s.next in t.flights
  {
    hide Cluster.GiveUp, Cluster.Table, Cluster.Turn, Ceil;
    if |s.requests[r].tried| >= |s.nodes| || (forall n: nat :: !Cluster.Eligible(s, s.requests[r].tried, n)) {
    } else {
      var n: nat :| Cluster.Chosen(s, s.requests[r].tried, n) && Cluster.Attempts(s, r, n, t);
    }
  }

  lemma StepGoesOn(s: Cluster.State, step: Cluster.Step, t: Cluster.State)
    requires Cluster.Next(s, step, t)
    ensures RequestsGoOn(s, step, t) && FlightsGoOn(s, step, t)
    ensures step.Try? && t.next != s.next ==> s.next in t.flights
  {
    hide Cluster.Tries, Cluster.Table, RequestsGoOn, FlightsGoOn;
    if step.Try? {
      TryGoesOn(s.(now := step.now), step.request, t);
      ClockOnly(s, step, t);
    } else {
      OtherRequests(s, step, t);
      OtherFlights(s, step, t);
    }
  }

  lemma ClockOnly(s: Cluster.State, step: Cluster.Step, t: Cluster.State)
    requires step.Try?
    requires var u := s.(now := step.now);
             RequestsGoOn(u, Cluster.Try(step.request, u.now), t) && FlightsGoOn(u, Cluster.Try(step.request, u.now), t)
    ensures RequestsGoOn(s, step, t) && FlightsGoOn(s, step, t)
  {
  }

  lemma OtherRequests(s: Cluster.State, step: Cluster.Step, t: Cluster.State)
    requires Cluster.Next(s, step, t) && !step.Try?
    ensures RequestsGoOn(s, step, t)
  {
    hide Cluster.Table, Cluster.Retired, Cluster.Closed;
  }

  lemma OtherFlights(s: Cluster.State, step: Cluster.Step, t: Cluster.State)
    requires Cluster.Next(s, step, t) && !step.Try?
    ensures FlightsGoOn(s, step, t)
  {
    hide Cluster.Table, Cluster.Retired;
  }

  /** What a step of the pool does to the lists of attempts and to the mail. */
  ghost predicate ListsGoOn(s: State, step: Cluster.Step, t: State) {
    && t.processes == s.processes
    && if step.Try? && t.pool.next != s.pool.next then
         && step.request < |s.attempts| && s.pool.next in t.mail
         && t.mail[s.pool.next].Travelling? && t.mail[s.pool.next].process < |s.processes|
         && step.request < |t.pool.requests| && t.pool.requests[step.request].waits != []
         && t.mail[s.pool.next].timeoutMs == Last(t.pool.requests[step.request].waits)
         && t.mail == s.mail[s.pool.next := t.mail[s.pool.next]]
         && t.attempts == s.attempts[step.request := s.attempts[step.request] + [s.pool.next]]
       else
         t.mail == s.mail && t.attempts == if step.Begin? then s.attempts + [[]] else s.attempts
  }

  lemma ListsStay(s: State, step: Cluster.Step, t: State)
    requires Lists(s) && ListsGoOn(s, step, t) && RequestsGoOn(s.pool, step, t.pool)
    ensures Lists(t)
  {
    forall r | 0 <= r < |t.attempts| ensures Listed(t.pool.requests[r], t.attempts[r]) && Posted(t, t.attempts[r]) {
      if r < |s.attempts| {
        assert Listed(s.pool.requests[r], s.attempts[r]) && Posted(s, s.attempts[r]);
      }
    }
  }

  lemma FlightsStayTrue(s: State, step: Cluster.Step, t: State)
    requires Lists(s) && TrueFlights(s) && ListsGoOn(s, step, t) && FlightsGoOn(s.pool, step, t.pool)
    requires s.pool.next !in s.pool.flights
    requires step.Settle? && step.flight in s.mail ==> Truth(s.processes, s.mail[step.flight], step.outcome)
    ensures TrueFlights(t)
  {
    hide Listed, Posted, Answered;
    forall f | f in t.pool.flights && f in t.mail && t.pool.flights[f].outcome.Some?
      ensures Truth(t.processes, t.mail[f], t.pool.flights[f].outcome.value)
    {
      if f != s.pool.next {
        assert f in s.pool.flights && t.mail[f] == s.mail[f];
      }
    }
  }

  lemma RequestsStayTrue(s: State, step: Cluster.Step, t: State)
    requires Lists(s) && TrueFlights(s) && TrueRequests(s) && ListsGoOn(s, step, t)
    requires RequestsGoOn(s.pool, step, t.pool) && ClusterRuns.Histories(s.pool)
    ensures TrueRequests(t)
  {
    hide Truth, ListsGoOn, Lists, TrueFlights, ClusterRuns.History;
    MailStays(s, step, t);
    forall r | 0 <= r < |t.attempts| && r < |t.pool.requests|
      ensures TrueOutcomes(t, t.pool.requests[r].outcomes, t.attempts[r])
    {
      if r < |s.pool.requests| {
        RequestStaysTrue(s, step, t, r);
      }
    }
  }

  lemma MailStays(s: State, step: Cluster.Step, t: State)
    requires ListsGoOn(s, step, t) && Lists(s)
    ensures forall f :: f in s.mail ==> f in t.mail && t.mail[f] == s.mail[f]
    ensures |t.attempts| == |s.attempts| + (if step.Begin? then 1 else 0)
  {
    hide Listed, Posted;
  }

  lemma RequestStaysTrue(s: State, step: Cluster.Step, t: State, r: nat)
    requires Lists(s) && TrueFlights(s) && TrueRequests(s) && ListsGoOn(s, step, t)
    requires RequestsGoOn(s.pool, step, t.pool) && ClusterRuns.Histories(s.pool) && r < |s.pool.requests|
    ensures r < |t.attempts| && TrueOutcomes(t, t.pool.requests[r].outcomes, t.attempts[r])
  {
    hide Truth, ClusterRuns.Explained, ClusterRuns.NonIncreasing, Ceil;
    var q, after := s.pool.requests[r], t.pool.requests[r];
    assert ClusterRuns.History(q, |s.pool.nodes|, s.pool.now);
    assert TrueOutcomes(s, q.outcomes, s.attempts[r]);
    assert Listed(q, s.attempts[r]) && Posted(s, s.attempts[r]);
    MailStays(s, step, t);
    forall k | 0 <= k < |after.outcomes| && k < |t.attempts[r]| && t.attempts[r][k] in t.mail
      ensures Truth(t.processes, t.mail[t.attempts[r][k]], after.outcomes[k])
    {
      assert t.attempts[r][k] == s.attempts[r][k];
      if k < |q.outcomes| {
        assert after.outcomes[k] == q.outcomes[k];
      }
    }
  }

  lemma RequestsStayTimed(s: State, step: Cluster.Step, t: State)
    requires Lists(s) && Timed(s) && ListsGoOn(s, step, t)
    requires RequestsGoOn(s.pool, step, t.pool) && ClusterRuns.Histories(s.pool)
    ensures Timed(t)
  {
    hide InTime, ListsGoOn, Lists, ClusterRuns.History, Keeps, Starts;
    MailStays(s, step, t);
    forall r | 0 <= r < |t.attempts| && r < |t.pool.requests|
      ensures InTimes(t, t.pool.requests[r].waits, t.attempts[r])
    {
      if r < |s.pool.requests| {
        RequestStaysTimed(s, step, t, r);
      }
    }
  }

  lemma RequestStaysTimed(s: State, step: Cluster.Step, t: State, r: nat)
    requires Lists(s) && Timed(s) && ListsGoOn(s, step, t)
    requires RequestsGoOn(s.pool, step, t.pool) && ClusterRuns.Histories(s.pool) && r < |s.pool.requests|
    ensures r < |t.attempts| && InTimes(t, t.pool.requests[r].waits, t.attempts[r])
  {
    hide ClusterRuns.Explained, ClusterRuns.NonIncreasing, ClusterRuns.Refused, Ceil;
    var q, after := s.pool.requests[r], t.pool.requests[r];
    assert ClusterRuns.History(q, |s.pool.nodes|, s.pool.now);
    assert Listed(q, s.attempts[r]) && Posted(s, s.attempts[r]) && InTimes(s, q.waits, s.attempts[r]);
    MailStays(s, step, t);
    forall k | 0 <= k < |after.waits| && k < |t.attempts[r]| && t.attempts[r][k] in t.mail
      ensures InTime(t.processes, t.mail[t.attempts[r][k]], after.waits[k])
    {
      if k < |q.waits| {
        assert t.attempts[r][k] == s.attempts[r][k] && after.waits[k] == q.waits[k];
      }
    }
  }

  lemma SaysIsTrue(processes: seq<Process>, mail: Mail, outcome: Cluster.Outcome)
    requires Says(processes, mail, outcome)
    requires mail.Accepted? ==> mail.process < |processes| && processes[mail.process].worlds != []
    requires mail.Accepted? ==> Scheduler.RepliesFinal(Now(processes[mail.process]).state)
    ensures Truth(processes, mail, outcome)
  {
  }

  lemma WiresStay(s: State, step: Cluster.Step, t: State)
    requires Wires(s) && ListsGoOn(s, step, t) && forall c :: c in t.wire ==> t.wire[c] < |t.processes|
    ensures Wires(t)
  {
    forall f | f in t.mail ensures Real(t.processes, t.mail[f]) {
      assert f in s.mail ==> Real(s.processes, s.mail[f]);
    }
  }

  lemma PoolInv(s: State, step: Cluster.Step, t: State)
    requires Inv(s) && Cluster.Next(s.pool, step, t.pool) && ListsGoOn(s, step, t)
    requires forall c :: c in t.wire ==> t.wire[c] < |t.processes|
    requires step.Settle? && step.flight in s.mail ==> Truth(s.processes, s.mail[step.flight], step.outcome)
    ensures Inv(t)
  {
    hide Cluster.Next, ListsGoOn, RequestsGoOn, FlightsGoOn, Lists, TrueFlights, TrueRequests, Timed, Wires, Truth,
      Processes, ClusterRuns.Histories, ClusterRuns.Owners, ClusterRuns.Slots, ClusterRuns.Outcomes;
    ClusterRuns.StepInv(s.pool, step, t.pool);
    ClusterRuns.NextFree(s.pool);
    StepGoesOn(s.pool, step, t.pool);
    ListsStay(s, step, t);
    FlightsStayTrue(s, step, t);
    RequestsStayTrue(s, step, t);
    RequestsStayTimed(s, step, t);
    WiresStay(s, step, t);
    ProcessesSame(s, step, t);
  }

  lemma ProcessesSame(s: State, step: Cluster.Step, t: State)
    requires ListsGoOn(s, step, t)
    ensures t.processes == s.processes
  {
  }

  lemma SettledIsTrue(s: State, f: nat, outcome: Cluster.Outcome)
    requires Inv(s) && f in s.mail && Says(s.processes, s.mail[f], outcome)
    ensures Truth(s.processes, s.mail[f], outcome)
  {
    hide ClusterRuns.Inv, Lists, TrueFlights, TrueRequests, Timed, Says, Truth, SchedulerRuns.IsRun,
      SchedulerRuns.AcceptedId;
    var mail := s.mail[f];
    assert Real(s.processes, mail);
    if mail.Accepted? {
      var p := s.processes[mail.process];
      assert SchedulerRuns.IsRun(p.worlds, p.steps);
      SchedulerRuns.RunKeepsInvariant(p.worlds, p.steps, |p.steps|);
      RepliesOf(Now(p).state);
    }
    SaysIsTrue(s.processes, mail, outcome);
  }

  lemma RepliesOf(s: Scheduler.State)
    requires Scheduler.Inv(s)
    ensures Scheduler.RepliesFinal(s)
  {
  }

  lemma PoolStepInv(s: State, step: Step, t: State)
    requires Inv(s) && Next(s, step, t)
    requires step.Connecting? || step.Trying? || step.Replying? || step.Pooling?
    ensures Inv(t)
  {
    hide Inv, Cluster.Next, Says, Truth, Real;
    WiresOf(s);
    match step {
      case Connecting(n, c, p) => PoolInv(s, Cluster.Connect(n, c), t);
      case Trying(r, now) => PoolInv(s, Cluster.Try(r, now), t);
      case Replying(f, outcome) =>
        SettledIsTrue(s, f, outcome);
        PoolInv(s, Cluster.Settle(f, outcome), t);
      case Pooling(move) => PoolInv(s, move, t);
    }
  }

  lemma WiresOf(s: State)
    requires Inv(s)
    ensures forall c :: c in s.wire ==> s.wire[c] < |s.processes|
  {
    hide ClusterRuns.Inv, Lists, TrueFlights, TrueRequests, Timed, Processes, Real;
  }

  lemma StepInv(s: State, step: Step, t: State)
    requires Inv(s) && Next(s, step, t)
    ensures Inv(t)
  {
    hide Inv, Next;
    if step.Connecting? || step.Trying? || step.Replying? || step.Pooling? {
      PoolStepInv(s, step, t);
    } else {
      BrokerStepInv(s, step, t);
    }
  }

  // ---------------------------------------------------------------- whole runs

  function Start(nodes: nat): State {
    State(ClusterRuns.Start(nodes), [], map[], map[], [])
  }

  ghost predicate IsRun(states: seq<State>, steps: seq<Step>, nodes: nat) {
    && 1 <= nodes <= 8 && |states| == |steps| + 1 && states[0] == Start(nodes)
    && forall i :: 0 <= i < |steps| ==> Next(states[i], steps[i], states[i + 1])
  }

  lemma {:induction false} RunInv(states: seq<State>, steps: seq<Step>, nodes: nat, i: nat)
    requires IsRun(states, steps, nodes) && i < |states|
    ensures Inv(states[i])
  {
    hide Inv, Next, ClusterRuns.Start;
    if i == 0 {
      StartInv(nodes);
    } else {
      RunInv(states, steps, nodes, i - 1);
      StepInv(states[i - 1], steps[i - 1], states[i]);
    }
  }

  lemma StartInv(nodes: nat)
    requires nodes > 0
    ensures Inv(Start(nodes))
  {
    hide ClusterRuns.Inv;
    ClusterRuns.StartInv(nodes);
  }

  /** At every point of every interleaving, at most one broker process, dead ones included, has accepted a
      given request, and no more than once: every attempt but the last was refused for good. */
  lemma AcceptedAtMostOnce(states: seq<State>, steps: seq<Step>, nodes: nat, i: nat, r: nat)
    requires IsRun(states, steps, nodes) && i < |states| && r < |states[i].attempts|
    ensures Posted(states[i], states[i].attempts[r]) && RefusedButLast(states[i], states[i].attempts[r])
  {
    hide Inv, Next;
    RunInv(states, steps, nodes, i);
    EarlierRefused(states[i], r);
  }

  ghost predicate RefusedButLast(s: State, flights: seq<nat>)
    requires Posted(s, flights)
  {
    forall x :: 0 <= x < |flights| - 1 ==> s.mail[flights[x]].Refused?
  }

  lemma EarlierRefused(s: State, r: nat)
    requires Inv(s) && r < |s.attempts|
    ensures Posted(s, s.attempts[r]) && RefusedButLast(s, s.attempts[r])
  {
    hide ClusterRuns.Explained, ClusterRuns.NonIncreasing, ClusterRuns.Pool, ClusterRuns.Owners, Ceil, Processes, Wires,
      Timed, TrueFlights, Answered, ClusterRuns.Refused;
    var q, flights := s.pool.requests[r], s.attempts[r];
    assert ClusterRuns.History(q, |s.pool.nodes|, s.pool.now);
    assert Listed(q, flights) && Posted(s, flights) && TrueOutcomes(s, q.outcomes, flights);
    forall x | 0 <= x < |flights| - 1 ensures s.mail[flights[x]].Refused? {
      assert ClusterRuns.Refused(q.outcomes[x]);
      assert Truth(s.processes, s.mail[flights[x]], q.outcomes[x]);
    }
  }

  /** Step `m` of process `p` handed a worker the call that one of these attempts was accepted as. */
  ghost predicate HandsOut(s: State, flights: seq<nat>, p: nat, m: nat) {
    && p < |s.processes| && m < |s.processes[p].steps| && m < |s.processes[p].worlds|
    && var job := SchedulerRuns.Dispatched(s.processes[p].worlds[m].state, s.processes[p].steps[m]);
       job.Some? && exists x :: 0 <= x < |flights| && Became(s, flights[x], p, job.value.callId)
  }

  ghost predicate Became(s: State, f: nat, p: nat, id: nat) {
    f in s.mail && s.mail[f].Accepted? && s.mail[f].process == p && s.mail[f].id == id
  }

  /** Over every run: in all broker processes together, at most one step ever hands a given request to a
      worker. */
  lemma DispatchedAtMostOnce(states: seq<State>, steps: seq<Step>, nodes: nat, i: nat, r: nat, p: nat, m: nat, q: nat,
                             n: nat)
    requires IsRun(states, steps, nodes) && i < |states| && r < |states[i].attempts|
    requires HandsOut(states[i], states[i].attempts[r], p, m) && HandsOut(states[i], states[i].attempts[r], q, n)
    ensures p == q && m == n
  {
    hide Inv, Next, SchedulerRuns.IsRun, SchedulerRuns.Dispatched;
    var s := states[i];
    RunInv(states, steps, nodes, i);
    EarlierRefused(s, r);
    InvParts(s);
    assert SchedulerRuns.IsRun(s.processes[p].worlds, s.processes[p].steps);
    if m < n {
      SchedulerRuns.DispatchOrder(s.processes[p].worlds, s.processes[p].steps, m, n);
    } else if n < m {
      SchedulerRuns.DispatchOrder(s.processes[p].worlds, s.processes[p].steps, n, m);
    }
  }

  /** Over every run: whichever broker a request ends up on, the worker is told to answer within what is
      left of the time the caller gave, over all attempts. */
  lemma DispatchedWithinTime(states: seq<State>, steps: seq<Step>, nodes: nat, i: nat, r: nat, p: nat, m: nat)
    requires IsRun(states, steps, nodes) && i < |states| && r < |states[i].attempts| == |states[i].pool.requests|
    requires HandsOut(states[i], states[i].attempts[r], p, m)
    ensures var b := states[i].processes[p];
            var job := SchedulerRuns.Dispatched(b.worlds[m].state, b.steps[m]);
            job.Some? && 1 <= job.value.remainingMs <= states[i].pool.requests[r].timeoutMs
  {
    hide Inv, Next, SchedulerRuns.IsRun, SchedulerRuns.Dispatched, SchedulerRuns.AcceptedId;
    var s := states[i];
    var b := s.processes[p];
    RunInv(states, steps, nodes, i);
    InvParts(s);
    assert SchedulerRuns.IsRun(b.worlds, b.steps);
    var job := SchedulerRuns.Dispatched(b.worlds[m].state, b.steps[m]).value;
    var x :| 0 <= x < |s.attempts[r]| && Became(s, s.attempts[r][x], p, job.callId);
    var at := AskedWithin(s, r, x);
    var j := SchedulerRuns.DispatchInTime(b.worlds, b.steps, m);
    if j < at {
      SchedulerRuns.AcceptedOnce(b.worlds, b.steps, j, at, job.callId);
    } else if at < j {
      SchedulerRuns.AcceptedOnce(b.worlds, b.steps, at, j, job.callId);
    }
  }

  lemma AskedWithin(s: State, r: nat, x: nat) returns (at: nat)
    requires Inv(s) && r < |s.attempts| && x < |s.attempts[r]|
    requires s.attempts[r][x] in s.mail && s.mail[s.attempts[r][x]].Accepted?
    ensures r < |s.pool.requests|
    ensures var mail := s.mail[s.attempts[r][x]];
            && mail.process < |s.processes|
            && var b := s.processes[mail.process];
               && at < |b.steps| && |b.worlds| == |b.steps| + 1 && b.steps[at].Requesting?
               && SchedulerRuns.AcceptedId(b.worlds[at].state, b.steps[at]) == Some(mail.id)
               && b.steps[at].timeoutMs <= s.pool.requests[r].timeoutMs
  {
    hide ClusterRuns.Explained, ClusterRuns.NonIncreasing, ClusterRuns.Pool, ClusterRuns.Owners, Ceil, Processes,
      TrueRequests, TrueFlights, ClusterRuns.Refused, SchedulerRuns.AcceptedId;
    var q, flights := s.pool.requests[r], s.attempts[r];
    assert ClusterRuns.History(q, |s.pool.nodes|, s.pool.now);
    assert Listed(q, flights) && InTimes(s, q.waits, flights);
    assert InTime(s.processes, s.mail[flights[x]], q.waits[x]) && Real(s.processes, s.mail[flights[x]]);
    at := s.mail[flights[x]].at;
  }

  /** The verdicts that tell the caller its request was not accepted anywhere. */
  ghost predicate ClaimsNothingRan(verdict: Cluster.Verdict) {
    match verdict
    case Failed(outcome) => ClusterRuns.Refused(outcome)
    case TooLate => true
    case Rejected => true
    case Unavailable => true
    case _ => false
  }

  lemma DoneStays(s: Cluster.State, step: Cluster.Step, t: Cluster.State, r: nat)
    requires Cluster.Next(s, step, t) && r < |s.requests| && s.requests[r].phase.Done?
    ensures r < |t.requests| && t.requests[r] == s.requests[r]
  {
    hide Cluster.Table, Cluster.Retired, Cluster.Closed, Cluster.GiveUp, Cluster.Turn, Ceil;
  }

  lemma FinishedStays(s: State, step: Step, t: State, r: nat)
    requires Inv(s) && Next(s, step, t) && r < |s.pool.requests| && s.pool.requests[r].phase.Done?
    ensures r < |s.attempts| && r < |t.attempts| && t.attempts[r] == s.attempts[r]
    ensures r < |t.pool.requests| && t.pool.requests[r] == s.pool.requests[r]
  {
    hide Cluster.Next, Says, ClusterRuns.Inv, Processes, TrueFlights, TrueRequests, Timed, Wires, Listed, Posted, Able,
      Delivered, Did;
    match step {
      case Connecting(n, c, p) => DoneStays(s.pool, Cluster.Connect(n, c), t.pool, r);
      case Trying(request, now) =>
        DoneStays(s.pool, Cluster.Try(request, now), t.pool, r);
        TriesChoosing(s.pool, request, now, t.pool);
      case Replying(f, outcome) => DoneStays(s.pool, Cluster.Settle(f, outcome), t.pool, r);
      case Pooling(move) => DoneStays(s.pool, move, t.pool, r);
      case _ =>
    }
  }

  lemma TriesChoosing(s: Cluster.State, r: nat, now: real, t: Cluster.State)
    requires Cluster.Next(s, Cluster.Try(r, now), t)
    ensures r < |s.requests| && s.requests[r].phase.Choosing?
  {
    hide Cluster.Tries;
  }

  lemma {:induction false} FinishedOver(states: seq<State>, steps: seq<Step>, nodes: nat, i: nat, j: nat, r: nat)
    requires IsRun(states, steps, nodes) && i <= j < |states|
    requires r < |states[i].pool.requests| && states[i].pool.requests[r].phase.Done?
    ensures r < |states[i].attempts| && r < |states[j].attempts| && states[j].attempts[r] == states[i].attempts[r]
    ensures r < |states[j].pool.requests| && states[j].pool.requests[r] == states[i].pool.requests[r]
    decreases j
  {
    hide Inv, Next;
    RunInv(states, steps, nodes, j);
    if i < j {
      FinishedOver(states, steps, nodes, i, j - 1, r);
      RunInv(states, steps, nodes, j - 1);
      assert Next(states[j - 1], steps[j - 1], states[j - 1 + 1]);
      FinishedStays(states[j - 1], steps[j - 1], states[j], r);
    } else {
      ListsLong(states[i]);
    }
  }

  lemma ListsLong(s: State)
    requires Inv(s)
    ensures |s.attempts| == |s.pool.requests|
  {
    hide ClusterRuns.Inv, Processes, TrueFlights, TrueRequests, Timed, Wires, Listed, Posted;
  }

  /** What a finished request told its caller is so, then and at every later point of the run: if it claims
      that nothing ran, every broker it tried has refused it and none ever hands it out; if it returned an
      answer, its last attempt was accepted and the one reply to it is a success. */
  lemma VerdictIsTrue(states: seq<State>, steps: seq<Step>, nodes: nat, i: nat, j: nat, r: nat)
    requires IsRun(states, steps, nodes) && i <= j < |states| && r < |states[i].pool.requests|
    requires states[i].pool.requests[r].phase.Done?
    ensures r < |states[i].attempts| && r < |states[j].attempts| && states[j].attempts[r] == states[i].attempts[r]
    ensures r < |states[j].pool.requests| && states[j].pool.requests[r] == states[i].pool.requests[r]
    ensures Posted(states[j], states[j].attempts[r])
    ensures var s, flights := states[j], states[i].attempts[r];
            && (ClaimsNothingRan(s.pool.requests[r].phase.verdict) ==>
                  && (forall x :: 0 <= x < |flights| ==> s.mail[flights[x]].Refused?)
                  && (forall p, m :: !HandsOut(s, flights, p, m)))
            && (s.pool.requests[r].phase.verdict.Answered? ==>
                  && flights != [] && s.mail[Last(flights)].Accepted?
                  && Answered(s.processes, s.mail[Last(flights)].process, s.mail[Last(flights)].id, Cluster.Reply))
  {
    hide Inv, Next, HandsOut, Answered;
    var s := states[j];
    FinishedOver(states, steps, nodes, i, j, r);
    RunInv(states, steps, nodes, j);
    VerdictHolds(s, r);
    forall p, m | ClaimsNothingRan(s.pool.requests[r].phase.verdict) ensures !HandsOut(s, s.attempts[r], p, m) {
      NothingHandedOut(s, s.attempts[r], p, m);
    }
  }

  lemma NothingHandedOut(s: State, flights: seq<nat>, p: nat, m: nat)
    requires Posted(s, flights) && forall x :: 0 <= x < |flights| ==> s.mail[flights[x]].Refused?
    ensures !HandsOut(s, flights, p, m)
  {
    hide SchedulerRuns.Dispatched;
  }

  lemma VerdictHolds(s: State, r: nat)
    requires Inv(s) && r < |s.pool.requests| && s.pool.requests[r].phase.Done?
    ensures r < |s.attempts| && Posted(s, s.attempts[r])
    ensures var flights, verdict := s.attempts[r], s.pool.requests[r].phase.verdict;
            && (ClaimsNothingRan(verdict) ==> forall x :: 0 <= x < |flights| ==> s.mail[flights[x]].Refused?)
            && (verdict.Answered? ==>
                  && flights != [] && s.mail[Last(flights)].Accepted?
                  && Answered(s.processes, s.mail[Last(flights)].process, s.mail[Last(flights)].id, Cluster.Reply))
  {
    hide ClusterRuns.NonIncreasing, ClusterRuns.Pool, ClusterRuns.Owners, Ceil, Processes, Wires, Timed, TrueFlights,
      Answered, ClusterRuns.Refused;
    var q, flights := s.pool.requests[r], s.attempts[r];
    assert ClusterRuns.History(q, |s.pool.nodes|, s.pool.now);
    assert Listed(q, flights) && Posted(s, flights) && TrueOutcomes(s, q.outcomes, flights);
    forall x | 0 <= x < |flights| && ClaimsNothingRan(q.phase.verdict) ensures s.mail[flights[x]].Refused? {
      assert ClusterRuns.Refused(q.outcomes[x]);
      assert Truth(s.processes, s.mail[flights[x]], q.outcomes[x]);
    }
    if q.phase.verdict.Answered? {
      assert Truth(s.processes, s.mail[Last(flights)], Last(q.outcomes));
    }
  }
}
