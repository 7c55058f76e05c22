/** What the cluster client keeps in every interleaving of its steps. */
module ClusterRuns {
  import opened Basics
  import opened Codes
  import opened Cluster

  // ---------------------------------------------------------------- the pool's count

  ghost function At(s: State, n: nat): set<nat> {
    set f | f in s.flights && s.flights[f].node == n
  }

  /** A node's count is exactly its operations in flight, and never above the transport's slots. */
  ghost predicate Slots(s: State) {
    forall n :: 0 <= n < |s.nodes| ==> s.nodes[n].pending == |At(s, n)| <= SLOTS
  }

  /** Clients stay with the node they were connected for; a client is its node's exactly while it is open. */
  ghost predicate Homes(s: State) {
    && (forall f :: f in s.flights ==>
          (f < s.next && s.flights[f].node < |s.nodes|
           && s.flights[f].client in s.home && s.home[s.flights[f].client] == s.flights[f].node))
    && (forall n: nat :: n < |s.nodes| && s.nodes[n].client.Some? ==>
          var c := s.nodes[n].client.value;
          c in s.home && s.home[c] == n && c in s.open)
    && (forall c :: c in s.open ==> c in s.home && s.home[c] < |s.nodes| && s.nodes[s.home[c]].client == Some(c))
  }

  /** An operation without an outcome is on an open client; none was refused by its client's own bound. */
  ghost predicate Outcomes(s: State) {
    forall f :: f in s.flights ==>
      s.flights[f].outcome != Some(Backpressure) && (s.flights[f].outcome.None? ==> s.flights[f].client in s.open)
  }

  ghost predicate Pool(s: State) {
    Slots(s) && Homes(s) && Outcomes(s)
  }

  /** The client's own table is part of what the pool counts for its node. */
  lemma TableWithinCount(s: State, n: nat)
    requires Slots(s) && Homes(s) && n < |s.nodes| && s.nodes[n].client.Some?
    ensures |Table(s, s.nodes[n].client.value)| <= s.nodes[n].pending
  {
    var c := s.nodes[n].client.value;
    assert Table(s, c) <= At(s, n);
    SubsetSize(Table(s, c), At(s, n));
  }

  lemma LaunchSlots(s: State, n: nat)
    requires Slots(s) && Homes(s) && n < |s.nodes| && s.nodes[n].client.Some? && s.nodes[n].pending < SLOTS
    ensures Slots(Launch(s, n))
  {
    hide Table, At;
    var t := Launch(s, n);
    assert s.next !in s.flights;
    forall m | 0 <= m < |t.nodes| ensures t.nodes[m].pending == |At(t, m)| <= SLOTS {
      assert s.nodes[m].pending == |At(s, m)|;
      LaunchAt(s, n, m);
    }
  }

  lemma LaunchAt(s: State, n: nat, m: nat)
    requires s.next !in s.flights && n < |s.nodes| && s.nodes[n].client.Some?
    ensures At(Launch(s, n), m) == At(s, m) + (if m == n then {s.next} else {}) && s.next !in At(s, m)
  {
    hide Table;
  }

  lemma LaunchHomes(s: State, n: nat)
    requires Homes(s) && n < |s.nodes| && s.nodes[n].client.Some?
    ensures Homes(Launch(s, n))
  {
    hide Table;
  }

  lemma LaunchOutcomes(s: State, n: nat)
    requires Pool(s) && n < |s.nodes| && s.nodes[n].client.Some? && s.nodes[n].client.value in s.open
             && s.nodes[n].pending < SLOTS
    ensures Outcomes(Launch(s, n))
    ensures s.next in Launch(s, n).flights && Launch(s, n).flights[s.next] == Flight(n, s.nodes[n].client.value, None)
  {
    hide Slots, Homes, Table;
    TableWithinCount(s, n);
  }

  lemma LaunchPool(s: State, n: nat)
    requires Pool(s) && n < |s.nodes| && s.nodes[n].client.Some? && s.nodes[n].client.value in s.open
             && s.nodes[n].pending < SLOTS
    ensures Pool(Launch(s, n))
    ensures s.next in Launch(s, n).flights && Launch(s, n).flights[s.next] == Flight(n, s.nodes[n].client.value, None)
  {
    hide Slots, Homes, Outcomes, Launch;
    LaunchSlots(s, n);
    LaunchHomes(s, n);
    LaunchOutcomes(s, n);
  }

  lemma LandSlots(s: State, f: nat)
    requires Slots(s) && f in s.flights && s.flights[f].node < |s.nodes|
    ensures Slots(Land(s, f))
  {
    var t, n := Land(s, f), s.flights[f].node;
    forall m | 0 <= m < |t.nodes| ensures t.nodes[m].pending == |At(t, m)| <= SLOTS {
      assert s.nodes[m].pending == |At(s, m)|;
      if m == n {
        assert f in At(s, m) && At(t, m) == At(s, m) - {f};
      } else {
        assert At(t, m) == At(s, m);
      }
    }
  }

  lemma LandPool(s: State, f: nat)
    requires Pool(s) && f in s.flights
    ensures s.flights[f].node < |s.nodes| && Pool(Land(s, f))
  {
    hide Slots;
    LandSlots(s, f);
  }

  lemma SameAt(s: State, t: State)
    requires s.flights.Keys == t.flights.Keys && forall f :: f in s.flights ==> t.flights[f].node == s.flights[f].node
    requires |s.nodes| == |t.nodes| && forall n :: 0 <= n < |s.nodes| ==> t.nodes[n].pending == s.nodes[n].pending
    ensures Slots(s) ==> Slots(t)
  {
    forall n | 0 <= n < |s.nodes| ensures At(t, n) == At(s, n) {
      assert forall f :: f in At(t, n) <==> f in At(s, n);
    }
  }

  lemma RetirePool(s: State, c: nat)
    requires Pool(s)
    ensures Pool(Retire(s, c))
  {
    hide Slots, Homes, Outcomes;
    SameAt(s, Retire(s, c));
    RetireHomes(s, c);
    RetireOutcomes(s, c);
  }

  lemma RetireHomes(s: State, c: nat)
    requires Homes(s)
    ensures Homes(Retire(s, c))
  {
  }

  lemma RetireOutcomes(s: State, c: nat)
    requires Outcomes(s)
    ensures Outcomes(Retire(s, c))
  {
  }

  lemma SettlePool(s: State, f: nat, outcome: Outcome)
    requires Pool(s) && f in s.flights && outcome != Backpressure
    ensures Pool(s.(flights := s.flights[f := s.flights[f].(outcome := Some(outcome))]))
  {
    hide Slots;
    SameAt(s, s.(flights := s.flights[f := s.flights[f].(outcome := Some(outcome))]));
  }

  lemma ConnectPool(s: State, n: nat, c: nat)
    requires Pool(s) && Enabled(s, Connect(n, c))
    ensures Pool(s.(nodes := s.nodes[n := s.nodes[n].(client := Some(c))], home := s.home[c := n],
                    open := s.open + {c}))
  {
    hide Slots;
    SameAt(s, s.(nodes := s.nodes[n := s.nodes[n].(client := Some(c))], home := s.home[c := n], open := s.open + {c}));
  }

  /** What the pool's count depends on. */
  lemma SamePool(s: State, t: State)
    requires Pool(s) && t.nodes == s.nodes && t.home == s.home && t.open == s.open && t.flights == s.flights
             && t.next == s.next
    ensures Pool(t)
  {
    hide Slots;
    SameAt(s, t);
  }

  // ---------------------------------------------------------------- who waits for what

  ghost predicate Owners(s: State) {
    && (forall r :: 0 <= r < |s.requests| && s.requests[r].phase.Flying? ==>
          && s.requests[r].phase.flight in s.flights && s.requests[r].phase.flight !in s.pings
          && s.requests[r].tried != [] && s.flights[s.requests[r].phase.flight].node == Last(s.requests[r].tried))
    && (forall q, r :: 0 <= q < r < |s.requests| && s.requests[q].phase.Flying? && s.requests[r].phase.Flying? ==>
          s.requests[q].phase.flight != s.requests[r].phase.flight)
    && (forall f :: f in s.flights ==> f in s.pings || Owned(s, f))
    && s.pings <= s.flights.Keys
  }

  ghost predicate Owned(s: State, f: nat) {
    exists r :: 0 <= r < |s.requests| && s.requests[r].phase == Flying(f)
  }

  // ---------------------------------------------------------------- one request's history

  ghost predicate NonIncreasing(waits: seq<int>) {
    forall j, k :: 0 <= j < k < |waits| ==> waits[k] <= waits[j]
  }

  ghost predicate Refused(o: Outcome) {
    o == Broker(NO_SERVICE) || o == Broker(OVERLOADED)
  }

  /** Every attempt went to a node of its own, within the time left, and only the last may have ended
      in anything but an explicit refusal. */
  ghost predicate History(r: Request, nodes: nat, now: real) {
    && Distinct(r.tried) && (forall n :: n in r.tried ==> n < nodes)
    && |r.waits| == |r.tried| && NonIncreasing(r.waits)
    && (forall k :: 0 <= k < |r.waits| ==> 1 <= r.waits[k] <= r.timeoutMs && Ceil(r.deadline - now) <= r.waits[k])
    && Ceil(r.deadline - now) <= r.timeoutMs
    && |r.outcomes| == |r.tried| - (if r.phase.Flying? then 1 else 0)
    && (forall k :: 0 <= k < |r.outcomes| && (k < |r.outcomes| - 1 || !r.phase.Done?) ==> Refused(r.outcomes[k]))
    && (r.phase.Done? ==> Explained(r))
  }

  /** How a request ends says how its last attempt did. */
  ghost predicate Explained(r: Request)
    requires r.phase.Done?
  {
    match r.phase.verdict
    case Answered => r.outcomes != [] && Last(r.outcomes) == Reply
    case Ambiguous => r.outcomes != [] && Last(r.outcomes) == Lost
    case Failed(outcome) => r.outcomes != [] && Last(r.outcomes) == outcome && outcome.Broker?
    case TooLate => forall k :: 0 <= k < |r.outcomes| ==> Refused(r.outcomes[k])
    case Rejected => r.outcomes == []
    case Unavailable => r.outcomes == []
  }

  ghost predicate Histories(s: State) {
    forall r :: 0 <= r < |s.requests| ==> History(s.requests[r], |s.nodes|, s.now)
  }

  lemma CeilFalls(x: real, y: real)
    requires x <= y
    ensures Ceil(x) <= Ceil(y)
  {
  }

  lemma HistoryAges(r: Request, nodes: nat, now: real, later: real)
    requires History(r, nodes, now) && now <= later
    ensures History(r, nodes, later)
  {
    hide Explained, Refused, NonIncreasing;
    CeilFalls(r.deadline - later, r.deadline - now);
  }

  lemma HistoriesAge(s: State, later: real)
    requires Histories(s) && s.now <= later
    ensures Histories(s.(now := later))
  {
    hide History;
    forall r | 0 <= r < |s.requests| ensures History(s.requests[r], |s.nodes|, later) {
      HistoryAges(s.requests[r], |s.nodes|, s.now, later);
    }
  }

  lemma BeginHistory(timeoutMs: nat, now: real, nodes: nat)
    ensures History(Request(now + timeoutMs as real, timeoutMs, [], [], [], Choosing), nodes, now)
  {
  }

  lemma TryHistory(r: Request, nodes: nat, now: real, n: nat, flight: nat)
    requires History(r, nodes, now) && r.phase.Choosing? && n < nodes && n !in r.tried && Ceil(r.deadline - now) >= 1
    ensures History(r.(tried := r.tried + [n], waits := r.waits + [Ceil(r.deadline - now)], phase := Flying(flight)),
                    nodes, now)
  {
    hide Explained, Refused;
  }

  lemma ResumeHistory(r: Request, nodes: nat, now: real, outcome: Outcome)
    requires History(r, nodes, now) && r.phase.Flying? && outcome != Backpressure
    ensures var noted := r.(outcomes := r.outcomes + [outcome]);
            && (outcome.Reply? ==> History(noted.(phase := Done(Answered)), nodes, now))
            && (outcome.Lost? ==> History(noted.(phase := Done(Ambiguous)), nodes, now))
            && (Retriable(outcome) ==> History(noted.(phase := Choosing), nodes, now))
            && (outcome.Broker? ==> History(noted.(phase := Done(Failed(outcome))), nodes, now))
  {
    hide NonIncreasing, Ceil;
    var noted := r.(outcomes := r.outcomes + [outcome]);
    assert Last(noted.outcomes) == outcome;
    assert forall k :: 0 <= k < |r.outcomes| ==> noted.outcomes[k] == r.outcomes[k];
  }

  lemma GiveUpHistory(s: State, r: Request, nodes: nat, now: real)
    requires History(r, nodes, now) && r.phase.Choosing?
    ensures History(r.(phase := Done(GiveUp(s, r))), nodes, now)
    ensures History(r.(phase := Done(TooLate)), nodes, now)
  {
    hide NonIncreasing, Ceil;
  }

  // ---------------------------------------------------------------- steps and ownership

  predicate SameFlights(s: State, t: State) {
    s.flights.Keys == t.flights.Keys && forall f :: f in s.flights ==> t.flights[f].node == s.flights[f].node
  }

  lemma OwnersSame(s: State, t: State)
    requires Owners(s) && t.requests == s.requests && t.pings == s.pings && SameFlights(s, t)
    ensures Owners(t)
  {
    forall f | f in t.flights && f !in t.pings ensures Owned(t, f) {
      var r :| 0 <= r < |s.requests| && s.requests[r].phase == Flying(f);
      assert t.requests[r].phase == Flying(f);
    }
  }

  lemma OwnersBegin(s: State, t: State, request: Request)
    requires Owners(s) && request.phase.Choosing? && t.requests == s.requests + [request] && t.pings == s.pings
             && t.flights == s.flights
    ensures Owners(t)
  {
    forall f | f in t.flights && f !in t.pings ensures Owned(t, f) {
      var r :| 0 <= r < |s.requests| && s.requests[r].phase == Flying(f);
      assert t.requests[r].phase == Flying(f);
    }
  }

  /** A request stops choosing without starting anything. */
  lemma OwnersEnd(s: State, t: State, r: nat, request: Request)
    requires Owners(s) && r < |s.requests| && s.requests[r].phase.Choosing? && request.phase.Done?
    requires t.requests == s.requests[r := request] && t.pings == s.pings && t.flights == s.flights
    ensures Owners(t)
  {
    forall f | f in t.flights && f !in t.pings ensures Owned(t, f) {
      var q :| 0 <= q < |s.requests| && s.requests[q].phase == Flying(f);
      assert t.requests[q].phase == Flying(f);
    }
  }

  lemma OwnersLaunch(s: State, t: State, r: nat, request: Request, flight: Flight)
    requires Owners(s) && s.next !in s.flights && r < |s.requests| && s.requests[r].phase.Choosing?
    requires request.phase == Flying(s.next) && request.tried != [] && flight.node == Last(request.tried)
    requires t.requests == s.requests[r := request] && t.pings == s.pings && t.flights == s.flights[s.next := flight]
    ensures Owners(t)
  {
    forall f | f in t.flights && f !in t.pings ensures Owned(t, f) {
      if f == s.next {
        assert t.requests[r].phase == Flying(f);
      } else {
        assert Owned(s, f);
        var q :| 0 <= q < |s.requests| && s.requests[q].phase == Flying(f);
        assert t.requests[q].phase == Flying(f);
      }
    }
  }

  lemma OwnersResume(s: State, t: State, r: nat, request: Request)
    requires Owners(s) && r < |s.requests| && s.requests[r].phase.Flying? && !request.phase.Flying?
    requires t.requests == s.requests[r := request] && t.pings == s.pings
    requires SameFlights(s.(flights := s.flights - {s.requests[r].phase.flight}), t)
    ensures Owners(t)
  {
    var mine := s.requests[r].phase.flight;
    forall f | f in t.flights && f !in t.pings ensures Owned(t, f) {
      assert f in s.flights && f != mine && Owned(s, f);
      var q :| 0 <= q < |s.requests| && s.requests[q].phase == Flying(f);
      assert t.requests[q].phase == Flying(f);
    }
    forall q | 0 <= q < |t.requests| && t.requests[q].phase.Flying?
      ensures t.requests[q].phase.flight in t.flights && t.requests[q].phase.flight !in t.pings
      ensures t.requests[q].tried != [] && t.flights[t.requests[q].phase.flight].node == Last(t.requests[q].tried)
    {
      assert q != r && t.requests[q] == s.requests[q];
      assert s.requests[q].phase.flight != mine;
    }
  }

  lemma OwnersPing(s: State, t: State, flight: Flight)
    requires Owners(s) && s.next !in s.flights
    requires t.requests == s.requests && t.pings == s.pings + {s.next} && t.flights == s.flights[s.next := flight]
    ensures Owners(t)
  {
    forall f | f in t.flights && f !in t.pings ensures Owned(t, f) {
      assert Owned(s, f);
      var r :| 0 <= r < |s.requests| && s.requests[r].phase == Flying(f);
      assert t.requests[r].phase == Flying(f);
    }
  }

  lemma OwnersPingEnds(s: State, t: State, f: nat)
    requires Owners(s) && f in s.pings
    requires t.requests == s.requests && t.pings == s.pings - {f} && SameFlights(s.(flights := s.flights - {f}), t)
    ensures Owners(t)
  {
    forall g | g in t.flights && g !in t.pings ensures Owned(t, g) {
      assert g in s.flights && g != f && Owned(s, g);
      var r :| 0 <= r < |s.requests| && s.requests[r].phase == Flying(g);
      assert t.requests[r].phase == Flying(g);
    }
  }

  // ---------------------------------------------------------------- every step

  ghost predicate Inv(s: State) {
    Pool(s) && Owners(s) && Histories(s) && s.nodes != []
  }

  lemma NextFree(s: State)
    requires Homes(s)
    ensures s.next !in s.flights
  {
  }

  lemma HistoriesPut(s: State, t: State, r: nat, request: Request)
    requires Histories(s) && r < |s.requests| && History(request, |s.nodes|, s.now)
    requires t.requests == s.requests[r := request] && |t.nodes| == |s.nodes| && t.now == s.now
    ensures Histories(t)
  {
    hide History;
  }

  lemma BeginInv(s: State, timeoutMs: nat, now: real, t: State)
    requires Inv(s) && Next(s, Begin(timeoutMs, now), t)
    ensures Inv(t)
  {
    hide Pool, Owners, Histories, History;
    var request := Request(now + timeoutMs as real, timeoutMs, [], [], [], Choosing);
    SamePool(s, t);
    OwnersBegin(s, t, request);
    HistoriesAge(s, now);
    BeginHistory(timeoutMs, now, |s.nodes|);
    HistoriesAdd(s.(now := now), t, request);
  }

  lemma HistoriesAdd(s: State, t: State, request: Request)
    requires Histories(s) && History(request, |s.nodes|, s.now)
    requires t.requests == s.requests + [request] && |t.nodes| == |s.nodes| && t.now == s.now
    ensures Histories(t)
  {
    hide History;
  }

  lemma EndInv(s: State, t: State, r: nat, verdict: Verdict)
    requires Inv(s) && r < |s.requests| && s.requests[r].phase.Choosing?
    requires verdict == GiveUp(s, s.requests[r]) || verdict == TooLate
    requires t.requests == s.requests[r := s.requests[r].(phase := Done(verdict))]
    requires t.nodes == s.nodes && t.home == s.home && t.open == s.open && t.flights == s.flights
    requires t.next == s.next && t.pings == s.pings && t.now == s.now
    ensures Inv(t)
  {
    hide Pool, Owners, History, GiveUp;
    SamePool(s, t);
    OwnersEnd(s, t, r, s.requests[r].(phase := Done(verdict)));
    GiveUpHistory(s, s.requests[r], |s.nodes|, s.now);
    HistoriesPut(s, t, r, s.requests[r].(phase := Done(verdict)));
  }

  lemma LaunchInv(s: State, t: State, r: nat, n: nat, cursor: nat)
    requires Inv(s) && r < |s.requests| && s.requests[r].phase.Choosing? && Eligible(s, s.requests[r].tried, n)
    requires Ceil(s.requests[r].deadline - s.now) >= 1
    requires var q := s.requests[r];
             t == WithRequest(Launch(s.(cursor := cursor), n), r,
                    q.(tried := q.tried + [n], waits := q.waits + [Ceil(q.deadline - s.now)], phase := Flying(s.next)))
    ensures Inv(t)
  {
    hide Pool, Owners, History, Histories, Table;
    var q := s.requests[r];
    var request := q.(tried := q.tried + [n], waits := q.waits + [Ceil(q.deadline - s.now)], phase := Flying(s.next));
    var launched := Launch(s.(cursor := cursor), n);
    SamePool(s, s.(cursor := cursor));
    LaunchPool(s.(cursor := cursor), n);
    SamePool(launched, t);
    PoolHomes(s);
    NextFree(s);
    OwnersLaunch(s, t, r, request, launched.flights[s.next]);
    HistoryOf(s, r);
    TryHistory(q, |s.nodes|, s.now, n, s.next);
    HistoriesPut(s, t, r, request);
  }

  lemma PoolHomes(s: State)
    requires Pool(s)
    ensures Homes(s)
  {
  }

  lemma HistoryOf(s: State, r: nat)
    requires Histories(s) && r < |s.requests|
    ensures History(s.requests[r], |s.nodes|, s.now)
  {
  }

  lemma ChosenFits(s: State, tried: seq<nat>, n: nat)
    requires Chosen(s, tried, n)
    ensures Eligible(s, tried, n)
  {
  }

  lemma TryOnce(s: State, r: nat, t: State)
    requires Inv(s) && r < |s.requests| && s.requests[r].phase.Choosing? && Tries(s, r, t)
    ensures Inv(t)
  {
    hide Inv, GiveUp, Launch, Ceil, Turn;
    var request := s.requests[r];
    if |request.tried| >= |s.nodes| || (forall n: nat :: !Eligible(s, request.tried, n)) {
      EndInv(s, t, r, GiveUp(s, request));
    } else {
      var n: nat :| Chosen(s, request.tried, n) && Attempts(s, r, n, t);
      ChosenFits(s, request.tried, n);
      if Ceil(request.deadline - s.now) < 1 {
        EndInv(s, t, r, TooLate);
      } else {
        LaunchInv(s, t, r, n, (n + 1) % |s.nodes|);
      }
    }
  }

  lemma TryInv(s: State, r: nat, now: real, t: State)
    requires Inv(s) && Next(s, Try(r, now), t)
    ensures Inv(t)
  {
    hide Pool, Owners, Histories, Tries;
    var u := s.(now := now);
    SamePool(s, u);
    OwnersSame(s, u);
    HistoriesAge(s, now);
    TryOnce(u, r, t);
  }

  lemma ResumeInv(s: State, r: nat, t: State)
    requires Inv(s) && Next(s, Resume(r), t)
    ensures Inv(t)
  {
    hide Pool, Owners, Histories, History, Retire;
    var request := s.requests[r];
    var f := request.phase.flight;
    var outcome := s.flights[f].outcome.value;
    OutcomeKnown(s, f);
    LandPool(s, f);
    RetirePool(Land(s, f), s.flights[f].client);
    RetireKeeps(Land(s, f), s.flights[f].client);
    SamePool(if outcome.Lost? then Retire(Land(s, f), s.flights[f].client) else Land(s, f), t);
    OwnersResume(s, t, r, t.requests[r]);
    HistoryOf(s, r);
    ResumeHistory(request, |s.nodes|, s.now, outcome);
    HistoriesPut(s, t, r, t.requests[r]);
  }

  lemma OutcomeKnown(s: State, f: nat)
    requires Pool(s) && f in s.flights
    ensures s.flights[f].outcome != Some(Backpressure)
  {
  }

  lemma RetireKeeps(s: State, c: nat)
    ensures var t := Retire(s, c);
            && SameFlights(s, t) && |t.nodes| == |s.nodes| && t.requests == s.requests && t.pings == s.pings
               && t.now == s.now
  {
  }

  lemma PingInv(s: State, n: nat, t: State)
    requires Inv(s) && Next(s, Ping(n), t)
    ensures Inv(t)
  {
    hide Pool, Owners, Histories, Table;
    LaunchPool(s, n);
    SamePool(Launch(s, n), t);
    PoolHomes(s);
    NextFree(s);
    OwnersPing(s, t, t.flights[s.next]);
    SameHistories(s, t);
  }

  lemma SameHistories(s: State, t: State)
    requires Histories(s) && t.requests == s.requests && |t.nodes| == |s.nodes| && t.now == s.now
    ensures Histories(t)
  {
    hide History;
  }

  lemma ResumePingInv(s: State, f: nat, t: State)
    requires Inv(s) && Next(s, ResumePing(f), t)
    ensures Inv(t)
  {
    hide Pool, Owners, Histories, Retire;
    var landed := Land(s, f);
    LandPool(s, f);
    RetirePool(landed, s.flights[f].client);
    RetireKeeps(landed, s.flights[f].client);
    SamePool(if s.flights[f].outcome != Some(Reply) then Retire(landed, s.flights[f].client) else landed, t);
    OwnersPingEnds(s, t, f);
    SameHistories(s, t);
  }

  lemma OtherInv(s: State, step: Step, t: State)
    requires Inv(s) && Next(s, step, t) && (step.Settle? || step.Fail? || step.Connect?)
    ensures Inv(t)
  {
    hide Pool, Owners, Histories, Retire;
    match step {
      case Settle(f, outcome) => SettlePool(s, f, outcome);
      case Fail(c) => RetirePool(s, c); RetireKeeps(s, c);
      case Connect(n, c) => ConnectPool(s, n, c);
    }
    OwnersSame(s, t);
    SameHistories(s, t);
  }

  lemma StepInv(s: State, step: Step, t: State)
    requires Inv(s) && Next(s, step, t)
    ensures Inv(t)
  {
    hide Inv, Next;
    match step {
      case Begin(timeoutMs, now) => BeginInv(s, timeoutMs, now, t);
      case Try(r, now) => TryInv(s, r, now, t);
      case Resume(r) => ResumeInv(s, r, t);
      case Ping(n) => PingInv(s, n, t);
      case ResumePing(f) => ResumePingInv(s, f, t);
      case _ => OtherInv(s, step, t);
    }
  }

  // ---------------------------------------------------------------- runs

  function Start(nodes: nat): State {
    State(seq(nodes, _ => Node(None, 0)), 0, map[], {}, map[], {}, 0, [], 0.0)
  }

  ghost predicate IsRun(states: seq<State>, steps: seq<Step>, nodes: nat) {
    && 1 <= nodes <= 8 && |states| == |steps| + 1 && states[0] == Start(nodes)
    && forall i :: 0 <= i < |steps| ==> Next(states[i], steps[i], states[i + 1])
  }

  lemma StartInv(nodes: nat)
    requires nodes > 0
    ensures Inv(Start(nodes))
  {
    assert forall n :: At(Start(nodes), n) == {};
  }

  lemma {:induction false} RunInv(states: seq<State>, steps: seq<Step>, nodes: nat, i: nat)
    requires IsRun(states, steps, nodes) && i < |states|
    ensures Inv(states[i])
  {
    hide Inv, Next, Start;
    if i == 0 {
      StartInv(nodes);
    } else {
      RunInv(states, steps, nodes, i - 1);
      StepInv(states[i - 1], steps[i - 1], states[i]);
    }
  }

  /** Under every interleaving a request goes to each broker at most once, never again after an attempt
      whose outcome is uncertain, and each attempt is given no more time than the one before. */
  lemma NeverReplays(states: seq<State>, steps: seq<Step>, nodes: nat, i: nat, r: nat)
    requires IsRun(states, steps, nodes) && i < |states| && r < |states[i].requests|
    ensures var q := states[i].requests[r];
            && Distinct(q.tried)
            && (forall k :: 0 <= k < |q.outcomes| && k < |q.tried| - 1 ==> Refused(q.outcomes[k]))
            && |q.outcomes| >= |q.tried| - 1
            && NonIncreasing(q.waits) && (forall k :: 0 <= k < |q.waits| ==> 1 <= q.waits[k] <= q.timeoutMs)
  {
    hide IsRun;
    RunInv(states, steps, nodes, i);
    HistoryOf(states[i], r);
  }

  /** Every count stays within 0..32, is what is really in flight, and bounds the table of the node's
      client, so a new operation always finds a free slot there. */
  lemma CountsHold(states: seq<State>, steps: seq<Step>, nodes: nat, i: nat, n: nat)
    requires IsRun(states, steps, nodes) && i < |states| && n < |states[i].nodes|
    ensures 0 <= states[i].nodes[n].pending <= SLOTS && states[i].nodes[n].pending == |At(states[i], n)|
    ensures states[i].nodes[n].client.Some? ==>
              |Table(states[i], states[i].nodes[n].client.value)| <= states[i].nodes[n].pending
    ensures forall f :: f in states[i].flights ==> states[i].flights[f].outcome != Some(Backpressure)
  {
    hide IsRun, Table, At;
    RunInv(states, steps, nodes, i);
    if states[i].nodes[n].client.Some? {
      TableWithinCount(states[i], n);
    }
  }

  /** When no request is waiting for an attempt and no health check is out, every count is back to zero. */
  lemma CountsReturn(states: seq<State>, steps: seq<Step>, nodes: nat, i: nat, n: nat)
    requires IsRun(states, steps, nodes) && i < |states| && n < |states[i].nodes|
    requires states[i].pings == {} && forall r :: 0 <= r < |states[i].requests| ==> !states[i].requests[r].phase.Flying?
    ensures states[i].nodes[n].pending == 0
  {
    hide IsRun, Homes, Histories, Outcomes;
    RunInv(states, steps, nodes, i);
    var s := states[i];
    assert forall f :: !Owned(s, f);
    assert forall f :: f in s.flights ==> Owned(s, f);
    assert At(s, n) == {};
  }

  // ---------------------------------------------------------------- what a request is told

  ghost predicate SomeEligible(s: State, tried: seq<nat>) {
    exists n: nat :: Eligible(s, tried, n)
  }

  ghost predicate SomeOpen(s: State) {
    exists n :: 0 <= n < |s.nodes| && s.nodes[n].client.Some? && s.nodes[n].client.value in s.open
  }

  /** A request that has tried every node finds none eligible: the loop's own bound never decides. */
  lemma AllTried(s: State, tried: seq<nat>)
    requires Distinct(tried) && (forall n :: n in tried ==> n < |s.nodes|) && |tried| >= |s.nodes|
    ensures !SomeEligible(s, tried)
  {
    DistinctSize(tried);
    var nodes := Numbers(|s.nodes|);
    assert Elements(tried) <= nodes;
    if exists n: nat :: Eligible(s, tried, n) {
      var n: nat :| Eligible(s, tried, n);
      assert Elements(tried) <= nodes - {n};
      SubsetSize(Elements(tried), nodes - {n});
    }
  }

  function Numbers(n: nat): (all: set<nat>)
    ensures |all| == n && forall k: nat :: k in all <==> k < n
  {
    if n == 0 then {} else Numbers(n - 1) + {n - 1}
  }

  /** A new request has tried nothing and has, at once, exactly the whole time its caller gave. */
  lemma BeginDecides(s: State, timeoutMs: nat, now: real, t: State)
    requires Next(s, Begin(timeoutMs, now), t)
    ensures |t.requests| == |s.requests| + 1 && t.requests[..|s.requests|] == s.requests
    ensures var q := Last(t.requests);
            && q.phase.Choosing? && q.tried == [] && q.waits == [] && q.outcomes == []
            && q.timeoutMs == timeoutMs && Ceil(q.deadline - t.now) == timeoutMs
  {
    assert (now + timeoutMs as real) - now == timeoutMs as real;
  }

  /** A turn of the request's loop starts an attempt exactly when some untried node is connected with a free
      slot and at least a millisecond is left; then it goes to the best such node with the time left.
      With no time left it ends as too late; with no such node it ends with the last refusal it got, or, if
      it sent nothing, as refused locally or as unavailable by whether any node is connected at all. */
  lemma TryDecides(s: State, r: nat, now: real, t: State)
    requires Inv(s) && Next(s, Try(r, now), t)
    ensures r < |s.requests| && |t.requests| == |s.requests|
    ensures var (q, after) := (s.requests[r], t.requests[r]);
            var left := Ceil(q.deadline - now);
            && after.deadline == q.deadline && after.timeoutMs == q.timeoutMs && after.outcomes == q.outcomes
            && (after.phase.Flying? <==> SomeEligible(s, q.tried) && left >= 1)
            && (after.phase.Flying? ==>
                  && after.phase == Flying(s.next) && after.tried != [] && after.tried == q.tried + [Last(after.tried)]
                  && Chosen(s.(now := now), q.tried, Last(after.tried)) && after.waits == q.waits + [left])
            && (SomeEligible(s, q.tried) && left < 1 ==> after.phase == Done(TooLate))
            && (!SomeEligible(s, q.tried) && q.outcomes != [] ==> after.phase == Done(Failed(Last(q.outcomes))))
            && (!SomeEligible(s, q.tried) && q.outcomes == [] ==>
                  after.phase == Done(if SomeOpen(s) then Rejected else Unavailable))
            && (forall k :: 0 <= k < |s.requests| && k != r ==> t.requests[k] == s.requests[k])
  {
    hide Pool, Owners, Explained, Refused, NonIncreasing, Ceil, Turn, Table;
    var u, q := s.(now := now), s.requests[r];
    HistoryOf(s, r);
    SameEligible(s, u, q.tried);
    if |q.tried| >= |s.nodes| {
      AllTried(u, q.tried);
    }
  }

  lemma SameEligible(s: State, u: State, tried: seq<nat>)
    requires u == s.(now := u.now)
    ensures SomeEligible(u, tried) <==> SomeEligible(s, tried)
    ensures SomeOpen(u) <==> SomeOpen(s)
  {
    forall n: nat ensures Eligible(u, tried, n) <==> Eligible(s, tried, n) {
    }
  }

  /** What a request makes of the outcome of its attempt: an answer and a final error are returned, a lost
      connection is an uncertain result and retires that client, and only an explicit refusal goes on. */
  lemma ResumeDecides(s: State, r: nat, t: State)
    requires Inv(s) && Next(s, Resume(r), t)
    ensures r < |s.requests| && |t.requests| == |s.requests| && s.requests[r].phase.Flying?
    ensures var f := s.requests[r].phase.flight;
            && f in s.flights && s.flights[f].outcome.Some? && f !in t.flights
            && var (outcome, after) := (s.flights[f].outcome.value, t.requests[r]);
               && after == s.requests[r].(outcomes := s.requests[r].outcomes + [outcome], phase := after.phase)
               && (after.phase == Done(Answered) <==> outcome.Reply?)
               && (after.phase == Done(Ambiguous) <==> outcome.Lost?)
               && t.open == s.open - (if outcome.Lost? then {s.flights[f].client} else {})
               && (after.phase.Choosing? <==> Refused(outcome))
               && (outcome.Broker? && !Refused(outcome) ==> after.phase == Done(Failed(outcome)))
  {
    hide Owners, Histories, Slots, Homes, Table;
    OutcomeKnown(s, s.requests[r].phase.flight);
  }
}
