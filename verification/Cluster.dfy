/**
 The cluster client: which broker a request goes to, when it may go to another, and how the pool counts
 what it has on the wire. Every await splits an operation, so requests, pings, replies, failures and
 reconnects interleave in any order.
 */
module Cluster {
  import opened Basics
  import opened Codes

  /** Operations one transport may hold, on the pool's count and on the transport's own. */
  const SLOTS := 32

  datatype Node = Node(client: Option<nat>, pending: int)

  datatype Outcome = Reply | Broker(code: nat) | Backpressure | Lost

  /** An operation the pool has started on a client and not yet resumed from. */
  datatype Flight = Flight(node: nat, client: nat, outcome: Option<Outcome>)

  datatype Verdict = Answered | Failed(outcome: Outcome) | TooLate | Ambiguous | Rejected | Unavailable

  datatype Phase = Choosing | Flying(flight: nat) | Done(verdict: Verdict)

  /** `tried`, `waits` and `outcomes` are the nodes, timeouts and results of its attempts, in order. */
  datatype Request = Request(
    deadline: real, timeoutMs: nat, tried: seq<nat>, waits: seq<int>, outcomes: seq<Outcome>, phase: Phase)

  /** `home` is the node each client was ever connected for; `open` the clients not yet closed. */
  datatype State = State(
    nodes: seq<Node>, cursor: nat, home: map<nat, nat>, open: set<nat>,
    flights: map<nat, Flight>, pings: set<nat>, next: nat, requests: seq<Request>, now: real)

  // ---------------------------------------------------------------- choosing a node

  predicate Eligible(s: State, tried: seq<nat>, n: nat) {
    n < |s.nodes| && n !in tried && s.nodes[n].client.Some? && s.nodes[n].client.value in s.open
      && s.nodes[n].pending < SLOTS
  }

  /** The node `offset` places after the cursor. */
  function Turn(s: State, offset: nat): nat
    requires s.nodes != []
  {
    (s.cursor + offset) % |s.nodes|
  }

  /** An eligible node with the fewest operations pending, the first of those from the cursor on. */
  ghost predicate Chosen(s: State, tried: seq<nat>, best: nat) {
    && s.nodes != [] && Eligible(s, tried, best)
    && (forall n: nat :: Eligible(s, tried, n) ==> s.nodes[best].pending <= s.nodes[n].pending)
    && exists at: nat :: at < |s.nodes| && Turn(s, at) == best
         && forall k: nat ::
              k < at && Eligible(s, tried, Turn(s, k)) ==> s.nodes[best].pending < s.nodes[Turn(s, k)].pending
  }

  lemma EveryTurn(s: State, n: nat) returns (offset: nat)
    requires n < |s.nodes| && s.cursor < |s.nodes|
    ensures offset < |s.nodes| && Turn(s, offset) == n
  {
    offset := if n >= s.cursor then n - s.cursor else n + |s.nodes| - s.cursor;
    WrapAround(s.cursor + offset, |s.nodes|);
  }

  lemma WrapAround(x: nat, m: nat)
    requires m > 0 && x < 2 * m
    ensures x % m == if x < m then x else x - m
  {
  }

  /** `choose`. */
  method Choose(s: State, tried: seq<nat>) returns (best: Option<nat>, cursor: nat)
    requires s.nodes != [] && s.cursor < |s.nodes|
    ensures match best
            case None => (forall n: nat :: !Eligible(s, tried, n)) && cursor == s.cursor
            case Some(n) => Chosen(s, tried, n) && cursor == (n + 1) % |s.nodes|
  {
    best, cursor := None, s.cursor;
    ghost var found: nat := 0;
    for offset := 0 to |s.nodes|
      invariant best.None? ==> forall k: nat :: k < offset ==> !Eligible(s, tried, Turn(s, k))
      invariant best.Some? ==> found < offset && Turn(s, found) == best.value && Eligible(s, tried, best.value)
      invariant best.Some? ==> forall k: nat :: k < offset && Eligible(s, tried, Turn(s, k)) ==>
                  s.nodes[best.value].pending <= s.nodes[Turn(s, k)].pending
      invariant best.Some? ==> forall k: nat :: k < found && Eligible(s, tried, Turn(s, k)) ==>
                  s.nodes[best.value].pending < s.nodes[Turn(s, k)].pending
    {
      var n := Turn(s, offset);
      if Eligible(s, tried, n) && (best.None? || s.nodes[n].pending < s.nodes[best.value].pending) {
        best := Some(n);
        found := offset;
      }
    }
    forall n: nat | Eligible(s, tried, n) ensures best.Some? && s.nodes[best.value].pending <= s.nodes[n].pending {
      var offset := EveryTurn(s, n);
    }
    if best.Some? {
      cursor := (best.value + 1) % |s.nodes|;
    }
  }

  // ---------------------------------------------------------------- the steps

  datatype Step =
    | Begin(timeoutMs: nat, now: real)   // a request is admitted
    | Try(request: nat, now: real)       // its loop comes round
    | Settle(flight: nat, outcome: Outcome)  // a reply or an error reply reaches an operation
    | Fail(client: nat)                  // a client fails: it closes, and loses what it had on the wire
    | Resume(request: nat)               // a request goes on after its attempt
    | Ping(node: nat)                    // a health check starts
    | ResumePing(flight: nat)
    | Connect(node: nat, client: nat)

  /** What the client had on the wire, by its own count. */
  function Table(s: State, client: nat): set<nat> {
    set f | f in s.flights && s.flights[f].client == client && s.flights[f].outcome.None?
  }

  function Retired(nodes: seq<Node>, client: nat): seq<Node> {
    seq(|nodes|, i requires 0 <= i < |nodes| =>
          if nodes[i].client == Some(client) then nodes[i].(client := None) else nodes[i])
  }

  function Closed(flights: map<nat, Flight>, client: nat): map<nat, Flight> {
    map f | f in flights :: if flights[f].client == client && flights[f].outcome.None?
      then flights[f].(outcome := Some(Lost)) else flights[f]
  }

  predicate Retriable(o: Outcome) {
    o == Broker(NO_SERVICE) || o == Broker(OVERLOADED) || o == Backpressure
  }

  /** An operation starts: the pool counts it, and the client refuses it if its own table is full. */
  function Launch(s: State, n: nat): State
    requires n < |s.nodes| && s.nodes[n].client.Some?
  {
    var c := s.nodes[n].client.value;
    s.(nodes := s.nodes[n := s.nodes[n].(pending := s.nodes[n].pending + 1)],
       flights := s.flights[s.next := Flight(n, c, if |Table(s, c)| >= SLOTS then Some(Backpressure) else None)],
       next := s.next + 1)
  }

  /** The operation's `finally`: the pool's count goes down again. */
  function Land(s: State, f: nat): State
    requires f in s.flights && s.flights[f].node < |s.nodes|
  {
    var n := s.flights[f].node;
    s.(nodes := s.nodes[n := s.nodes[n].(pending := s.nodes[n].pending - 1)], flights := s.flights - {f})
  }

  function Retire(s: State, client: nat): State {
    s.(nodes := Retired(s.nodes, client), open := s.open - {client}, flights := Closed(s.flights, client))
  }

  function WithRequest(s: State, r: nat, request: Request): State
    requires r < |s.requests|
  {
    s.(requests := s.requests[r := request])
  }

  /** Nothing is left to try: the last explicit refusal, or none if nothing was sent. */
  function GiveUp(s: State, r: Request): Verdict {
    if r.outcomes != [] then Failed(Last(r.outcomes))
    else if exists n :: 0 <= n < |s.nodes| && s.nodes[n].client.Some? && s.nodes[n].client.value in s.open then Rejected
    else Unavailable
  }

  predicate Enabled(s: State, step: Step) {
    match step
    case Begin(timeoutMs, now) => 1 <= timeoutMs <= 30_000 && now >= s.now
    case Try(r, now) => r < |s.requests| && s.requests[r].phase.Choosing? && now >= s.now
    case Settle(f, outcome) => f in s.flights && s.flights[f].outcome.None? && (outcome.Reply? || outcome.Broker?)
    case Fail(c) => c in s.open
    case Resume(r) => r < |s.requests| && s.requests[r].phase.Flying? && s.requests[r].phase.flight in s.flights
                      && s.flights[s.requests[r].phase.flight].outcome.Some?
    case Ping(n) =>
      n < |s.nodes| && s.nodes[n].client.Some? && s.nodes[n].client.value in s.open && s.nodes[n].pending == 0
    case ResumePing(f) => f in s.pings && f in s.flights && s.flights[f].outcome.Some?
    case Connect(n, c) =>
      n < |s.nodes| && c !in s.home && !(s.nodes[n].client.Some? && s.nodes[n].client.value in s.open)
  }

  ghost predicate Next(s: State, step: Step, t: State) {
    Enabled(s, step) &&
    match step
    case Begin(timeoutMs, now) =>
      t == s.(now := now, requests := s.requests + [Request(now + timeoutMs as real, timeoutMs, [], [], [], Choosing)])
    case Try(r, now) => Tries(s.(now := now), r, t)
    case Settle(f, outcome) => t == s.(flights := s.flights[f := s.flights[f].(outcome := Some(outcome))])
    case Fail(c) => t == Retire(s, c)
    case Resume(r) => s.flights[s.requests[r].phase.flight].node < |s.nodes| && t == Resumed(s, r)
    case Ping(n) => t == Launch(s, n).(pings := s.pings + {s.next})
    case ResumePing(f) =>
      s.flights[f].node < |s.nodes|
      && var landed := Land(s, f);
         var kept := if s.flights[f].outcome == Some(Reply) then landed else Retire(landed, s.flights[f].client);
         t == kept.(pings := s.pings - {f})
    case Connect(n, c) =>
      t == s.(nodes := s.nodes[n := s.nodes[n].(client := Some(c))], home := s.home[c := n], open := s.open + {c})
  }

  /** The chosen node gets an attempt with the time that is left, unless none is. */
  predicate Attempts(s: State, r: nat, n: nat, t: State)
    requires r < |s.requests| && n < |s.nodes| && s.nodes[n].client.Some?
  {
    var request := s.requests[r];
    var moved := s.(cursor := (n + 1) % |s.nodes|);
    var remaining := Ceil(request.deadline - s.now);
    if remaining < 1 then t == WithRequest(moved, r, request.(phase := Done(TooLate)))
    else t == WithRequest(Launch(moved, n), r,
                request.(tried := request.tried + [n], waits := request.waits + [remaining], phase := Flying(s.next)))
  }

  /** One turn of the request's loop. */
  ghost predicate Tries(s: State, r: nat, t: State)
    requires r < |s.requests|
  {
    var request := s.requests[r];
    if |request.tried| >= |s.nodes| || (forall n: nat :: !Eligible(s, request.tried, n)) then
      t == WithRequest(s, r, request.(phase := Done(GiveUp(s, request))))
    else exists n: nat :: Chosen(s, request.tried, n) && Attempts(s, r, n, t)
  }

  /** What the request makes of the outcome of its attempt. */
  function Resumed(s: State, r: nat): State
    requires r < |s.requests| && s.requests[r].phase.Flying?
    requires var f := s.requests[r].phase.flight;
             f in s.flights && s.flights[f].outcome.Some? && s.flights[f].node < |s.nodes|
  {
    var request := s.requests[r];
    var f := request.phase.flight;
    var outcome := s.flights[f].outcome.value;
    var landed := Land(s, f);
    var noted := request.(outcomes := request.outcomes + [outcome]);
    if outcome.Reply? then WithRequest(landed, r, noted.(phase := Done(Answered)))
    else if outcome.Lost? then WithRequest(Retire(landed, s.flights[f].client), r, noted.(phase := Done(Ambiguous)))
    else if Retriable(outcome) then WithRequest(landed, r, noted.(phase := Choosing))
    else WithRequest(landed, r, noted.(phase := Done(Failed(outcome))))
  }
}
