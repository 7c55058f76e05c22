/**
 The client's table of unfinished requests: how an id is found, how a reply is matched to its request,
 and why every request is settled exactly once.
 */
module ClientRequests {
  import opened Basics
  import opened Protocol
  import Utf8

  const MAX_ID: nat := 0xffff_ffff
  const ERROR_OPCODE: byte := 0xff

  /** `serial` numbers the requests of a client in the order they were made. */
  datatype Pending = Pending(opcode: byte, serial: nat)

  datatype Outcome = Reply(id: nat, opcode: byte, body: seq<byte>) | Refusal(id: nat, code: nat) | Lost

  datatype State = State(
    pending: map<nat, Pending>, nextId: nat, closed: bool, maxPending: nat, made: nat, settled: map<nat, Outcome>)

  // ---------------------------------------------------------------- the id search

  function NextId(id: nat): nat {
    if id == MAX_ID then 1 else id + 1
  }

  /** The id `k` places after `start`, for less than one turn around the ring. */
  function At(start: nat, k: nat): nat {
    if start + k <= MAX_ID then start + k else start + k - MAX_ID
  }

  /** The first free id at or after `start`, going around. */
  ghost predicate FirstFree(taken: set<nat>, start: nat, id: nat) {
    && 1 <= id <= MAX_ID && id !in taken
    && exists k: nat :: k <= |taken| && id == At(start, k) && forall j: nat :: j < k ==> At(start, j) in taken
  }

  function Ring(start: nat, k: nat): seq<nat> {
    seq(k, j requires 0 <= j < k => At(start, j))
  }

  /** More places in a row than there are taken ids cannot all be taken. */
  lemma Pigeonhole(taken: set<nat>, start: nat, k: nat)
    requires 1 <= start <= MAX_ID && k <= MAX_ID && forall j: nat :: j < k ==> At(start, j) in taken
    ensures k <= |taken|
  {
    var ring := Ring(start, k);
    assert Distinct(ring);
    DistinctSize(ring);
    SubsetSize(Elements(ring), taken);
  }

  method FindId(taken: set<nat>, start: nat) returns (id: nat)
    requires 1 <= start <= MAX_ID && |taken| < MAX_ID
    ensures FirstFree(taken, start, id)
  {
    id := start;
    ghost var k := 0;
    while id in taken
      invariant id == At(start, k) && k <= |taken| && 1 <= id <= MAX_ID
      invariant forall j: nat :: j < k ==> At(start, j) in taken
      decreases |taken| - k
    {
      Pigeonhole(taken, start, k + 1);
      id := if id == MAX_ID then 1 else id + 1;
      k := k + 1;
    }
    assert id == At(start, k);
  }

  lemma FirstFreeUnique(taken: set<nat>, start: nat, a: nat, b: nat)
    requires FirstFree(taken, start, a) && FirstFree(taken, start, b)
    ensures a == b
  {
  }

  // ---------------------------------------------------------------- the steps

  /** Why a request came to nothing at once. */
  datatype Sent = Accepted(id: nat) | Closed | Backpressure | TooLarge

  ghost function Allocated(s: State): nat {
    if exists id: nat :: FirstFree(s.pending.Keys, s.nextId, id) then
      var id: nat :| FirstFree(s.pending.Keys, s.nextId, id);
      id
    else 0
  }

  lemma AllocatedIsFree(s: State)
    requires 1 <= s.nextId <= MAX_ID && |s.pending| < MAX_ID
    ensures FirstFree(s.pending.Keys, s.nextId, Allocated(s))
  {
    KeysSize(s.pending);
    IdExists(s.pending.Keys, s.nextId, 0);
  }

  lemma KeysSize(pending: map<nat, Pending>)
    ensures |pending.Keys| == |pending|
  {
  }

  lemma {:induction false} IdExists(taken: set<nat>, start: nat, k: nat)
    requires 1 <= start <= MAX_ID && k <= |taken| < MAX_ID && forall j: nat :: j < k ==> At(start, j) in taken
    ensures exists id: nat :: FirstFree(taken, start, id)
    decreases |taken| - k
  {
    if At(start, k) in taken {
      Pigeonhole(taken, start, k + 1);
      IdExists(taken, start, k + 1);
    } else {
      assert FirstFree(taken, start, At(start, k));
    }
  }

  ghost function AfterFail(s: State): State {
    if s.closed then s
    else s.(closed := true, pending := map[], settled := s.settled + LostAll(s.pending))
  }

  function Serials(pending: map<nat, Pending>): set<nat> {
    set id | id in pending :: pending[id].serial
  }

  function LostAll(pending: map<nat, Pending>): map<nat, Outcome> {
    map serial | serial in Serials(pending) :: Lost
  }

  /** `fits`: the body leaves room for a frame; `writes`: the socket takes the bytes without throwing. */
  ghost function AfterSend(s: State, opcode: byte, fits: bool, writes: bool): (State, Sent) {
    if s.closed then (s, Closed)
    else if |s.pending| >= s.maxPending then (s, Backpressure)
    else
      var id := Allocated(s);
      var moved := s.(nextId := NextId(id));
      if !fits then (moved, TooLarge)
      else
        var sent := moved.(pending := s.pending[id := Pending(opcode, s.made)], made := s.made + 1);
        (if writes then sent else AfterFail(sent), Accepted(id))
  }

  /** A reply frame, and whether the request's own parser takes its body. */
  datatype Frame = Frame(opcode: byte, id: nat, body: seq<byte>, parses: bool)

  /** The error reply of the broker, as the client reads it. */
  function ErrorCode(body: seq<byte>): Option<nat> {
    match ParseNumber(body, 2)
    case Bad(_) => None
    case Parsed(code, rest) =>
      match ParseString(rest, 65_535)
      case Bad(_) => None
      case Parsed(_, rest) => if rest == [] && 1 <= code <= 12 then Some(code) else None
  }

  /** What a frame says to the request under its id, if it may say anything. */
  function Verdict(s: State, f: Frame): Option<Outcome> {
    if f.id == 0 || f.id !in s.pending then None
    else if f.opcode == ERROR_OPCODE then
      match ErrorCode(f.body)
      case None => None
      case Some(code) => Some(Refusal(f.id, code))
    else if f.opcode as int == s.pending[f.id].opcode + 0x80 && f.parses then Some(Reply(f.id, f.opcode, f.body))
    else None
  }

  ghost function AfterReceive(s: State, f: Frame): State {
    if s.closed then s
    else
      match Verdict(s, f)
      case None => AfterFail(s)
      case Some(outcome) =>
        s.(pending := s.pending - {f.id}, settled := s.settled[s.pending[f.id].serial := outcome])
  }

  // ---------------------------------------------------------------- the invariant

  ghost predicate Bounded(s: State) {
    && 1 <= s.nextId <= MAX_ID && s.maxPending < MAX_ID && |s.pending| <= s.maxPending
    && (forall id :: id in s.pending ==> 1 <= id <= MAX_ID && 1 <= s.pending[id].opcode < 0x80)
    && (s.closed ==> s.pending == map[])
  }

  ghost predicate SerialsDiffer(s: State) {
    forall a, b :: a in s.pending && b in s.pending && s.pending[a].serial == s.pending[b].serial ==> a == b
  }

  /** Every request made is either still pending or settled, and not both. */
  ghost predicate Accounted(s: State) {
    forall n: nat ::
      (n < s.made <==> n in Serials(s.pending) || n in s.settled) && !(n in Serials(s.pending) && n in s.settled)
  }

  ghost predicate Inv(s: State) {
    Bounded(s) && SerialsDiffer(s) && Accounted(s)
  }

  lemma SerialsAfterAdd(pending: map<nat, Pending>, id: nat, p: Pending)
    requires id !in pending
    ensures Serials(pending[id := p]) == Serials(pending) + {p.serial}
  {
    var after := pending[id := p];
    forall n | n in Serials(pending) + {p.serial} ensures n in Serials(after) {
      if n in Serials(pending) {
        var a :| a in pending && pending[a].serial == n;
        assert a in after && after[a].serial == n;
      } else {
        assert id in after && after[id].serial == n;
      }
    }
  }

  lemma SerialsAfterRemove(s: State, id: nat)
    requires SerialsDiffer(s) && id in s.pending
    ensures Serials(s.pending - {id}) == Serials(s.pending) - {s.pending[id].serial}
  {
    var after := s.pending - {id};
    forall n | n in Serials(s.pending) && n != s.pending[id].serial ensures n in Serials(after) {
      var a :| a in s.pending && s.pending[a].serial == n;
      assert a in after && after[a].serial == n;
    }
  }

  lemma FailInv(s: State)
    requires Inv(s)
    ensures Inv(AfterFail(s))
  {
    assert Serials(map[]) == {};
  }

  lemma AddAccounts(s: State, id: nat, opcode: byte)
    requires SerialsDiffer(s) && Accounted(s) && id !in s.pending
    ensures var t := s.(nextId := NextId(id), pending := s.pending[id := Pending(opcode, s.made)], made := s.made + 1);
            SerialsDiffer(t) && Accounted(t)
  {
    hide Serials;
    SerialsAfterAdd(s.pending, id, Pending(opcode, s.made));
    assert s.made !in Serials(s.pending) && s.made !in s.settled;
    SerialsOf(s.pending);
  }

  lemma SerialsOf(pending: map<nat, Pending>)
    ensures forall a :: a in pending ==> pending[a].serial in Serials(pending)
  {
  }

  lemma AddInv(s: State, id: nat, opcode: byte)
    requires Inv(s) && !s.closed && |s.pending| < s.maxPending && 1 <= id <= MAX_ID && id !in s.pending
             && 1 <= opcode < 0x80
    ensures Inv(s.(nextId := NextId(id), pending := s.pending[id := Pending(opcode, s.made)], made := s.made + 1))
  {
    hide SerialsDiffer, Accounted, Serials;
    AddAccounts(s, id, opcode);
  }

  lemma SendInv(s: State, opcode: byte, fits: bool, writes: bool)
    requires Inv(s) && 1 <= opcode < 0x80
    ensures Inv(AfterSend(s, opcode, fits, writes).0)
  {
    if !s.closed && |s.pending| < s.maxPending {
      AllocatedIsFree(s);
      var id := Allocated(s);
      var sent := s.(nextId := NextId(id), pending := s.pending[id := Pending(opcode, s.made)], made := s.made + 1);
      AddInv(s, id, opcode);
      if fits && !writes {
        FailInv(sent);
      }
    }
  }

  lemma ReceiveInv(s: State, f: Frame)
    requires Inv(s)
    ensures Inv(AfterReceive(s, f))
  {
    hide ErrorCode;
    if !s.closed {
      match Verdict(s, f) {
        case None => FailInv(s);
        case Some(outcome) =>
          SerialsAfterRemove(s, f.id);
          assert s.pending[f.id].serial in Serials(s.pending);
      }
    }
  }

  // ---------------------------------------------------------------- what each call does

  /** The frame is a reply to the request pending under its id, and the request's parser takes its body. */
  ghost predicate Replies(s: State, f: Frame) {
    f.id in s.pending && f.opcode != 0xff && f.opcode as int == s.pending[f.id].opcode as int + 0x80 && f.parses
  }

  /** The frame is an error for the request pending under its id, with a code the client knows. */
  ghost predicate Errs(s: State, f: Frame) {
    f.id in s.pending && f.opcode == 0xff && ErrorCode(f.body).Some?
  }

  /** Only the request under the frame's id is settled, and everything else is as it was. */
  ghost predicate SettlesOnly(s: State, t: State, id: nat, outcome: Outcome) {
    && id in s.pending && t == s.(pending := t.pending, settled := t.settled) && !t.closed
    && t.pending.Keys == s.pending.Keys - {id} && (forall k :: k in t.pending ==> t.pending[k] == s.pending[k])
    && s.pending[id].serial in t.settled && t.settled[s.pending[id].serial] == outcome
    && s.pending[id].serial !in s.settled
    && (forall n :: n != s.pending[id].serial ==>
          (n in t.settled <==> n in s.settled) && (n in s.settled ==> t.settled[n] == s.settled[n]))
  }

  /** On an open connection a good reply settles its request with that reply, a readable error settles it
      with the error's code, and every other frame, and none of these, closes the connection, which loses
      all that is pending. */
  lemma ReceiveDecides(s: State, f: Frame)
    requires Inv(s) && !s.closed
    ensures var t := AfterReceive(s, f);
            && (Replies(s, f) ==> SettlesOnly(s, t, f.id, Reply(f.id, f.opcode, f.body)))
            && (Errs(s, f) ==> SettlesOnly(s, t, f.id, Refusal(f.id, ErrorCode(f.body).value)))
            && (t.closed <==> !Replies(s, f) && !Errs(s, f))
            && (t.closed ==> t.pending == map[] && forall id :: id in s.pending ==>
                  s.pending[id].serial in t.settled && t.settled[s.pending[id].serial] == Lost)
  {
    hide ErrorCode;
    PendingUnsettled(s);
    if Verdict(s, f).None? {
      FailSettles(s);
    }
  }

  lemma PendingUnsettled(s: State)
    requires Inv(s)
    ensures forall id :: id in s.pending ==>
              s.pending[id].serial < s.made && s.pending[id].serial !in s.settled && 1 <= id <= MAX_ID
              && 1 <= s.pending[id].opcode < 0x80
  {
    forall id | id in s.pending ensures s.pending[id].serial in Serials(s.pending) {
    }
  }

  /** A send is refused exactly on a closed connection, with a full table, or for a body that fits no frame;
      otherwise the request goes into the table under the first free id, and stays there unless the
      socket threw. */
  lemma SendDecides(s: State, opcode: byte, fits: bool, writes: bool)
    requires Inv(s) && 1 <= opcode < 0x80
    ensures var (t, sent) := AfterSend(s, opcode, fits, writes);
            && (s.closed ==> sent == Closed && t == s)
            && (!s.closed && |s.pending| >= s.maxPending ==> sent == Backpressure && t == s)
            && (!s.closed && |s.pending| < s.maxPending && !fits ==> sent == TooLarge && t == s.(nextId := t.nextId))
            && (sent.Accepted? <==> !s.closed && |s.pending| < s.maxPending && fits)
            && (sent.Accepted? ==> FirstFree(s.pending.Keys, s.nextId, sent.id) && t.made == s.made + 1)
            && (sent.Accepted? && writes ==>
                  && t == s.(pending := s.pending[sent.id := Pending(opcode, s.made)], made := s.made + 1,
                             nextId := t.nextId))
            && (sent.Accepted? && !writes ==>
                  t.closed && t.pending == map[] && forall n: nat :: n < t.made ==> n in t.settled)
  {
    if !s.closed && |s.pending| < s.maxPending {
      AllocatedIsFree(s);
      var id := Allocated(s);
      var u := s.(nextId := NextId(id), pending := s.pending[id := Pending(opcode, s.made)], made := s.made + 1);
      AddInv(s, id, opcode);
      FailSettles(u);
    }
  }

  // ---------------------------------------------------------------- runs

  datatype Step = Send(opcode: byte, fits: bool, writes: bool) | Receive(frame: Frame) | Fail

  ghost predicate Next(s: State, step: Step, t: State) {
    match step
    case Send(opcode, fits, writes) => 1 <= opcode < 0x80 && t == AfterSend(s, opcode, fits, writes).0
    case Receive(f) => t == AfterReceive(s, f)
    case Fail => t == AfterFail(s)
  }

  function Start(maxPending: nat): State {
    State(map[], 1, false, maxPending, 0, map[])
  }

  lemma StartInv(maxPending: nat)
    requires maxPending <= 256
    ensures Inv(Start(maxPending))
  {
  }

  lemma StepInv(s: State, step: Step, t: State)
    requires Inv(s) && Next(s, step, t)
    ensures Inv(t)
  {
    hide Inv;
    match step {
      case Send(opcode, fits, writes) => SendInv(s, opcode, fits, writes);
      case Receive(f) => ReceiveInv(s, f);
      case Fail => FailInv(s);
    }
  }

  /** What one step may do to a request: nothing, or settle it once and for all, with a reply only if the
      frame carries the request's own id and its own opcode, or an error frame with its own id. */
  ghost predicate Fair(s: State, step: Step, t: State, n: nat) {
    && (n in s.settled ==> n in t.settled && t.settled[n] == s.settled[n])
    && (n !in s.settled && n in t.settled && t.settled[n].Reply? ==>
          exists id :: id in s.pending && s.pending[id].serial == n && step.Receive?
                       && step.frame.id == id && step.frame.opcode as int == s.pending[id].opcode + 0x80
                       && t.settled[n] == Reply(id, step.frame.opcode, step.frame.body))
    && (n !in s.settled && n in t.settled && t.settled[n].Refusal? ==>
          exists id :: id in s.pending && s.pending[id].serial == n && step.Receive?
                       && step.frame.id == id && step.frame.opcode == ERROR_OPCODE
                       && ErrorCode(step.frame.body) == Some(t.settled[n].code))
    && (n !in s.settled && n in t.settled && t.settled[n].Lost? ==> t.closed && !s.closed)
  }

  lemma StepFair(s: State, step: Step, t: State, n: nat)
    requires Inv(s) && Next(s, step, t)
    ensures Fair(s, step, t, n)
  {
    hide ErrorCode;
    match step {
      case Send(opcode, fits, writes) => SendFair(s, opcode, fits, writes, n);
      case Receive(f) =>
        if !s.closed {
          match Verdict(s, f) {
            case None => FailFair(s, n);
            case Some(outcome) => assert s.pending[f.id].serial in Serials(s.pending);
          }
        }
      case Fail => FailFair(s, n);
    }
  }

  lemma FailFair(s: State, n: nat)
    requires Inv(s)
    ensures n in s.settled ==> n in AfterFail(s).settled && AfterFail(s).settled[n] == s.settled[n]
    ensures n !in s.settled && n in AfterFail(s).settled ==>
              AfterFail(s).settled[n] == Lost && !s.closed && AfterFail(s).closed
  {
  }

  lemma SendFair(s: State, opcode: byte, fits: bool, writes: bool, n: nat)
    requires Inv(s) && 1 <= opcode < 0x80
    ensures var t := AfterSend(s, opcode, fits, writes).0;
            && (n in s.settled ==> n in t.settled && t.settled[n] == s.settled[n])
            && (n !in s.settled && n in t.settled ==> t.settled[n] == Lost && t.closed && !s.closed)
  {
    if !s.closed && |s.pending| < s.maxPending {
      AllocatedIsFree(s);
      var id := Allocated(s);
      AddInv(s, id, opcode);
      FailFair(s.(nextId := NextId(id), pending := s.pending[id := Pending(opcode, s.made)], made := s.made + 1), n);
    }
  }

  ghost predicate IsRun(states: seq<State>, steps: seq<Step>, maxPending: nat) {
    && |states| == |steps| + 1 && states[0] == Start(maxPending)
    && forall i :: 0 <= i < |steps| ==> Next(states[i], steps[i], states[i + 1])
  }

  lemma {:induction false} RunInv(states: seq<State>, steps: seq<Step>, maxPending: nat, i: nat)
    requires IsRun(states, steps, maxPending) && maxPending <= 256 && i < |states|
    ensures Inv(states[i])
  {
    hide Inv, Next;
    if i == 0 {
      StartInv(maxPending);
    } else {
      RunInv(states, steps, maxPending, i - 1);
      StepInv(states[i - 1], steps[i - 1], states[i]);
    }
  }

  /** Over any run of sends, replies in any order and failures: a request once settled keeps its outcome,
      so it is settled exactly once; while unsettled it stays pending under one id; and when the
      connection has failed nothing is left unsettled. */
  lemma {:induction false} SettledOnce(states: seq<State>, steps: seq<Step>, maxPending: nat, i: nat, j: nat, n: nat)
    requires IsRun(states, steps, maxPending) && maxPending <= 256 && i <= j < |states| && n < states[i].made
    ensures n < states[j].made
    ensures n in states[i].settled ==> n in states[j].settled && states[j].settled[n] == states[i].settled[n]
    ensures n !in states[j].settled ==> exists id :: id in states[j].pending && states[j].pending[id].serial == n
    ensures states[j].closed ==> n in states[j].settled
    decreases j
  {
    hide Next;
    RunInv(states, steps, maxPending, j);
    if i < j {
      SettledOnce(states, steps, maxPending, i, j - 1, n);
      RunInv(states, steps, maxPending, j - 1);
      StepFair(states[j - 1], steps[j - 1], states[j], n);
      MadeGrows(states[j - 1], steps[j - 1], states[j]);
    }
    assert n in Serials(states[j].pending) || n in states[j].settled;
  }

  lemma MadeGrows(s: State, step: Step, t: State)
    requires Next(s, step, t)
    ensures s.made <= t.made
  {
    hide ErrorCode, Inv;
  }

  // ---------------------------------------------------------------- the class

  /** `Client`: the table and the cursor of `send`, `receive` and `fail`. */
  class Client {
    var pending: map<nat, Pending>
    var nextRequestId: nat
    var closed: bool
    const maxPendingRequests: nat
    /** The promises handed out so far, and what became of them. */
    var made: nat
    var settled: map<nat, Outcome>

    ghost function View(): State
      reads this
    {
      State(pending, nextRequestId, closed, maxPendingRequests, made, settled)
    }

    constructor (maxPending: nat)
      requires maxPending <= 256
      ensures View() == Start(maxPending) && Inv(View())
    {
      pending, nextRequestId, closed, maxPendingRequests := map[], 1, false, maxPending;
      made, settled := 0, map[];
      new;
      StartInv(maxPending);
    }

    /** Every request ever made is settled afterwards: as before if it was, and as lost if it was pending. */
    method Fail()
      requires Inv(View())
      modifies this
      ensures Inv(View()) && View() == AfterFail(old(View()))
      ensures closed && pending == map[] && made == old(made) && forall n: nat :: n < made ==> n in settled
      ensures forall n :: n in settled ==> settled[n] == if n in old(settled) then old(settled)[n] else Lost
    {
      hide Inv, Serials, LostAll;
      FailInv(View());
      FailSettles(View());
      if closed {
        return;
      }
      closed := true;
      settled := settled + LostAll(pending);
      pending := map[];
    }

    method Send(opcode: byte, fits: bool, writes: bool) returns (r: Sent)
      requires Inv(View()) && 1 <= opcode < 0x80
      modifies this
      ensures Inv(View()) && (View(), r) == AfterSend(old(View()), opcode, fits, writes)
      ensures r.Accepted? <==> !old(closed) && |old(pending)| < maxPendingRequests && fits
    {
      hide Inv, FirstFree, AfterFail, Serials;
      ghost var s := View();
      SendInv(s, opcode, fits, writes);
      if closed {
        return Closed;
      }
      if |pending| >= maxPendingRequests {
        return Backpressure;
      }
      TableBounds(s);
      KeysSize(pending);
      var id := FindId(pending.Keys, nextRequestId);
      AllocatedIsFree(s);
      FirstFreeUnique(pending.Keys, nextRequestId, id, Allocated(s));
      FreeInRange(pending.Keys, nextRequestId, id);
      AddInv(s, id, opcode);
      nextRequestId := if id == MAX_ID then 1 else id + 1;
      if !fits {
        return TooLarge;
      }
      Enter(id, opcode, writes);
      r := Accepted(id);
    }

    /** The request goes into the table and its frame to the socket, which may fail the connection. */
    method Enter(id: nat, opcode: byte, writes: bool)
      requires !closed && Inv(View().(pending := pending[id := Pending(opcode, made)], made := made + 1))
      modifies this
      ensures var table := old(pending)[id := Pending(opcode, old(made))];
              var sent := old(View()).(pending := table, made := old(made) + 1);
              View() == if writes then sent else AfterFail(sent)
    {
      hide Inv, AfterFail;
      pending := pending[id := Pending(opcode, made)];
      made := made + 1;
      if !writes {
        Fail();
      }
    }

    /** A frame from the decoder; whatever the request under its id cannot take ends the connection. */
    method Receive(f: Frame)
      requires Inv(View())
      modifies this
      ensures Inv(View()) && View() == AfterReceive(old(View()), f)
      ensures forall n: nat :: n in old(settled) ==> n in settled && settled[n] == old(settled)[n]
      ensures !old(closed) ==> (closed <==> !Replies(old(View()), f) && !Errs(old(View()), f))
      ensures !old(closed) && Replies(old(View()), f) ==>
                SettlesOnly(old(View()), View(), f.id, Reply(f.id, f.opcode, f.body))
      ensures !old(closed) && Errs(old(View()), f) ==>
                SettlesOnly(old(View()), View(), f.id, Refusal(f.id, ErrorCode(f.body).value))
    {
      hide Inv, ErrorCode, Replies, Errs, SettlesOnly;
      if !closed {
        ReceiveDecides(View(), f);
      }
      ReceiveInv(View(), f);
      ReceiveKeeps(View(), f);
      if closed {
        return;
      }
      if f.id == 0 || f.id !in pending {
        Fail();
        return;
      }
      var request := pending[f.id];
      if f.opcode != ERROR_OPCODE && f.opcode as int != request.opcode + 0x80 {
        Fail();
        return;
      }
      if f.opcode == ERROR_OPCODE {
        var code := ReadError(f.body);
        if code.None? {
          Fail();
          return;
        }
        pending := pending - {f.id};
        settled := settled[request.serial := Refusal(f.id, code.value)];
        return;
      }
      if !f.parses {
        Fail();
        return;
      }
      pending := pending - {f.id};
      settled := settled[request.serial := Reply(f.id, f.opcode, f.body)];
    }
  }

  lemma FailSettles(s: State)
    requires Inv(s)
    ensures AfterFail(s).closed && AfterFail(s).pending == map[] && AfterFail(s).made == s.made
    ensures forall n: nat :: n < s.made ==> n in AfterFail(s).settled
    ensures forall n ::
              n in AfterFail(s).settled ==> AfterFail(s).settled[n] == if n in s.settled then s.settled[n] else Lost
  {
    assert Serials(map[]) == {};
  }

  lemma ReceiveKeeps(s: State, f: Frame)
    requires Inv(s)
    ensures forall n ::
              n in s.settled ==> n in AfterReceive(s, f).settled && AfterReceive(s, f).settled[n] == s.settled[n]
  {
    hide Inv, AfterReceive;
    forall n | n in s.settled ensures n in AfterReceive(s, f).settled && AfterReceive(s, f).settled[n] == s.settled[n] {
      StepFair(s, Step.Receive(f), AfterReceive(s, f), n);
    }
  }

  lemma FreeInRange(taken: set<nat>, start: nat, id: nat)
    requires FirstFree(taken, start, id)
    ensures 1 <= id <= MAX_ID && id !in taken
  {
  }

  lemma TableBounds(s: State)
    requires Inv(s)
    ensures 1 <= s.nextId <= MAX_ID && |s.pending| < MAX_ID
  {
  }

  method ReadError(body: seq<byte>) returns (code: Option<nat>)
    ensures code == ErrorCode(body)
  {
    hide ParseNumber, ParseString;
    var reader := new Reader(body);
    var n := reader.Unsigned(2);
    if n.Err? {
      return None;
    }
    var message := reader.String(65_535);
    if message.Err? {
      return None;
    }
    var ended := reader.Finish();
    if !ended || !(1 <= n.value <= 12) {
      return None;
    }
    code := Some(n.value);
  }

  /** The client reads a code exactly from the error bodies that carry it with a message. */
  lemma ErrorCodeExact(body: seq<byte>, code: nat)
    ensures ErrorCode(body) == Some(code)
            <==> 1 <= code <= 12 && exists message :: ErrorText(message) && body == Scalar(code, 2) + PutString(message)
  {
    hide ParseNumber, ParseString, Scalar, PutString, Utf8.ValidUtf8;
    if 1 <= code <= 12 && exists message :: ErrorText(message) && body == Scalar(code, 2) + PutString(message) {
      var message :| ErrorText(message) && body == Scalar(code, 2) + PutString(message);
      ErrorBodyReads(code, message);
    }
    if ErrorCode(body) == Some(code) {
      var p1 := ParseNumber(body, 2);
      NumberCodec(body, 2, code, p1.rest);
      var p2 := ParseString(p1.rest, 65_535);
      StringCodec(p1.rest, 65_535, p2.value, []);
      assert PutString(p2.value) + [] == PutString(p2.value);
      assert ErrorText(p2.value) && body == Scalar(code, 2) + PutString(p2.value);
    }
  }

  predicate ErrorText(message: seq<byte>) {
    |message| <= 65_535 && Utf8.ValidUtf8(message)
  }

  /** The broker's error body carries its code to the client, for every code it has and every message
      that fits. */
  lemma ErrorBodyReads(code: nat, message: seq<byte>)
    requires 1 <= code <= 12 && |message| <= 65_535 && Utf8.ValidUtf8(message)
    ensures ErrorCode(Scalar(code, 2) + PutString(message)) == Some(code)
  {
    hide ParseNumber, ParseString, Scalar, PutString, Utf8.ValidUtf8;
    Powers();
    var rest := PutString(message);
    NumberCodec(Scalar(code, 2) + rest, 2, code, rest);
    assert rest + [] == rest;
    StringCodec(rest, 65_535, message, []);
  }
}
