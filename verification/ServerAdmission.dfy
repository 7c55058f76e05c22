/**
 One connection's admission on the broker, step by step: the reader's id check and permit, operations
 that finish in any order, and a writer that gives both back before the first response byte can be seen.
 The peer is a client that keeps at most 32 requests unanswered and reuses an id only after its reply.
 */
module ServerAdmission {
  import opened Basics

  const MAX_IN_FLIGHT := 32

  /** Where the loop that takes frames stands; `Refused` and `Duplicate` are its two complaints. */
  datatype Reader = Idle | Got(id: nat) | Inserted(id: nat) | Admitted(id: nat) | Awaiting(id: nat)
                  | Duplicate(id: nat) | Refused(id: nat)

  /** Where the writer stands with the response it has taken. */
  datatype Writer = Free | Holding(id: nat) | Dropped(id: nat) | Retired(id: nat) | Writing(id: nat)

  /** `toServer` is on its way in, `visible` are replies the client can see and has not read yet. */
  datatype State = State(
    unanswered: set<nat>, toServer: seq<nat>, reader: Reader, ids: set<nat>, permits: int,
    working: set<nat>, writer: Writer, visible: set<nat>)

  function Start(): State {
    State({}, [], Idle, {}, MAX_IN_FLIGHT, {}, Free, {})
  }

  /** The steps, each as small as any other part of the broker can observe. */
  datatype Step =
    | Send(id: nat)        // the client sends a request
    | Arrive               // a frame reaches the loop
    | Insert               // its id is entered among the live ids
    | Acquire              // a permit is tried for
    | Spawn                // the operation is dispatched
    | Reject               // the request is invalid: an error response takes its place, and the loop waits
    | Resume               // the loop sees that response written
    | Take(id: nat)        // the writer takes a finished response
    | Drop                 // its permit goes back
    | Remove               // its id leaves the live ids
    | Show                 // its bytes may be seen
    | Written              // the write returns
    | Read(id: nat)        // the client reads a reply

  predicate Enabled(s: State, step: Step) {
    match step
    case Send(id) => id !in s.unanswered && |s.unanswered| < MAX_IN_FLIGHT
    case Arrive => s.reader.Idle? && s.toServer != []
    case Insert => s.reader.Got?
    case Acquire => s.reader.Inserted?
    case Spawn => s.reader.Admitted?
    case Reject => s.reader.Admitted?
    case Resume => s.reader.Awaiting? && s.reader.id !in s.working && !(s.writer != Free && s.writer.id == s.reader.id)
    case Take(id) => s.writer.Free? && id in s.working
    case Drop => s.writer.Holding?
    case Remove => s.writer.Dropped?
    case Show => s.writer.Retired?
    case Written => s.writer.Writing?
    case Read(id) => id in s.visible
  }

  function Apply(s: State, step: Step): State
    requires Enabled(s, step)
  {
    match step
    case Send(id) => s.(unanswered := s.unanswered + {id}, toServer := s.toServer + [id])
    case Arrive => s.(reader := Got(s.toServer[0]), toServer := s.toServer[1..])
    case Insert =>
      if s.reader.id in s.ids then s.(reader := Duplicate(s.reader.id))
      else s.(reader := Inserted(s.reader.id), ids := s.ids + {s.reader.id})
    case Acquire =>
      if s.permits <= 0 then s.(reader := Refused(s.reader.id))
      else s.(reader := Admitted(s.reader.id), permits := s.permits - 1)
    case Spawn => s.(reader := Idle, working := s.working + {s.reader.id})
    case Reject => s.(reader := Awaiting(s.reader.id), working := s.working + {s.reader.id})
    case Resume => s.(reader := Idle)
    case Take(id) => s.(writer := Holding(id), working := s.working - {id})
    case Drop => s.(writer := Dropped(s.writer.id), permits := s.permits + 1)
    case Remove => s.(writer := Retired(s.writer.id), ids := s.ids - {s.writer.id})
    case Show => s.(writer := Writing(s.writer.id), visible := s.visible + {s.writer.id})
    case Written => s.(writer := Free)
    case Read(id) => s.(visible := s.visible - {id}, unanswered := s.unanswered - {id})
  }

  // ---------------------------------------------------------------- where every unanswered request is

  function AtReader(r: Reader): set<nat> {
    if r.Got? || r.Inserted? || r.Admitted? then {r.id} else {}
  }

  function AtWriter(w: Writer): set<nat> {
    if w.Holding? || w.Dropped? || w.Retired? then {w.id} else {}
  }

  /** Every unanswered request is in exactly one place. */
  ghost predicate Placed(s: State) {
    && Distinct(s.toServer)
    && Split(s.unanswered, Elements(s.toServer), AtReader(s.reader), s.working, AtWriter(s.writer), s.visible)
  }

  function Live(s: State): set<nat> {
    s.working + (if s.reader.Inserted? || s.reader.Admitted? then {s.reader.id} else {})
    + (if s.writer.Holding? || s.writer.Dropped? then {s.writer.id} else {})
  }

  function Permitted(s: State): set<nat> {
    s.working + (if s.reader.Admitted? then {s.reader.id} else {}) + (if s.writer.Holding? then {s.writer.id} else {})
  }

  /** The live ids and the permits in use are those of the requests between the id check and the writer. */
  ghost predicate Counted(s: State) {
    && s.ids == Live(s) && s.permits == MAX_IN_FLIGHT - |Permitted(s)|
    && |s.unanswered| <= MAX_IN_FLIGHT
    && !s.reader.Duplicate? && !s.reader.Refused?
  }

  ghost predicate Inv(s: State) {
    Placed(s) && Counted(s)
  }

  lemma DistinctTail(q: seq<nat>)
    requires q != [] && Distinct(q)
    ensures Distinct(q[1..]) && q[0] !in q[1..] && Elements(q) == {q[0]} + Elements(q[1..])
  {
    assert q == [q[0]] + q[1..];
    assert forall i :: 0 <= i < |q[1..]| ==> q[1..][i] == q[i + 1];
  }

  lemma DistinctGrows(q: seq<nat>, x: nat)
    requires Distinct(q) && x !in q
    ensures Distinct(q + [x]) && Elements(q + [x]) == Elements(q) + {x}
  {
  }

  /** The five places as sets, which is all that matters about them. */
  ghost predicate Split(whole: set<nat>, a: set<nat>, b: set<nat>, c: set<nat>, d: set<nat>, e: set<nat>) {
    && (forall x :: x in whole <==> x in a || x in b || x in c || x in d || x in e)
    && (forall x :: x in a ==> x !in b && x !in c && x !in d && x !in e)
    && (forall x :: x in b ==> x !in c && x !in d && x !in e)
    && (forall x :: x in c ==> x !in d && x !in e)
    && (forall x :: x in d ==> x !in e)
  }

  predicate ClientStep(step: Step) {
    step.Send? || step.Read?
  }

  predicate ReaderStep(step: Step) {
    step.Arrive? || step.Insert? || step.Acquire? || step.Spawn? || step.Reject? || step.Resume?
  }

  lemma ClientPlaces(s: State, step: Step)
    requires Inv(s) && Enabled(s, step) && ClientStep(step)
    ensures Placed(Apply(s, step))
  {
    hide Elements, Distinct, Counted, Split;
    if step.Send? {
      InToServer(s.toServer, step.id);
      NotElsewhere(s, step.id);
      DistinctGrows(s.toServer, step.id);
      SplitGrows(s.unanswered, Elements(s.toServer), AtReader(s.reader), s.working, AtWriter(s.writer), s.visible,
                 step.id);
    } else {
      SplitShrinks(s.unanswered, Elements(s.toServer), AtReader(s.reader), s.working, AtWriter(s.writer), s.visible,
                   step.id);
    }
  }

  lemma NotElsewhere(s: State, id: nat)
    requires Placed(s) && id !in s.unanswered
    ensures id !in Elements(s.toServer)
  {
    hide Elements;
  }

  lemma SplitGrows(whole: set<nat>, a: set<nat>, b: set<nat>, c: set<nat>, d: set<nat>, e: set<nat>, x: nat)
    requires Split(whole, a, b, c, d, e) && x !in whole
    ensures Split(whole + {x}, a + {x}, b, c, d, e)
  {
  }

  lemma SplitShrinks(whole: set<nat>, a: set<nat>, b: set<nat>, c: set<nat>, d: set<nat>, e: set<nat>, x: nat)
    requires Split(whole, a, b, c, d, e) && x in e
    ensures Split(whole - {x}, a, b, c, d, e - {x})
  {
  }

  lemma InToServer(q: seq<nat>, x: nat)
    ensures x in q <==> x in Elements(q)
  {
  }

  lemma OneLess(a: set<nat>, x: nat)
    requires x in a
    ensures |a - {x}| == |a| - 1
  {
  }

  lemma OneMore(a: set<nat>, x: nat)
    requires x !in a
    ensures |a + {x}| == |a| + 1
  {
  }

  /** A request the loop holds without a permit leaves room for its permit. */
  lemma PermitFree(s: State)
    requires Placed(s) && |s.unanswered| <= MAX_IN_FLIGHT && s.reader.Inserted?
    ensures |Permitted(s)| < MAX_IN_FLIGHT
  {
    hide Elements, Distinct;
    var id := s.reader.id;
    assert Permitted(s) <= s.unanswered - {id};
    SubsetSize(Permitted(s), s.unanswered - {id});
    OneLess(s.unanswered, id);
  }

  /** What the loop is about to find: its id is not live, and a permit is free. */
  lemma Clear(s: State)
    requires Inv(s)
    ensures s.reader.Got? ==> s.reader.id !in s.ids
    ensures s.reader.Inserted? ==> s.permits > 0
  {
    hide Elements, Distinct, Permitted;
    if s.reader.Got? {
      assert s.reader.id !in Live(s);
    }
    if s.reader.Inserted? {
      PermitFree(s);
    }
  }

  lemma ReaderPlaces(s: State, step: Step)
    requires Inv(s) && Enabled(s, step) && ReaderStep(step)
    ensures Placed(Apply(s, step))
  {
    hide Elements, Distinct, Counted;
    Clear(s);
    if step.Arrive? {
      DistinctTail(s.toServer);
      InToServer(s.toServer[1..], s.toServer[0]);
    }
  }

  lemma WriterPlaces(s: State, step: Step)
    requires Inv(s) && Enabled(s, step) && !ClientStep(step) && !ReaderStep(step)
    ensures Placed(Apply(s, step))
  {
    hide Elements, Distinct, Counted;
  }

  lemma StepPlaces(s: State, step: Step)
    requires Inv(s) && Enabled(s, step)
    ensures Placed(Apply(s, step))
  {
    hide Inv, Placed;
    if ClientStep(step) {
      ClientPlaces(s, step);
    } else if ReaderStep(step) {
      ReaderPlaces(s, step);
    } else {
      WriterPlaces(s, step);
    }
  }

  lemma LiveIs(s: State)
    ensures Live(s) == s.working + (if s.reader.Inserted? || s.reader.Admitted? then {s.reader.id} else {})
                       + (if s.writer.Holding? || s.writer.Dropped? then {s.writer.id} else {})
  {
  }

  lemma IdsAreLive(s: State)
    requires Inv(s)
    ensures s.ids == Live(s)
  {
  }

  lemma Enters(working: set<nat>, id: nat, held: set<nat>)
    ensures working + {} + held + {id} == working + {id} + held
  {
  }

  lemma Leaves(working: set<nat>, read: set<nat>, id: nat)
    requires id !in working && id !in read
    ensures working + read + {id} - {id} == working + read + {}
  {
  }

  lemma WriterAlone(s: State)
    requires Placed(s) && s.writer.Dropped?
    ensures s.writer.id !in s.working
    ensures s.reader.Inserted? || s.reader.Admitted? ==> s.reader.id != s.writer.id
  {
    hide Elements, Distinct;
  }

  lemma StepIds(s: State, step: Step)
    requires Inv(s) && Enabled(s, step)
    ensures Apply(s, step).ids == Live(Apply(s, step))
  {
    hide Placed, Counted, Live, Permitted;
    Clear(s);
    IdsAreLive(s);
    var read := if s.reader.Inserted? || s.reader.Admitted? then {s.reader.id} else {};
    var held := if s.writer.Holding? || s.writer.Dropped? then {s.writer.id} else {};
    LiveIs(s);
    LiveIs(Apply(s, step));
    match step {
      case Insert => Enters(s.working, s.reader.id, held);
      case Remove => WriterAlone(s); Leaves(s.working, read, s.writer.id);
      case Spawn => MovesIn(s.working, s.reader.id, held);
      case Reject => MovesIn(s.working, s.reader.id, held);
      case Take(id) => MovesOut(s.working, read, id);
      case _ =>
    }
  }

  lemma AcquireTakes(s: State)
    requires Inv(s) && s.reader.Inserted? && s.permits > 0
    ensures Permitted(Apply(s, Acquire)) == Permitted(s) + {s.reader.id} && s.reader.id !in Permitted(s)
  {
    hide Elements, Distinct, Live;
  }

  lemma DropReturns(s: State)
    requires Inv(s) && s.writer.Holding?
    ensures Permitted(Apply(s, Drop)) == Permitted(s) - {s.writer.id} && s.writer.id in Permitted(s)
  {
    hide Elements, Distinct, Live;
  }

  lemma OthersKeep(s: State, step: Step)
    requires Inv(s) && Enabled(s, step) && !step.Acquire? && !step.Drop?
    ensures Permitted(Apply(s, step)) == Permitted(s)
  {
    hide Placed, Live, Permitted, Counted;
    match step {
      case Spawn => MovesIn(s.working, s.reader.id, if s.writer.Holding? then {s.writer.id} else {});
      case Reject => MovesIn(s.working, s.reader.id, if s.writer.Holding? then {s.writer.id} else {});
      case Take(id) => MovesOut(s.working, if s.reader.Admitted? then {s.reader.id} else {}, id);
      case _ =>
    }
    PermittedIs(s);
    PermittedIs(Apply(s, step));
  }

  lemma PermittedIs(s: State)
    ensures Permitted(s) == s.working + (if s.reader.Admitted? then {s.reader.id} else {})
                            + (if s.writer.Holding? then {s.writer.id} else {})
  {
  }

  lemma MovesIn(working: set<nat>, id: nat, held: set<nat>)
    ensures working + {id} + {} + held == working + {id} + held
  {
  }

  lemma MovesOut(working: set<nat>, read: set<nat>, id: nat)
    requires id in working
    ensures working - {id} + read + {id} == working + read + {}
  {
  }

  lemma AcquireCounts(s: State)
    requires Inv(s) && s.reader.Inserted?
    ensures Apply(s, Acquire).permits == MAX_IN_FLIGHT - |Permitted(Apply(s, Acquire))|
  {
    hide Placed, Live, Permitted;
    Clear(s);
    AcquireTakes(s);
    OneMore(Permitted(s), s.reader.id);
  }

  lemma DropCounts(s: State)
    requires Inv(s) && s.writer.Holding?
    ensures Apply(s, Drop).permits == MAX_IN_FLIGHT - |Permitted(Apply(s, Drop))|
  {
    hide Placed, Live, Permitted;
    DropReturns(s);
    OneLess(Permitted(s), s.writer.id);
  }

  lemma OthersCount(s: State, step: Step)
    requires Inv(s) && Enabled(s, step) && !step.Acquire? && !step.Drop?
    ensures Apply(s, step).permits == MAX_IN_FLIGHT - |Permitted(Apply(s, step))|
  {
    hide Placed, Live, Permitted;
    OthersKeep(s, step);
  }

  lemma StepPermits(s: State, step: Step)
    requires Inv(s) && Enabled(s, step)
    ensures Apply(s, step).permits == MAX_IN_FLIGHT - |Permitted(Apply(s, step))|
  {
    hide Inv, Apply, Permitted;
    match step {
      case Acquire => AcquireCounts(s);
      case Drop => DropCounts(s);
      case _ => OthersCount(s, step);
    }
  }

  lemma StepUnanswered(s: State, step: Step)
    requires Inv(s) && Enabled(s, step)
    ensures |Apply(s, step).unanswered| <= MAX_IN_FLIGHT
  {
    hide Elements, Distinct, Live, Permitted, Placed;
    if step.Send? {
      OneMore(s.unanswered, step.id);
    } else if step.Read? {
      SubsetSize(s.unanswered - {step.id}, s.unanswered);
    }
  }

  lemma StepCounts(s: State, step: Step)
    requires Inv(s) && Enabled(s, step)
    ensures Counted(Apply(s, step))
  {
    hide Placed, Live, Permitted;
    Clear(s);
    StepIds(s, step);
    StepPermits(s, step);
    StepUnanswered(s, step);
  }

  lemma StepInv(s: State, step: Step)
    requires Inv(s) && Enabled(s, step)
    ensures Inv(Apply(s, step))
  {
    hide Placed, Counted;
    StepPlaces(s, step);
    StepCounts(s, step);
  }

  // ---------------------------------------------------------------- runs

  ghost predicate IsRun(states: seq<State>, steps: seq<Step>) {
    && |states| == |steps| + 1 && states[0] == Start()
    && forall i :: 0 <= i < |steps| ==> Enabled(states[i], steps[i]) && states[i + 1] == Apply(states[i], steps[i])
  }

  lemma {:induction false} RunInv(states: seq<State>, steps: seq<Step>, i: nat)
    requires IsRun(states, steps) && i < |states|
    ensures Inv(states[i])
  {
    hide Inv, Apply, Enabled;
    if i == 0 {
      StartInv();
    } else {
      RunInv(states, steps, i - 1);
      StepInv(states[i - 1], steps[i - 1]);
    }
  }

  lemma StartInv()
    ensures Inv(Start())
  {
  }

  /** In every interleaving the loop never finds a duplicate id and never lacks a permit. */
  lemma NeverSpurious(states: seq<State>, steps: seq<Step>, i: nat)
    requires IsRun(states, steps) && i < |states|
    ensures !states[i].reader.Duplicate? && !states[i].reader.Refused?
    ensures states[i].reader.Got? ==> states[i].reader.id !in states[i].ids
    ensures states[i].reader.Inserted? ==> states[i].permits > 0
  {
    hide IsRun;
    RunInv(states, steps, i);
    if states[i].reader.Inserted? {
      PermitFree(states[i]);
    }
  }
}
