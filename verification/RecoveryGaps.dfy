/**
 Promises recovery keeps only under a condition: that the log found at start-up lasts, and with it every
 cursor into it; that at most one batch beyond the durable ones comes back; and that at most one batch
 nobody was told about remains. Each has its exact condition on what is known before the call, and a run
 that shows it fail: `ServedThenGone`, `TwoBeyondDurable` and `TwoUnacknowledged`.
 */
module RecoveryGaps {
  import opened Basics
  import opened EventLog
  import opened Protocol
  import opened Wal
  import opened Store
  import opened Recovery
  import opened Provenance

  function Reopened(crc: Checksum, limits: Limits, s: State, cut: nat): Result<State>
    requires s.wal.Some? && cut <= |s.wal.value.file|
  {
    Opened(crc, limits, Crashed(s.wal.value, cut))
  }

  // ---------------------------------------------------------------- the log found at start-up may not last

  /** Whatever a crash leaves, a restart finds the log that is in memory now. */
  ghost predicate LogLasts(crc: Checksum, limits: Limits, s: State)
    requires s.wal.Some?
  {
    forall cut | Crashable(s, cut) ::
      Reopened(crc, limits, s, cut).Ok? && Reopened(crc, limits, s, cut).value.batches == s.batches
  }

  lemma LastsWhenSynced(crc: Checksum, limits: Limits, s: State)
    requires Inv(crc, limits, s) && !s.poisoned
    ensures LogLasts(crc, limits, s) <==> s.wal.value.synced == |s.wal.value.file|
  {
    hide LogBytes, Opened, Lawful;
    var durable: nat, attempt :| Explained(crc, limits, s, durable, attempt);
    var all := s.batches + attempt;
    assert all == s.batches && all[..|all|] == s.batches;
    var synced := s.wal.value.synced;
    assert Crashable(s, synced) by {
      LogGrows(crc, s.batches, durable, |s.batches|);
    }
    forall cut | Crashable(s, cut) && synced == |s.wal.value.file|
      ensures Reopened(crc, limits, s, cut).Ok? && Reopened(crc, limits, s, cut).value.batches == s.batches
    {
      var j := RestartExplained(crc, limits, s, durable, attempt, cut);
      if j < |all| {
        LogGrows(crc, all, j + 1, |all|);
      }
    }
    if LogLasts(crc, limits, s) {
      assert Reopened(crc, limits, s, synced).value.batches == s.batches;
      var j := RestartExplained(crc, limits, s, durable, attempt, synced);
      assert j == |all|;
    }
  }

  /** A second restart, after any crash, finds the log of the first one exactly when the first one had
      a torn frame to cut off, or had only synced bytes to read. */
  lemma SecondRestartAgrees(crc: Checksum, limits: Limits, s: State, cut: nat, t: State)
    requires Inv(crc, limits, s) && Next(crc, limits, s, Restart(cut), t)
    ensures Inv(crc, limits, t) && LogLasts(crc, limits, t) <==> cut == s.wal.value.synced || |t.wal.value.file| < cut
  {
    hide LogBytes, Opened, Lawful, LogLasts;
    var durable: nat, attempt :| Explained(crc, limits, s, durable, attempt);
    var j := RestartExplained(crc, limits, s, durable, attempt, cut);
    StepKeepsInv(crc, limits, s, Restart(cut), t);
    LastsWhenSynced(crc, limits, t);
    var all := s.batches + attempt;
    assert t.batches[..j] == all[..j];
    if cut != |LogBytes(crc, all[..j])| {
      assert Explained(crc, limits, t, j, []);
    } else {
      assert Explained(crc, limits, t, durable, []);
      assert t.batches[..durable] == s.batches[..durable];
    }
  }

  // ---------------------------------------------------------------- a cursor may come to lie beyond the log

  /** A later point of the same run. */
  ghost predicate Continues(crc: Checksum, limits: Limits, states: seq<State>, steps: seq<Step>,
                            more: seq<State>, later: seq<Step>)
  {
    IsRun(crc, limits, more, later) && states <= more && steps <= later
  }

  /** No fetch from this cursor will ever be refused as beyond the log, and the events before it stay. */
  ghost predicate CursorLasts(crc: Checksum, limits: Limits, states: seq<State>, steps: seq<Step>, cursor: nat)
    requires |states| == |steps| + 1
  {
    forall more, later | Continues(crc, limits, states, steps, more, later) ::
      CursorStands(Last(states), Last(more), cursor)
  }

  ghost predicate CursorStands(s: State, t: State, cursor: nat) {
    cursor <= |Events(s.batches)| && cursor <= |Events(t.batches)|
    && Events(s.batches)[..cursor] == Events(t.batches)[..cursor]
  }

  /** A cursor outlasts every failure, crash and restart exactly when the events before it are durable. */
  lemma CursorLastsWhenDurable(crc: Checksum, limits: Limits, states: seq<State>, steps: seq<Step>, cursor: nat)
    requires Configured(limits) && IsRun(crc, limits, states, steps)
    ensures Inv(crc, limits, Last(states))
    ensures CursorLasts(crc, limits, states, steps, cursor)
            <==> cursor <= |Events(Durable(crc, limits, Last(states)))|
  {
    hide Inv, Next, Opened, Durable, Events, CursorStands;
    RunInv(crc, limits, states, steps, |steps|);
    var s := Last(states);
    var kept := Durable(crc, limits, s);
    if cursor <= |Events(kept)| {
      forall more, later | Continues(crc, limits, states, steps, more, later)
        ensures CursorStands(s, Last(more), cursor)
      {
        DurableStays(crc, limits, more, later, |steps|, |later|);
        DurableIsPrefix(crc, limits, s);
        PrefixStands(s, Last(more), kept, cursor);
      }
    }
    var t, step := CrashToSynced(crc, limits, s);
    var more, later := Appended(crc, limits, states, steps, step, t);
    if CursorLasts(crc, limits, states, steps, cursor) {
      assert Continues(crc, limits, states, steps, more, later) && Last(more) == t;
      StandsWithin(s, t, cursor);
    }
  }

  lemma PrefixStands(s: State, t: State, kept: seq<Batch>, cursor: nat)
    requires kept <= s.batches && kept <= t.batches && cursor <= |Events(kept)|
    ensures CursorStands(s, t, cursor)
  {
    hide Events;
    EventsExtend(kept, s.batches);
    EventsExtend(kept, t.batches);
  }

  lemma StandsWithin(s: State, t: State, cursor: nat)
    requires CursorStands(s, t, cursor)
    ensures cursor <= |Events(t.batches)|
  {
    hide Events;
  }

  /** The worst crash: nothing unsynced survives it. */
  lemma CrashToSynced(crc: Checksum, limits: Limits, s: State) returns (t: State, step: Step)
    requires Inv(crc, limits, s)
    ensures s.wal.Some? && step == Restart(s.wal.value.synced)
    ensures Next(crc, limits, s, step, t) && t.batches == Durable(crc, limits, s)
  {
    hide Opened, Lawful, Frames, Durable;
    var durable: nat, attempt :| Explained(crc, limits, s, durable, attempt);
    var all, synced := s.batches + attempt, s.wal.value.synced;
    DurableUnique(crc, limits, s, durable, attempt);
    LogGrows(crc, s.batches, durable, |s.batches|);
    assert s.batches[..|s.batches|] == s.batches && all[..durable] == s.batches[..durable];
    var j := RestartExplained(crc, limits, s, durable, attempt, synced);
    if j > durable {
      LogGrows(crc, all, durable, j);
    }
    step := Restart(synced);
    t := Reopened(crc, limits, s, synced).value;
  }

  // ---------------------------------------------------------------- more than one batch beyond the durable ones

  /** The publish would be written: it passes both capacity checks and the sequence range. */
  ghost predicate Fits(crc: Checksum, limits: Limits, batches: seq<Batch>, records: seq<Record>) {
    && Decoded(records)
    && Retained(batches) + RetainedOf(records) <= limits.retained && Count(batches) + |records| <= MAX_U64
    && |LogBytes(crc, batches)| + BatchBytes(records) <= limits.wal
  }

  function Failing(crc: Checksum, limits: Limits, s: State, records: seq<Record>, fault: Fault): State {
    AfterPublish(crc, limits, s, records, fault).0
  }

  /** However the write fails and wherever the crash cuts, at most one batch beyond the durable ones
      comes back. */
  ghost predicate OneBeyondDurable(crc: Checksum, limits: Limits, s: State, records: seq<Record>)
    requires Inv(crc, limits, s)
  {
    forall fault, cut | fault != NoFault && Crashable(Failing(crc, limits, s, records, fault), cut) ::
      var reopened := Reopened(crc, limits, Failing(crc, limits, s, records, fault), cut);
      reopened.Ok? && |reopened.value.batches| <= |Durable(crc, limits, s)| + 1
  }

  /** That holds of a publish about to be written exactly when the whole file is synced before it. */
  lemma AtMostOneBeyondDurable(crc: Checksum, limits: Limits, s: State, records: seq<Record>)
    requires Inv(crc, limits, s) && !s.poisoned && Fits(crc, limits, s.batches, records)
    ensures OneBeyondDurable(crc, limits, s, records) <==> s.wal.value.synced == |s.wal.value.file|
  {
    hide Explained, Opened, Durable, Fits, Failing;
    var durable: nat, attempt :| Explained(crc, limits, s, durable, attempt);
    DurableUnique(crc, limits, s, durable, attempt);
    SyncedCounts(crc, limits, s, durable, attempt);
    forall fault | fault != NoFault ensures OneExtra(crc, limits, Failing(crc, limits, s, records, fault), durable)
      <==> |s.batches| + Whole(crc, s, records, fault) <= durable + 1
    {
      ExtraAfterFault(crc, limits, s, records, fault, durable, attempt);
    }
    assert Whole(crc, s, records, SyncFails) == 1;
    if OneBeyondDurable(crc, limits, s, records) {
      assert OneExtra(crc, limits, Failing(crc, limits, s, records, SyncFails), durable);
    }
  }

  function Whole(crc: Checksum, s: State, records: seq<Record>, fault: Fault): (n: nat)
    ensures n <= 1
  {
    var frame := Frame(crc, Batch(Count(s.batches) + 1, records));
    if Written(fault, frame) == frame then 1 else 0
  }

  ghost predicate OneExtra(crc: Checksum, limits: Limits, t: State, durable: nat) {
    forall cut | Crashable(t, cut) ::
      Reopened(crc, limits, t, cut).Ok? && |Reopened(crc, limits, t, cut).value.batches| <= durable + 1
  }

  lemma SyncedCounts(crc: Checksum, limits: Limits, s: State, durable: nat, attempt: seq<Batch>)
    requires Explained(crc, limits, s, durable, attempt) && !s.poisoned
    ensures durable <= |s.batches| && (durable == |s.batches| <==> s.wal.value.synced == |s.wal.value.file|)
  {
    hide LogBytes, Lawful;
    assert s.batches + attempt == s.batches && s.batches[..|s.batches|] == s.batches;
    LogGrows(crc, s.batches, durable, |s.batches|);
  }

  lemma ExtraAfterFault(crc: Checksum, limits: Limits, s: State, records: seq<Record>, fault: Fault, durable: nat,
                        attempt: seq<Batch>)
    requires Explained(crc, limits, s, durable, attempt) && !s.poisoned && Fits(crc, limits, s.batches, records)
             && fault != NoFault
    ensures OneExtra(crc, limits, Failing(crc, limits, s, records, fault), durable)
            <==> |s.batches| + Whole(crc, s, records, fault) <= durable + 1
  {
    hide Frames, Frame, Opened, Lawful, Count, Retained, RetainedOf, ValidBatch, EncodeRecords;
    var b := Batch(Count(s.batches) + 1, records);
    var t := Failing(crc, limits, s, records, fault);
    assert s.batches + attempt == s.batches;
    PublishExplained(crc, limits, s, durable, attempt, records, fault);
    assert Explained(crc, limits, t, durable, [b]);
    ExtraAfter(crc, limits, s, t, durable, b, fault);
  }

  lemma ExtraAfter(crc: Checksum, limits: Limits, s: State, t: State, durable: nat, b: Batch, fault: Fault)
    requires Explained(crc, limits, t, durable, [b]) && s.batches == t.batches && fault != NoFault
    requires t.wal.value.file == LogBytes(crc, t.batches) + Written(fault, Frame(crc, b))
    ensures (forall cut | Crashable(t, cut) ::
               Reopened(crc, limits, t, cut).Ok? && |Reopened(crc, limits, t, cut).value.batches| <= durable + 1)
            <==> |t.batches| + (if Written(fault, Frame(crc, b)) == Frame(crc, b) then 1 else 0) <= durable + 1
  {
    hide Opened, Lawful, Frames, Frame;
    var all, file := t.batches + [b], t.wal.value.file;
    var whole := if Written(fault, Frame(crc, b)) == Frame(crc, b) then 1 else 0;
    FramesAppend(crc, t.batches, b);
    assert all[..|all|] == all && all[..|t.batches|] == t.batches;
    LogGrows(crc, t.batches, durable, |t.batches|);
    assert t.batches[..|t.batches|] == t.batches;
    assert Crashable(t, |file|);
    var most := RestartExplained(crc, limits, t, durable, [b], |file|);
    WholeInFile(crc, all, file, most, |t.batches| + whole);
    assert |Reopened(crc, limits, t, |file|).value.batches| == |t.batches| + whole;
    forall cut | Crashable(t, cut)
      ensures Reopened(crc, limits, t, cut).Ok? && |Reopened(crc, limits, t, cut).value.batches| <= |t.batches| + whole
    {
      var j := RestartExplained(crc, limits, t, durable, [b], cut);
      NoMoreThan(crc, all, j, most, cut, |file|);
    }
  }

  lemma NoMoreThan(crc: Checksum, all: seq<Batch>, j: nat, most: nat, cut: nat, length: nat)
    requires j <= |all| && most <= |all| && |LogBytes(crc, all[..j])| <= cut <= length
    requires most < |all| ==> length < |LogBytes(crc, all[..most + 1])|
    ensures j <= most
  {
    hide LogBytes;
    if j > most {
      LogGrows(crc, all, most + 1, j);
    }
  }

  /** The two ways to say how many whole frames a file holds agree. */
  lemma WholeInFile(crc: Checksum, all: seq<Batch>, file: seq<byte>, m: nat, n: nat)
    requires m <= |all| && n <= |all|
    requires |LogBytes(crc, all[..m])| <= |file| && (m < |all| ==> |file| < |LogBytes(crc, all[..m + 1])|)
    requires |LogBytes(crc, all[..n])| <= |file| && (n < |all| ==> |file| < |LogBytes(crc, all[..n + 1])|)
    ensures m == n
  {
    hide LogBytes;
    if m < n {
      LogGrows(crc, all, m + 1, n);
    } else if n < m {
      LogGrows(crc, all, n + 1, m);
    }
  }

  // ---------------------------------------------------------------- more than one batch nobody was told about

  /** The batches a restart would find if the crash lost nothing: the whole frames of the file. */
  ghost function OnFile(crc: Checksum, limits: Limits, s: State): seq<Batch> {
    if s.wal.Some? && Reopened(crc, limits, s, |s.wal.value.file|).Ok? then
      Reopened(crc, limits, s, |s.wal.value.file|).value.batches
    else []
  }

  /** Whatever happens from here on, as long as at most one more publish fails, at most one batch of the
      log is unacknowledged. */
  ghost predicate OneUnacknowledged(crc: Checksum, limits: Limits, states: seq<State>, steps: seq<Step>)
    requires |states| == |steps| + 1
  {
    forall more, later | Continues(crc, limits, states, steps, more, later)
                         && Failed(crc, limits, more, later) <= Failed(crc, limits, states, steps) + 1 ::
      |Unacknowledged(crc, limits, more, later)| <= 1
  }

  /** Every whole frame of the file is a batch whose publish was acknowledged. */
  ghost predicate AllAcknowledged(crc: Checksum, limits: Limits, states: seq<State>, steps: seq<Step>)
    requires |states| == |steps| + 1
  {
    forall k: nat :: k < |OnFile(crc, limits, Last(states))| ==> AcknowledgedAt(crc, limits, states, steps, k)
  }

  lemma OnFileIs(crc: Checksum, limits: Limits, s: State, durable: nat, attempt: seq<Batch>) returns (j: nat)
    requires Explained(crc, limits, s, durable, attempt)
    ensures Crashable(s, |s.wal.value.file|) && Reopened(crc, limits, s, |s.wal.value.file|).Ok?
    ensures |s.batches| <= j <= |s.batches + attempt| && OnFile(crc, limits, s) == (s.batches + attempt)[..j]
    ensures j < |s.batches + attempt| ==> |s.wal.value.file| < |LogBytes(crc, (s.batches + attempt)[..j + 1])|
  {
    hide LogBytes, Opened, Lawful;
    var all := s.batches + attempt;
    LogGrows(crc, s.batches, durable, |s.batches|);
    assert s.batches[..|s.batches|] == s.batches == all[..|s.batches|];
    j := RestartExplained(crc, limits, s, durable, attempt, |s.wal.value.file|);
    if j < |s.batches| {
      LogGrows(crc, all, j + 1, |s.batches|);
    }
  }

  /** A step adds at most one batch to the file, and only by an acknowledged or a failed publish. */
  lemma StepOnFile(crc: Checksum, limits: Limits, s: State, step: Step, t: State)
    requires Inv(crc, limits, s) && Next(crc, limits, s, step, t)
    ensures Inv(crc, limits, t) && |t.batches| <= |OnFile(crc, limits, t)|
    ensures |OnFile(crc, limits, t)| <= |OnFile(crc, limits, s)|
            + (if Acknowledges(crc, limits, s, step) then 1 else 0) + (if Fails(crc, limits, s, step) then 1 else 0)
  {
    hide Explained, AfterPublish, Opened, OnFile, LogBytes, Decoded;
    var durable: nat, attempt :| Explained(crc, limits, s, durable, attempt);
    var j := OnFileIs(crc, limits, s, durable, attempt);
    StepKeepsInv(crc, limits, s, step, t);
    match step {
      case Publish(records, fault) => PublishOnFile(crc, limits, s, durable, attempt, records, fault);
      case Restart(cut) =>
        var j2 := RestartExplained(crc, limits, s, durable, attempt, cut);
        NoMoreThan(crc, s.batches + attempt, j2, j, cut, |s.wal.value.file|);
        var d := if cut == |LogBytes(crc, (s.batches + attempt)[..j2])| then durable else j2;
        var j3 := OnFileIs(crc, limits, t, d, []);
        assert t.batches + [] == t.batches;
    }
  }

  lemma PublishOnFile(crc: Checksum, limits: Limits, s: State, durable: nat, attempt: seq<Batch>, records: seq<Record>,
                      fault: Fault)
    requires Explained(crc, limits, s, durable, attempt) && Decoded(records)
    ensures var (t, r) := AfterPublish(crc, limits, s, records, fault);
            && |t.batches| <= |OnFile(crc, limits, t)|
            && |OnFile(crc, limits, t)| <= |OnFile(crc, limits, s)|
               + (if r.Ok? then 1 else 0) + (if Fails(crc, limits, s, Publish(records, fault)) then 1 else 0)
  {
    hide Explained, AfterPublish, OnFile, Decoded, Count;
    var (t, r) := AfterPublish(crc, limits, s, records, fault);
    var b := Batch(Count(s.batches) + 1, records);
    var j := OnFileIs(crc, limits, s, durable, attempt);
    PublishExplained(crc, limits, s, durable, attempt, records, fault);
    if r.Ok? {
      var j2 := OnFileIs(crc, limits, t, |t.batches|, []);
    } else if t != s {
      WriteSucceedsOrFails(crc, limits, s, durable, attempt, records, fault);
      var j2 := OnFileIs(crc, limits, t, durable, [b]);
    }
  }

  /** From one point of a run to a later one the file gains no more batches than publishes were
      acknowledged or failed in between. */
  lemma {:induction false} OnFileOver(crc: Checksum, limits: Limits, states: seq<State>, steps: seq<Step>, m: nat,
                                      n: nat)
    requires Configured(limits) && IsRun(crc, limits, states, steps) && m <= n <= |steps|
    ensures |states[n].batches| <= |OnFile(crc, limits, states[n])|
    ensures |OnFile(crc, limits, states[n])|
            + Acknowledged(crc, limits, states[..m + 1], steps[..m]) + Failed(crc, limits, states[..m + 1], steps[..m])
         <= |OnFile(crc, limits, states[m])|
            + Acknowledged(crc, limits, states[..n + 1], steps[..n]) + Failed(crc, limits, states[..n + 1], steps[..n])
    decreases n
  {
    hide Inv, Next, Opened, OnFile, Acknowledged, Failed, Acknowledges, Fails;
    RunInv(crc, limits, states, steps, n);
    if m == n {
      OnFileHolds(crc, limits, states[n]);
    } else {
      OnFileOver(crc, limits, states, steps, m, n - 1);
      RunInv(crc, limits, states, steps, n - 1);
      assert Next(crc, limits, states[n - 1], steps[n - 1], states[n - 1 + 1]);
      StepOnFile(crc, limits, states[n - 1], steps[n - 1], states[n]);
      AcknowledgedStep(crc, limits, states, steps, n);
    }
  }

  lemma OnFileHolds(crc: Checksum, limits: Limits, s: State)
    requires Inv(crc, limits, s)
    ensures |s.batches| <= |OnFile(crc, limits, s)|
  {
    hide Explained, OnFile;
    var durable: nat, attempt :| Explained(crc, limits, s, durable, attempt);
    var j := OnFileIs(crc, limits, s, durable, attempt);
  }

  lemma AllByCount(crc: Checksum, limits: Limits, states: seq<State>, steps: seq<Step>)
    requires Configured(limits) && IsRun(crc, limits, states, steps)
    ensures Acknowledged(crc, limits, states, steps) <= |OnFile(crc, limits, Last(states))|
    ensures AllAcknowledged(crc, limits, states, steps)
            <==> |OnFile(crc, limits, Last(states))| == Acknowledged(crc, limits, states, steps)
  {
    hide Inv, Next, Opened, OnFile, Acknowledged, AcknowledgedAt, Places;
    var n := |OnFile(crc, limits, Last(states))|;
    RunInv(crc, limits, states, steps, |steps|);
    OnFileHolds(crc, limits, Last(states));
    PlacesCounted(crc, limits, states, steps);
    forall k: nat ensures AcknowledgedAt(crc, limits, states, steps, k) <==> k in Places(crc, limits, states, steps) {
      PlaceMeans(crc, limits, states, steps, k);
    }
    CoversBySize(Places(crc, limits, states, steps), n);
  }

  lemma PlaceMeans(crc: Checksum, limits: Limits, states: seq<State>, steps: seq<Step>, k: nat)
    requires |states| == |steps| + 1
    ensures AcknowledgedAt(crc, limits, states, steps, k) <==> k in Places(crc, limits, states, steps)
  {
    hide Acknowledges;
  }

  lemma CoversBySize(places: set<nat>, n: nat)
    requires forall k: nat :: k in places ==> k < n
    ensures |places| <= n && ((forall k: nat :: k < n ==> k in places) <==> |places| == n)
  {
    assert places <= Below(n);
    DifferenceSize(Below(n), places);
    var missing := Below(n) - places;
    assert missing == {} <==> |missing| == 0;
    forall k: nat | missing == {} && k < n ensures k in places {
      assert k in Below(n) && k !in missing;
    }
  }

  lemma CountsOf(crc: Checksum, limits: Limits, states: seq<State>, steps: seq<Step>, more: seq<State>,
                 later: seq<Step>)
    requires |states| == |steps| + 1 && |more| == |later| + 1 && states <= more && steps <= later
    ensures more[..|states|] == states && later[..|steps|] == steps
    ensures more[..|more|] == more && later[..|later|] == later
  {
  }

  /** With every batch on file acknowledged, one more failed publish leaves at most one that is not. */
  lemma OneIsEnough(crc: Checksum, limits: Limits, states: seq<State>, steps: seq<Step>, more: seq<State>,
                    later: seq<Step>)
    requires Configured(limits) && IsRun(crc, limits, states, steps)
             && Continues(crc, limits, states, steps, more, later)
    requires Failed(crc, limits, more, later) <= Failed(crc, limits, states, steps) + 1
    requires |OnFile(crc, limits, Last(states))| == Acknowledged(crc, limits, states, steps)
    ensures |Unacknowledged(crc, limits, more, later)| <= 1
  {
    hide Next, Opened, OnFile, Acknowledged, Failed, Unacknowledged;
    CountsOf(crc, limits, states, steps, more, later);
    OnFileOver(crc, limits, more, later, |steps|, |later|);
    UnacknowledgedCount(crc, limits, more, later);
  }

  /** The continuation that shows the other direction: the process restarts, fails in one publish after
      writing it whole, and restarts again. */
  lemma OneTooMany(crc: Checksum, limits: Limits, states: seq<State>, steps: seq<Step>, records: seq<Record>)
    returns (more: seq<State>, later: seq<Step>)
    requires Configured(limits) && IsRun(crc, limits, states, steps)
    requires Fits(crc, limits, OnFile(crc, limits, Last(states)), records)
    ensures Continues(crc, limits, states, steps, more, later)
    ensures Failed(crc, limits, more, later) <= Failed(crc, limits, states, steps) + 1
    ensures |Unacknowledged(crc, limits, more, later)|
            == |OnFile(crc, limits, Last(states))| + 1 - Acknowledged(crc, limits, states, steps)
  {
    hide Inv, Next, Opened, Fits, Acknowledged, Failed, Acknowledges, Fails, Unacknowledged, LogBytes;
    RunInv(crc, limits, states, steps, |steps|);
    var s := Last(states);
    var u, x := FullRestart(crc, limits, s);
    var failed, t := Unsynced(crc, limits, u, records);
    var y, z := Publish(records, SyncFails), Restart(|failed.wal.value.file|);
    var states1, steps1 := Appended(crc, limits, states, steps, x, u);
    var states2, steps2 := Appended(crc, limits, states1, steps1, y, failed);
    more, later := Appended(crc, limits, states2, steps2, z, t);
    NoPublishNoCount(crc, limits, s, x);
    NoPublishNoCount(crc, limits, failed, z);
    UnacknowledgedCount(crc, limits, more, later);
  }

  lemma NoPublishNoCount(crc: Checksum, limits: Limits, s: State, step: Step)
    requires step.Restart?
    ensures !Acknowledges(crc, limits, s, step) && !Fails(crc, limits, s, step)
  {
  }

  lemma FullRestart(crc: Checksum, limits: Limits, s: State) returns (u: State, step: Step)
    requires Inv(crc, limits, s)
    ensures step.Restart? && Next(crc, limits, s, step, u) && Inv(crc, limits, u) && !u.poisoned
            && u.batches == OnFile(crc, limits, s)
  {
    hide Explained, Opened, LogBytes;
    var durable: nat, attempt :| Explained(crc, limits, s, durable, attempt);
    var j := OnFileIs(crc, limits, s, durable, attempt);
    var cut := |s.wal.value.file|;
    var k := RestartExplained(crc, limits, s, durable, attempt, cut);
    step := Restart(cut);
    u := Reopened(crc, limits, s, cut).value;
    StepKeepsInv(crc, limits, s, step, u);
  }

  /** A run with one more step. */
  lemma Appended(crc: Checksum, limits: Limits, states: seq<State>, steps: seq<Step>, step: Step, t: State)
    returns (more: seq<State>, later: seq<Step>)
    requires IsRun(crc, limits, states, steps) && Next(crc, limits, Last(states), step, t)
    ensures more == states + [t] && later == steps + [step] && IsRun(crc, limits, more, later)
    ensures states <= more && steps <= later && Last(more) == t
    ensures Acknowledged(crc, limits, more, later)
            == Acknowledged(crc, limits, states, steps)
              + (if Acknowledges(crc, limits, Last(states), step) then 1 else 0)
    ensures Failed(crc, limits, more, later)
            == Failed(crc, limits, states, steps) + (if Fails(crc, limits, Last(states), step) then 1 else 0)
  {
    hide Next, Opened, Acknowledges, Fails;
    more, later := states + [t], steps + [step];
    forall i | 0 <= i < |later| ensures Next(crc, limits, more[i], later[i], more[i + 1]) {
      assert i < |steps| ==> Next(crc, limits, states[i], steps[i], states[i + 1]);
    }
    assert more[..|states|] == states && later[..|steps|] == steps;
  }

  /** At most one batch stays unacknowledged, over all later faults, cuts and restarts with at most one
      more failed publish, exactly when every whole frame on file now is an acknowledged batch. */
  lemma AtMostOneUnacknowledged(crc: Checksum, limits: Limits, states: seq<State>, steps: seq<Step>,
                                records: seq<Record>)
    requires Configured(limits) && IsRun(crc, limits, states, steps)
    requires Fits(crc, limits, OnFile(crc, limits, Last(states)), records)
    ensures OneUnacknowledged(crc, limits, states, steps) <==> AllAcknowledged(crc, limits, states, steps)
  {
    hide Next, Opened, Fits, OnFile, Acknowledged, Failed, Unacknowledged, AllAcknowledged;
    AllByCount(crc, limits, states, steps);
    if AllAcknowledged(crc, limits, states, steps) {
      forall more, later | Continues(crc, limits, states, steps, more, later)
                           && Failed(crc, limits, more, later) <= Failed(crc, limits, states, steps) + 1
        ensures |Unacknowledged(crc, limits, more, later)| <= 1
      {
        OneIsEnough(crc, limits, states, steps, more, later);
      }
    }
    var more, later := OneTooMany(crc, limits, states, steps, records);
  }

  // ---------------------------------------------------------------- the runs

  /** A publish whose sync fails, then a restart that loses nothing: the batch is in the log, unsynced. */
  lemma Unsynced(crc: Checksum, limits: Limits, s: State, records: seq<Record>) returns (failed: State, t: State)
    requires Inv(crc, limits, s) && !s.poisoned && Fits(crc, limits, s.batches, records)
    ensures Next(crc, limits, s, Publish(records, SyncFails), failed) && failed.wal.Some?
    ensures Next(crc, limits, failed, Restart(|failed.wal.value.file|), t)
    ensures t == State(s.batches + [Batch(Count(s.batches) + 1, records)], false,
                       Some(Disk(LogBytes(crc, s.batches + [Batch(Count(s.batches) + 1, records)]),
                                 s.wal.value.synced)))
    ensures Inv(crc, limits, t) && !Acknowledges(crc, limits, s, Publish(records, SyncFails))
  {
    hide Frames, Frame, Lawful, Opened, Count, Retained, RetainedOf, ValidBatch, EncodeRecords;
    var b := Batch(Count(s.batches) + 1, records);
    var durable: nat, attempt :| Explained(crc, limits, s, durable, attempt);
    assert s.batches + attempt == s.batches;
    failed := AfterPublish(crc, limits, s, records, SyncFails).0;
    PublishExplained(crc, limits, s, durable, attempt, records, SyncFails);
    FramesAppend(crc, s.batches, b);
    var all := s.batches + [b];
    assert all[..|all|] == all;
    LogGrows(crc, s.batches, durable, |s.batches|);
    assert s.batches[..|s.batches|] == s.batches;
    assert Explained(crc, limits, failed, durable, [b]) && Crashable(failed, |failed.wal.value.file|);
    assert failed.wal.value.file == LogBytes(crc, all);
    OpenWhole(crc, limits, all, failed.wal.value);
    t := State(all, false, failed.wal);
    StepKeepsInv(crc, limits, failed, Restart(|failed.wal.value.file|), t) by {
      assert Inv(crc, limits, failed);
    }
  }

  lemma OpenWhole(crc: Checksum, limits: Limits, all: seq<Batch>, disk: Disk)
    requires Lawful(limits.retained, all) && disk.file == LogBytes(crc, all) && |disk.file| <= limits.wal
    ensures Opened(crc, limits, Crashed(disk, |disk.file|)) == Ok(State(all, false, Some(disk)))
  {
    hide Lawful, Opened, LogBytes;
    assert all[..|all|] == all && disk.file[..|disk.file|] == disk.file;
    OpenCut(crc, limits, all, |all|, disk);
  }

  const TINY: seq<Record> := [Record([97], [], [])]

  lemma TinyFacts()
    ensures Decoded(TINY) && RetainedOf(TINY) == 258 && BatchBytes(TINY) == 31
  {
    assert TINY[..0] == [] && RetainedOf([]) == 0;
    assert RecordBytes(TINY) == 9 + RecordBytes(TINY[1..]);
    assert TINY[1..] == [];
    assert ValidRecord(TINY[0]);
    BatchSize(TINY);
  }

  lemma TinyFits(crc: Checksum, s: State)
    requires |s.batches| <= 2 && forall i :: 0 <= i < |s.batches| ==> s.batches[i].records == TINY
    requires |LogBytes(crc, s.batches)| == |MAGIC| + 31 * |s.batches|
    ensures Fits(crc, Limits(1000, 1000), s.batches, TINY) && Count(s.batches) == |s.batches|
  {
    hide LogBytes;
    TinyFacts();
    TinyTotals(s.batches);
  }

  lemma {:induction false} TinyTotals(batches: seq<Batch>)
    requires forall i :: 0 <= i < |batches| ==> batches[i].records == TINY
    ensures Retained(batches) == 258 * |batches| && Count(batches) == |batches|
  {
    TinyFacts();
    if batches != [] {
      TinyTotals(batches[..|batches| - 1]);
    }
  }

  /** Tiny batches, each in the log's memory and on file. */
  ghost predicate TinyLog(crc: Checksum, s: State, n: nat) {
    && Inv(crc, Limits(1000, 1000), s) && !s.poisoned && s.wal.Some? && |s.batches| == n
    && (forall i :: 0 <= i < n ==> s.batches[i].records == TINY)
    && |LogBytes(crc, s.batches)| == |MAGIC| + 31 * n
  }

  lemma TinyFails(crc: Checksum, s: State, n: nat) returns (failed: State, t: State)
    requires TinyLog(crc, s, n) && n <= 2
    ensures Next(crc, Limits(1000, 1000), s, Publish(TINY, SyncFails), failed) && failed.wal.Some?
    ensures Next(crc, Limits(1000, 1000), failed, Restart(|failed.wal.value.file|), t)
    ensures TinyLog(crc, t, n + 1) && t.wal.value.synced == s.wal.value.synced
    ensures !Acknowledges(crc, Limits(1000, 1000), s, Publish(TINY, SyncFails))
    ensures t.wal.value.file == LogBytes(crc, t.batches)
  {
    hide Inv, Fits, LogBytes, Next, Acknowledges, Count;
    TinyFits(crc, s);
    TinyFacts();
    failed, t := Unsynced(crc, Limits(1000, 1000), s, TINY);
    LogSize(crc, s.batches, TINY);
  }

  lemma TinySucceeds(crc: Checksum, s: State, n: nat) returns (t: State)
    requires TinyLog(crc, s, n) && n <= 2
    ensures Next(crc, Limits(1000, 1000), s, Publish(TINY, NoFault), t) && TinyLog(crc, t, n + 1)
    ensures Acknowledges(crc, Limits(1000, 1000), s, Publish(TINY, NoFault))
    ensures t.wal.value.synced == |t.wal.value.file|
  {
    hide Frame, Frames, Lawful, Decoded, Count, Retained, RetainedOf, BatchBytes;
    var limits := Limits(1000, 1000);
    TinyFits(crc, s);
    TinyFacts();
    var durable: nat, attempt :| Explained(crc, limits, s, durable, attempt);
    PublishExplained(crc, limits, s, durable, attempt, TINY, NoFault);
    LogSize(crc, s.batches, TINY);
    t := AfterPublish(crc, limits, s, TINY, NoFault).0;
    assert Explained(crc, limits, t, |t.batches|, []);
  }

  lemma TinyStart(crc: Checksum) returns (s: State)
    ensures Opened(crc, Limits(1000, 1000), Disk([], 0)) == Ok(s) && TinyLog(crc, s, 0) && s.wal.value.synced == |MAGIC|
  {
    hide Frames, ReadFrame, Opened;
    FirstOpen(crc, Limits(1000, 1000));
    NoFrames(crc);
    s := State([], false, Some(Disk(MAGIC, |MAGIC|)));
  }

  /** A failed publish in each of two process lifetimes leaves two unacknowledged batches, although a
      publish that succeeded in between had made everything before the second failure durable. */
  lemma TwoUnacknowledged(crc: Checksum) returns (states: seq<State>, steps: seq<Step>)
    ensures IsRun(crc, Limits(1000, 1000), states, steps) && |steps| == 5
    ensures |Last(states).batches| == 3 && |Unacknowledged(crc, Limits(1000, 1000), states, steps)| == 2
    ensures steps[3].Publish? && states[3].wal.Some? && states[3].wal.value.synced == |states[3].wal.value.file|
  {
    hide TinyLog, Inv, LogBytes, Next, Opened, Acknowledges, Unacknowledged;
    var limits := Limits(1000, 1000);
    var s0 := TinyStart(crc);
    var f0, s1 := TinyFails(crc, s0, 0);
    var s2 := TinySucceeds(crc, s1, 1);
    var f2, s3 := TinyFails(crc, s2, 2);
    states := [s0, f0, s1, s2, f2, s3];
    steps := [Publish(TINY, SyncFails), Restart(|f0.wal.value.file|), Publish(TINY, NoFault),
              Publish(TINY, SyncFails), Restart(|f2.wal.value.file|)];
    RestartsAcknowledgeNothing(crc, limits, f0, |f0.wal.value.file|);
    RestartsAcknowledgeNothing(crc, limits, f2, |f2.wal.value.file|);
    AcknowledgedOfFive(crc, limits, states, steps);
    TinyLength(crc, s3, 3);
    TinyLength(crc, s2, 2);
    UnacknowledgedCount(crc, limits, states, steps);
  }

  /** Two process lifetimes that each fail in one publish after writing it whole: the second starts from a
      file it never synced, so two batches beyond the durable ones come back. */
  lemma TwoBeyondDurable(crc: Checksum) returns (states: seq<State>, steps: seq<Step>)
    ensures IsRun(crc, Limits(1000, 1000), states, steps) && |steps| == 4
    ensures steps[2].Publish? && Inv(crc, Limits(1000, 1000), states[2]) && !states[2].poisoned
    ensures Fits(crc, Limits(1000, 1000), states[2].batches, steps[2].records) && steps[3].Restart?
    ensures |states[4].batches| == |Durable(crc, Limits(1000, 1000), states[2])| + 2
    ensures !OneBeyondDurable(crc, Limits(1000, 1000), states[2], steps[2].records)
  {
    hide TinyLog, Inv, Next, Opened, Acknowledges, Durable, OneBeyondDurable, Fits, LogBytes;
    var limits := Limits(1000, 1000);
    var s0 := TinyStart(crc);
    var f0, s1 := TinyFails(crc, s0, 0);
    var f1, s2 := TinyFails(crc, s1, 1);
    states := [s0, f0, s1, f1, s2];
    steps := [Publish(TINY, SyncFails), Restart(|f0.wal.value.file|), Publish(TINY, SyncFails),
              Restart(|f1.wal.value.file|)];
    TinyLength(crc, s2, 2);
    NothingDurable(crc, s1, 1);
    AtMostOneBeyondDurable(crc, limits, s1, TINY);
  }

  lemma NothingDurable(crc: Checksum, s: State, n: nat)
    requires TinyLog(crc, s, n) && 1 <= n <= 2 && s.wal.value.synced == |MAGIC|
    requires s.wal.value.file == LogBytes(crc, s.batches)
    ensures Inv(crc, Limits(1000, 1000), s) && !s.poisoned && s.wal.value.synced < |s.wal.value.file|
    ensures Durable(crc, Limits(1000, 1000), s) == [] && Fits(crc, Limits(1000, 1000), s.batches, TINY)
  {
    hide Frames, Lawful, Durable, Fits;
    var limits := Limits(1000, 1000);
    TinyFits(crc, s);
    var durable: nat, attempt :| Explained(crc, limits, s, durable, attempt);
    DurableUnique(crc, limits, s, durable, attempt);
    NoFrames(crc);
    assert s.batches[..0] == [];
    LogGrows(crc, s.batches, 0, durable);
  }

  lemma TinyLength(crc: Checksum, s: State, n: nat)
    requires TinyLog(crc, s, n)
    ensures |s.batches| == n && s.wal.Some? && Inv(crc, Limits(1000, 1000), s)
  {
  }

  lemma RestartsAcknowledgeNothing(crc: Checksum, limits: Limits, s: State, cut: nat)
    ensures !Acknowledges(crc, limits, s, Restart(cut))
  {
  }

  lemma AcknowledgedOfFive(crc: Checksum, limits: Limits, states: seq<State>, steps: seq<Step>)
    requires |states| == 6 && |steps| == 5 && Acknowledges(crc, limits, states[2], steps[2])
    requires forall i :: 0 <= i < 5 && i != 2 ==> !Acknowledges(crc, limits, states[i], steps[i])
    ensures Acknowledged(crc, limits, states, steps) == 1
  {
    hide Acknowledges;
    AcknowledgedStep(crc, limits, states, steps, 5);
    AcknowledgedStep(crc, limits, states, steps, 4);
    AcknowledgedStep(crc, limits, states, steps, 3);
    AcknowledgedStep(crc, limits, states, steps, 2);
    AcknowledgedStep(crc, limits, states, steps, 1);
    assert states[..6] == states && steps[..5] == steps && steps[..0] == [];
  }

  /** The counts of a run's first steps, one step at a time. */
  lemma AcknowledgedStep(crc: Checksum, limits: Limits, states: seq<State>, steps: seq<Step>, n: nat)
    requires |states| == |steps| + 1 && 0 < n <= |steps|
    ensures Acknowledged(crc, limits, states[..n + 1], steps[..n])
            == Acknowledged(crc, limits, states[..n], steps[..n - 1])
               + (if Acknowledges(crc, limits, states[n - 1], steps[n - 1]) then 1 else 0)
    ensures Failed(crc, limits, states[..n + 1], steps[..n])
            == Failed(crc, limits, states[..n], steps[..n - 1])
               + (if Fails(crc, limits, states[n - 1], steps[n - 1]) then 1 else 0)
  {
    hide Acknowledges, Fails;
    assert states[..n + 1][..n] == states[..n] && steps[..n][..n - 1] == steps[..n - 1];
    assert states[..n + 1][n - 1] == states[n - 1] && steps[..n][n - 1] == steps[n - 1];
  }

  /** A batch a restart found and served is gone after a crash that cuts the file to its synced length. */
  lemma ServedThenGone(crc: Checksum) returns (states: seq<State>, steps: seq<Step>)
    ensures IsRun(crc, Limits(1000, 1000), states, steps) && |steps| == 3
    ensures steps[1].Restart? && |states[2].batches| == 1 && steps[2].Restart? && states[3].batches == []
  {
    hide TinyLog, Inv, LogBytes, Next, Opened, Acknowledges, Durable;
    var s0 := TinyStart(crc);
    var f0, s1 := TinyFails(crc, s0, 0);
    NothingDurable(crc, s1, 1);
    TinyLength(crc, s1, 1);
    var s2, step := CrashToSynced(crc, Limits(1000, 1000), s1);
    states := [s0, f0, s1, s2];
    steps := [Publish(TINY, SyncFails), Restart(|f0.wal.value.file|), step];
  }

  lemma LogSize(crc: Checksum, before: seq<Batch>, records: seq<Record>)
    requires Decoded(records) && Count(before) < MAX_U64
    ensures var b := Batch(Count(before) + 1, records);
            |LogBytes(crc, before + [b])| == |LogBytes(crc, before)| + BatchBytes(records)
  {
    hide Frame, Count, ValidBatch, EncodeRecords, BatchBytes;
    var b := Batch(Count(before) + 1, records);
    FramesAppend(crc, before, b);
    FrameSize(crc, b);
  }
}
