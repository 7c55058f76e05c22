/**
 Crash safety over whole runs: publishes that may fail after any prefix of a frame, crashes that may cut
 the file anywhere at or above its synced length, and restarts with the same budgets.
 */
module Recovery {
  import opened Basics
  import opened EventLog
  import opened Protocol
  import opened Wal
  import opened Store
  import Requests

  datatype Step = Publish(records: seq<Record>, fault: Fault) | Restart(cut: nat)

  /** Every batch the broker decodes from a frame of legal length gives a log frame that recovery's
      length bounds admit and whose size is what the capacity check charged. */
  lemma FromFrame(crc: Checksum, body: seq<byte>, records: seq<Record>, first: nat)
    requires 5 + |body| <= MAX_FRAME && Requests.Decode(2, body) == Ok(Requests.Publish(records)) && first <= MAX_U64
    ensures Decoded(records)
    ensures |Frame(crc, Batch(first, records))| == BatchBytes(records)
    ensures 19 <= |Body(Batch(first, records))| <= MAX_FRAME + 3
    ensures ReadFrame(crc, Frame(crc, Batch(first, records))) == Whole(Batch(first, records), BatchBytes(records))
  {
    hide ReadFrame, Frame, Body, Requests.Decode, ValidBatch, EncodeRecords;
    Requests.RequestCodec(2, body, Requests.Publish(records));
    var b := Batch(first, records);
    FrameSize(crc, b);
    assert Frame(crc, b)[..|Frame(crc, b)|] == Frame(crc, b);
    ReadFrameExact(crc, Frame(crc, b), b, |Frame(crc, b)|);
  }

  function Crashed(disk: Disk, cut: nat): Disk
    requires cut <= |disk.file|
  {
    Disk(disk.file[..cut], disk.synced)
  }

  predicate Crashable(s: State, cut: nat) {
    s.wal.Some? && s.wal.value.synced <= cut <= |s.wal.value.file|
  }

  predicate Next(crc: Checksum, limits: Limits, s: State, step: Step, t: State) {
    match step
    case Publish(records, fault) => Decoded(records) && t == AfterPublish(crc, limits, s, records, fault).0
    case Restart(cut) => Crashable(s, cut) && Opened(crc, limits, Crashed(s.wal.value, cut)) == Ok(t)
  }

  // ---------------------------------------------------------------- what the file holds

  /** `durable` batches lie within the synced bytes; `attempt` is the batch of a failed publish, of
      which the file may hold any prefix. */
  ghost predicate Explained(crc: Checksum, limits: Limits, s: State, durable: nat, attempt: seq<Batch>) {
    && s.wal.Some? && (s.poisoned <==> |attempt| == 1) && |attempt| <= 1
    && Lawful(limits.retained, s.batches + attempt)
    && durable <= |s.batches| && s.wal.value.synced == |LogBytes(crc, s.batches[..durable])|
    && LogBytes(crc, s.batches) <= s.wal.value.file <= LogBytes(crc, s.batches + attempt)
    && |LogBytes(crc, s.batches + attempt)| <= limits.wal
  }

  ghost predicate Inv(crc: Checksum, limits: Limits, s: State) {
    exists durable: nat, attempt :: Explained(crc, limits, s, durable, attempt)
  }

  lemma {:induction false} LogGrows(crc: Checksum, batches: seq<Batch>, m: nat, n: nat)
    requires m <= n <= |batches|
    ensures LogBytes(crc, batches[..m]) <= LogBytes(crc, batches[..n])
    ensures m < n ==> |LogBytes(crc, batches[..m])| < |LogBytes(crc, batches[..n])|
    decreases n
  {
    hide Frame;
    if m < n {
      LogGrows(crc, batches, m, n - 1);
      FramesAppend(crc, batches[..n - 1], batches[n - 1]);
      assert batches[..n] == batches[..n - 1] + [batches[n - 1]];
      FrameNonEmpty(crc, batches[n - 1]);
    }
  }

  lemma FrameNonEmpty(crc: Checksum, b: Batch)
    ensures |Frame(crc, b)| > 0
  {
  }

  /** The whole frames of a cut log: `j` of them, and less than one more. */
  lemma {:induction false} Locate(crc: Checksum, batches: seq<Batch>, n: nat, cut: nat) returns (j: nat)
    requires n <= |batches| && |MAGIC| <= cut
    ensures j <= n && |LogBytes(crc, batches[..j])| <= cut
    ensures j < n ==> cut < |LogBytes(crc, batches[..j + 1])|
    decreases n
  {
    hide Frame;
    if n == 0 || |LogBytes(crc, batches[..n])| <= cut {
      j := n;
      NoFrames(crc);
      assert batches[..0] == [];
    } else {
      j := Locate(crc, batches, n - 1, cut);
    }
  }

  lemma CutIsTorn(crc: Checksum, batches: seq<Batch>, j: nat, file: seq<byte>)
    requires j <= |batches| && forall i :: 0 <= i < |batches| ==> Legal(batches[i])
    requires file <= LogBytes(crc, batches) && |LogBytes(crc, batches[..j])| <= |file|
    requires j < |batches| ==> |file| < |LogBytes(crc, batches[..j + 1])|
    ensures LogBytes(crc, batches[..j]) <= file
    ensures ReadFrame(crc, file[|LogBytes(crc, batches[..j])|..]).Short?
  {
    hide Frame, ReadFrame, Legal, Frames;
    var start := |LogBytes(crc, batches[..j])|;
    var torn := file[start..];
    LogGrows(crc, batches, j, |batches|);
    assert batches[..|batches|] == batches;
    if j == |batches| {
      NoFrames(crc);
      assert torn == [];
    } else {
      var b := batches[j];
      LogGrows(crc, batches, j + 1, |batches|);
      FramesAppend(crc, batches[..j], b);
      assert batches[..j + 1] == batches[..j] + [b];
      TailPrefix(LogBytes(crc, batches[..j]), Frame(crc, b), file, LogBytes(crc, batches));
      FramePrefixReads(crc, torn, b);
    }
  }

  lemma TailPrefix(before: seq<byte>, frame: seq<byte>, file: seq<byte>, whole: seq<byte>)
    requires before + frame <= whole && file <= whole && |before| <= |file| <= |before + frame|
    ensures before <= file && file[|before|..] <= frame
  {
    assert file == whole[..|file|];
    assert forall i :: 0 <= i < |file| - |before| ==> file[|before|..][i] == (before + frame)[|before| + i];
  }

  /** Opening any cut of a lawful log recovers its whole frames and cuts off the rest. */
  lemma OpenCut(crc: Checksum, limits: Limits, batches: seq<Batch>, j: nat, disk: Disk)
    requires Lawful(limits.retained, batches) && j <= |batches|
    requires disk.file <= LogBytes(crc, batches) && |LogBytes(crc, batches[..j])| <= |disk.file| <= limits.wal
    requires j < |batches| ==> |disk.file| < |LogBytes(crc, batches[..j + 1])|
    ensures var file := LogBytes(crc, batches[..j]);
            Opened(crc, limits, disk)
            == Ok(State(batches[..j], false, Some(Disk(file, if file == disk.file then disk.synced else |file|))))
  {
    hide Frames, ReadFrame, Legal, Follows, Replay;
    var file := LogBytes(crc, batches[..j]);
    CutIsTorn(crc, batches, j, disk.file);
    var torn := disk.file[|file|..];
    LawfulPrefix(limits.retained, batches, j);
    ReplayComplete(crc, limits.retained, batches[..j], 0, torn);
    NoFrames(crc);
    assert batches[..j][..0] == [];
    assert disk.file[|MAGIC|..] == Frames(crc, batches[..j])[|Frames(crc, [])|..] + torn;
    assert disk.file[..|disk.file| - |torn|] == file;
    assert torn == [] <==> file == disk.file;
  }

  // ---------------------------------------------------------------- every step keeps the explanation

  lemma PublishExplained(crc: Checksum, limits: Limits, s: State, durable: nat, attempt: seq<Batch>,
                         records: seq<Record>, fault: Fault)
    requires Explained(crc, limits, s, durable, attempt) && Decoded(records)
    ensures var b := Batch(Count(s.batches) + 1, records);
            var (t, r) := AfterPublish(crc, limits, s, records, fault);
            if r.Ok? then t.batches == s.batches + [b] && Explained(crc, limits, t, |t.batches|, [])
            else if t == s then true
            else t.batches == s.batches && !s.poisoned && Explained(crc, limits, t, durable, [b])
  {
    hide Frames, Frame, EncodeRecords, ValidBatch, Count, Retained, RetainedOf, Lawful;
    var b := Batch(Count(s.batches) + 1, records);
    var (t, r) := AfterPublish(crc, limits, s, records, fault);
    if t != s {
      assert attempt == [] && s.batches + attempt == s.batches;
      assert Legal(b) by {
        CountsRecords(records);
      }
      LawfulExtends(limits.retained, s.batches, b);
      FramesAppend(crc, s.batches, b);
      FrameSize(crc, b);
      assert t.batches + [] == t.batches && t.batches[..|t.batches|] == t.batches;
    }
  }

  lemma CountsRecords(records: seq<Record>)
    requires ValidBatch(records)
    ensures |records| >= 1
  {
  }

  lemma RestartExplained(crc: Checksum, limits: Limits, s: State, durable: nat, attempt: seq<Batch>, cut: nat)
    returns (j: nat)
    requires Explained(crc, limits, s, durable, attempt) && Crashable(s, cut)
    ensures durable <= j <= |s.batches + attempt|
    ensures var reopened := Opened(crc, limits, Crashed(s.wal.value, cut));
            && reopened.Ok? && reopened.value.batches == (s.batches + attempt)[..j] && !reopened.value.poisoned
            && reopened.value.wal.Some? && reopened.value.wal.value.file == LogBytes(crc, (s.batches + attempt)[..j])
            && reopened.value.wal.value.file <= s.wal.value.file[..cut]
            && (cut == |LogBytes(crc, (s.batches + attempt)[..j])| ==>
                  Explained(crc, limits, reopened.value, durable, []))
            && (cut != |LogBytes(crc, (s.batches + attempt)[..j])| ==> Explained(crc, limits, reopened.value, j, []))
    ensures j < |s.batches + attempt| ==> cut < |LogBytes(crc, (s.batches + attempt)[..j + 1])|
    ensures |LogBytes(crc, (s.batches + attempt)[..j])| <= cut
  {
    hide Frames, Legal, Follows, Lawful, ReadFrame, Replay, Opened;
    var all := s.batches + attempt;
    assert s.batches[..durable] == all[..durable];
    j := Locate(crc, all, |all|, cut);
    if j < durable {
      LogGrows(crc, all, j + 1, durable);
    }
    var disk := Crashed(s.wal.value, cut);
    OpenCut(crc, limits, all, j, disk);
    LogGrows(crc, all, j, |all|);
    assert all[..|all|] == all;
    LawfulPrefix(limits.retained, all, j);
    assert all[..j] + [] == all[..j] && all[..j][..j] == all[..j] && all[..j][..durable] == all[..durable];
  }

  lemma StepKeepsInv(crc: Checksum, limits: Limits, s: State, step: Step, t: State)
    requires Inv(crc, limits, s) && Next(crc, limits, s, step, t)
    ensures Inv(crc, limits, t)
  {
    hide Explained, AfterPublish, Opened, LogBytes, Decoded;
    var durable: nat, attempt :| Explained(crc, limits, s, durable, attempt);
    match step {
      case Publish(records, fault) => PublishExplained(crc, limits, s, durable, attempt, records, fault);
      case Restart(cut) => var j := RestartExplained(crc, limits, s, durable, attempt, cut);
    }
  }

  // ---------------------------------------------------------------- restart always works

  /** Every crash is survived: the restart succeeds and finds a prefix of the log in memory, or all of it
      and one batch more. What it keeps at least is `DurableGrows`; which batch the one more is, is
      `Provenance.RestartFindsTheAttempt`. */
  lemma RestartSucceeds(crc: Checksum, limits: Limits, s: State, cut: nat)
    requires Inv(crc, limits, s) && Crashable(s, cut)
    ensures var reopened := Opened(crc, limits, Crashed(s.wal.value, cut));
            && reopened.Ok?
            && |reopened.value.batches| <= |s.batches| + 1
            && (reopened.value.batches <= s.batches || (s.poisoned && s.batches < reopened.value.batches))
            && reopened.value.wal.Some? && reopened.value.wal.value.file == LogBytes(crc, reopened.value.batches)
  {
    hide LogBytes, Opened, Lawful;
    var durable: nat, attempt :| Explained(crc, limits, s, durable, attempt);
    var j := RestartExplained(crc, limits, s, durable, attempt, cut);
    var all := s.batches + attempt;
    if j <= |s.batches| {
      assert all[..j] == s.batches[..j];
    } else {
      assert all[..j] == all;
    }
  }

  /** Restarting again without a crash in between changes nothing, on disk or in memory. */
  lemma RestartTwice(crc: Checksum, limits: Limits, s: State)
    requires Inv(crc, limits, s) && !s.poisoned
    ensures Crashable(s, |s.wal.value.file|) && Opened(crc, limits, Crashed(s.wal.value, |s.wal.value.file|)) == Ok(s)
  {
    hide Lawful, Opened, Replay, Frames;
    var durable: nat, attempt :| Explained(crc, limits, s, durable, attempt);
    assert s.batches + attempt == s.batches && s.batches[..|s.batches|] == s.batches;
    LogGrows(crc, s.batches, durable, |s.batches|);
    var disk := s.wal.value;
    assert disk.file[..|disk.file|] == disk.file;
    OpenCut(crc, limits, s.batches, |s.batches|, disk);
  }

  // ---------------------------------------------------------------- what is durable

  /** What a crash cannot take away: the batches in the synced bytes. */
  ghost function Durable(crc: Checksum, limits: Limits, s: State): seq<Batch>
    requires Inv(crc, limits, s)
  {
    hide LogBytes, Lawful;
    var durable: nat, attempt :| Explained(crc, limits, s, durable, attempt);
    s.batches[..durable]
  }

  lemma DurableUnique(crc: Checksum, limits: Limits, s: State, durable: nat, attempt: seq<Batch>)
    requires Explained(crc, limits, s, durable, attempt)
    ensures Durable(crc, limits, s) == s.batches[..durable]
  {
    hide LogBytes, Lawful;
    var d: nat, a :| Explained(crc, limits, s, d, a) && Durable(crc, limits, s) == s.batches[..d];
    assert Explained(crc, limits, s, d, a);
    if d < durable {
      LogGrows(crc, s.batches, d, durable);
    } else if durable < d {
      LogGrows(crc, s.batches, durable, d);
    }
  }

  /** No step loses a durable batch, and an acknowledgement means the whole log is durable. */
  lemma DurableGrows(crc: Checksum, limits: Limits, s: State, step: Step, t: State)
    requires Inv(crc, limits, s) && Next(crc, limits, s, step, t)
    ensures Inv(crc, limits, t)
    ensures Durable(crc, limits, s) <= Durable(crc, limits, t) <= t.batches
    ensures Acknowledges(crc, limits, s, step) ==> Durable(crc, limits, t) == t.batches
  {
    hide AfterPublish, Opened, LogBytes, Decoded, Lawful, Durable;
    var durable: nat, attempt :| Explained(crc, limits, s, durable, attempt);
    DurableUnique(crc, limits, s, durable, attempt);
    match step {
      case Publish(records, fault) =>
        PublishExplained(crc, limits, s, durable, attempt, records, fault);
        DurableAfterPublish(crc, limits, s, durable, attempt, records, fault);
      case Restart(cut) =>
        var j := RestartExplained(crc, limits, s, durable, attempt, cut);
        var d := if cut == |LogBytes(crc, (s.batches + attempt)[..j])| then durable else j;
        DurableUnique(crc, limits, t, d, []);
        assert t.batches[..durable] == s.batches[..durable] && t.batches[..durable] <= t.batches[..d];
    }
  }

  predicate Acknowledges(crc: Checksum, limits: Limits, s: State, step: Step) {
    step.Publish? && AfterPublish(crc, limits, s, step.records, step.fault).1.Ok?
  }

  predicate Fails(crc: Checksum, limits: Limits, s: State, step: Step) {
    step.Publish? && AfterPublish(crc, limits, s, step.records, step.fault).0.poisoned && !s.poisoned
  }

  lemma DurableAfterPublish(crc: Checksum, limits: Limits, s: State, durable: nat, attempt: seq<Batch>,
                            records: seq<Record>, fault: Fault)
    requires Explained(crc, limits, s, durable, attempt) && Decoded(records)
    ensures var (t, r) := AfterPublish(crc, limits, s, records, fault);
            && Inv(crc, limits, t) && s.batches[..durable] <= Durable(crc, limits, t) <= t.batches
            && (r.Ok? ==> Durable(crc, limits, t) == t.batches)
  {
    hide AfterPublish, LogBytes, Decoded, Lawful, Durable;
    PublishExplained(crc, limits, s, durable, attempt, records, fault);
    var (t, r) := AfterPublish(crc, limits, s, records, fault);
    var b := Batch(Count(s.batches) + 1, records);
    if r.Ok? {
      DurableUnique(crc, limits, t, |t.batches|, []);
    } else if t == s {
      DurableUnique(crc, limits, t, durable, attempt);
    } else {
      DurableUnique(crc, limits, t, durable, [b]);
    }
  }

  // ---------------------------------------------------------------- whole runs

  ghost predicate IsRun(crc: Checksum, limits: Limits, states: seq<State>, steps: seq<Step>) {
    && |states| == |steps| + 1
    && Opened(crc, limits, Disk([], 0)) == Ok(states[0])
    && forall i :: 0 <= i < |steps| ==> Next(crc, limits, states[i], steps[i], states[i + 1])
  }

  /** The smallest log budget the server accepts on its command line leaves room for the file's magic. */
  predicate Configured(limits: Limits) {
    limits.wal >= |MAGIC|
  }

  lemma FirstOpen(crc: Checksum, limits: Limits)
    requires Configured(limits)
    ensures Opened(crc, limits, Disk([], 0)) == Ok(State([], false, Some(Disk(MAGIC, |MAGIC|))))
    ensures Explained(crc, limits, State([], false, Some(Disk(MAGIC, |MAGIC|))), 0, [])
    ensures Inv(crc, limits, State([], false, Some(Disk(MAGIC, |MAGIC|))))
  {
    hide ReadFrame;
    NoFrames(crc);
    assert MAGIC[|MAGIC|..] == [];
    assert Explained(crc, limits, State([], false, Some(Disk(MAGIC, |MAGIC|))), 0, []);
  }

  lemma {:induction false} RunInv(crc: Checksum, limits: Limits, states: seq<State>, steps: seq<Step>, i: nat)
    requires Configured(limits) && IsRun(crc, limits, states, steps) && i < |states|
    ensures Inv(crc, limits, states[i])
  {
    hide Inv, Next, Opened;
    if i == 0 {
      FirstOpen(crc, limits);
    } else {
      RunInv(crc, limits, states, steps, i - 1);
      StepKeepsInv(crc, limits, states[i - 1], steps[i - 1], states[i]);
    }
  }

  lemma {:induction false} DurableStays(crc: Checksum, limits: Limits, states: seq<State>, steps: seq<Step>, i: nat,
                                        j: nat)
    requires Configured(limits) && IsRun(crc, limits, states, steps) && i <= j < |states|
    ensures Inv(crc, limits, states[i]) && Inv(crc, limits, states[j])
    ensures Durable(crc, limits, states[i]) <= Durable(crc, limits, states[j]) <= states[j].batches
    decreases j
  {
    hide Inv, Next, Opened, Durable;
    RunInv(crc, limits, states, steps, i);
    RunInv(crc, limits, states, steps, j);
    if i == j {
      DurableIsPrefix(crc, limits, states[j]);
    } else {
      DurableStays(crc, limits, states, steps, i, j - 1);
      DurableGrows(crc, limits, states[j - 1], steps[j - 1], states[j]);
    }
  }

  lemma DurableIsPrefix(crc: Checksum, limits: Limits, s: State)
    requires Inv(crc, limits, s)
    ensures Durable(crc, limits, s) <= s.batches
  {
    hide LogBytes, Lawful;
    var d: nat, a :| Explained(crc, limits, s, d, a) && Durable(crc, limits, s) == s.batches[..d];
  }

  /** Over every run: once a publish is acknowledged, the whole log it completed is a prefix of the log
      in memory at every later point, across any failures, crashes and restarts. */
  lemma AcknowledgedSurvives(crc: Checksum, limits: Limits, states: seq<State>, steps: seq<Step>, i: nat, j: nat)
    requires Configured(limits) && IsRun(crc, limits, states, steps) && i < j < |states|
    requires Acknowledges(crc, limits, states[i], steps[i])
    ensures states[i + 1].batches == states[i].batches + [Batch(Count(states[i].batches) + 1, steps[i].records)]
    ensures states[i + 1].batches <= states[j].batches
  {
    hide Inv, Opened, Durable, Count, Decoded;
    assert Next(crc, limits, states[i], steps[i], states[i + 1]);
    DurableStays(crc, limits, states, steps, i + 1, j);
    RunInv(crc, limits, states, steps, i);
    DurableGrows(crc, limits, states[i], steps[i], states[i + 1]);
  }

  /** Over every run: sequence numbers are consecutive and the budgets hold in every state. */
  lemma RecoveredInSequence(crc: Checksum, limits: Limits, states: seq<State>, steps: seq<Step>, i: nat)
    requires Configured(limits) && IsRun(crc, limits, states, steps) && i < |states|
    ensures InSequence(states[i].batches)
    ensures Numbered(Events(states[i].batches)) && |Events(states[i].batches)| == Count(states[i].batches)
    ensures forall k :: 0 <= k < |states[i].batches| ==> Decoded(states[i].batches[k].records)
    ensures Retained(states[i].batches) <= limits.retained
  {
    hide IsRun, LogBytes, Count, Retained, RetainedOf, Events, ValidBatch, EncodeRecords;
    RunInv(crc, limits, states, steps, i);
    var batches := states[i].batches;
    var durable: nat, attempt :| Explained(crc, limits, states[i], durable, attempt);
    LawfulPrefix(limits.retained, batches + attempt, |batches|);
    assert (batches + attempt)[..|batches|] == batches;
    EventsNumbered(batches);
    RetainedWithin(limits.retained, batches);
  }

  lemma {:induction false} RetainedWithin(budget: nat, batches: seq<Batch>)
    requires Lawful(budget, batches)
    ensures Retained(batches) <= budget
  {
    hide Legal, RetainedOf, Count;
    if batches != [] {
      var n := |batches| - 1;
      LawfulPrefix(budget, batches, n);
      RetainedWithin(budget, batches[..n]);
      assert Follows(budget, batches[..n], batches[n]);
    }
  }

  // ---------------------------------------------------------------- unacknowledged batches

  function Acknowledged(crc: Checksum, limits: Limits, states: seq<State>, steps: seq<Step>): nat
    requires |states| == |steps| + 1
    decreases |steps|
  {
    if steps == [] then 0
    else
      var n := |steps| - 1;
      Acknowledged(crc, limits, states[..n + 1], steps[..n])
      + if Acknowledges(crc, limits, states[n], steps[n]) then 1 else 0
  }

  function Failed(crc: Checksum, limits: Limits, states: seq<State>, steps: seq<Step>): nat
    requires |states| == |steps| + 1
    decreases |steps|
  {
    if steps == [] then 0
    else
      var n := |steps| - 1;
      Failed(crc, limits, states[..n + 1], steps[..n]) + if Fails(crc, limits, states[n], steps[n]) then 1 else 0
  }

  /** Over every run: the log never holds more batches than were acknowledged and failed together; each
      failed publish accounts for at most one batch nobody was told about. */
  lemma {:induction false} ExtrasAreFailures(crc: Checksum, limits: Limits, states: seq<State>, steps: seq<Step>)
    requires Configured(limits) && IsRun(crc, limits, states, steps)
    ensures |Last(states).batches| + (if Last(states).poisoned then 1 else 0)
         <= Acknowledged(crc, limits, states, steps) + Failed(crc, limits, states, steps)
    decreases |steps|
  {
    hide Next, Opened, Inv;
    if steps == [] {
      FirstOpen(crc, limits);
    } else {
      var n := |steps| - 1;
      var earlier, before := states[..n + 1], steps[..n];
      forall i | 0 <= i < n ensures Next(crc, limits, earlier[i], before[i], earlier[i + 1]) {
        assert Next(crc, limits, states[i], steps[i], states[i + 1]);
      }
      ExtrasAreFailures(crc, limits, earlier, before);
      RunInv(crc, limits, states, steps, n);
      assert Next(crc, limits, states[n], steps[n], states[n + 1]);
      StepAccounts(crc, limits, states[n], steps[n], states[n + 1]);
    }
  }

  lemma StepAccounts(crc: Checksum, limits: Limits, s: State, step: Step, t: State)
    requires Inv(crc, limits, s) && Next(crc, limits, s, step, t)
    ensures |t.batches| + (if t.poisoned then 1 else 0)
         <= |s.batches| + (if s.poisoned then 1 else 0)
            + (if Acknowledges(crc, limits, s, step) then 1 else 0) + (if Fails(crc, limits, s, step) then 1 else 0)
  {
    hide LogBytes, Lawful, Opened, Decoded;
    match step {
      case Publish(_, _) =>
      case Restart(cut) =>
        var durable: nat, attempt :| Explained(crc, limits, s, durable, attempt);
        var j := RestartExplained(crc, limits, s, durable, attempt, cut);
    }
  }
}
