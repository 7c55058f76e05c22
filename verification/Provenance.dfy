/**
 Where the batches of a log come from, over whole runs: every one was written by a publish of the run, in
 order, and the ones nobody was told about are counted.
 */
module Provenance {
  import opened Basics
  import opened EventLog
  import opened Protocol
  import opened Wal
  import opened Store
  import opened Recovery

  /** Step `p` is a publish that wrote `b` behind the log `before`, acknowledged or failed. */
  ghost predicate Wrote(crc: Checksum, limits: Limits, states: seq<State>, steps: seq<Step>,
                        p: nat, before: seq<Batch>, b: Batch)
    requires |states| == |steps| + 1
  {
    && p < |steps| && steps[p].Publish? && states[p].batches == before
    && b == Batch(Count(before) + 1, steps[p].records)
    && (Acknowledges(crc, limits, states[p], steps[p]) || Fails(crc, limits, states[p], steps[p]))
  }

  /** `from` names the step each batch was written in: rising, each step once, each behind just the
      batches before it. */
  ghost predicate Traced(crc: Checksum, limits: Limits, states: seq<State>, steps: seq<Step>,
                         i: nat, batches: seq<Batch>, from: seq<nat>)
    requires |states| == |steps| + 1
  {
    && |from| == |batches| && Increasing(from)
    && forall k ::
         0 <= k < |from| ==> from[k] < i && Wrote(crc, limits, states, steps, from[k], batches[..k], batches[k])
  }

  /** The batch of a failed publish was written by the last publish that did anything in this process. */
  ghost predicate AttemptedAt(crc: Checksum, limits: Limits, states: seq<State>, steps: seq<Step>, p: nat, i: nat)
    requires |states| == |steps| + 1 && i <= |steps|
  {
    p < i && Fails(crc, limits, states[p], steps[p]) && forall q :: p < q < i ==> steps[q].Publish?
  }

  ghost predicate TracedState(crc: Checksum, limits: Limits, states: seq<State>, steps: seq<Step>,
                              i: nat, durable: nat, attempt: seq<Batch>, from: seq<nat>)
    requires |states| == |steps| + 1 && i <= |steps|
  {
    && Explained(crc, limits, states[i], durable, attempt)
    && Traced(crc, limits, states, steps, i, states[i].batches + attempt, from)
    && (attempt != [] ==> AttemptedAt(crc, limits, states, steps, Last(from), i))
  }

  lemma TracedLater(crc: Checksum, limits: Limits, states: seq<State>, steps: seq<Step>,
                    i: nat, batches: seq<Batch>, from: seq<nat>)
    requires |states| == |steps| + 1 && Traced(crc, limits, states, steps, i, batches, from)
    ensures Traced(crc, limits, states, steps, i + 1, batches, from)
  {
    hide Wrote;
  }

  lemma TracedGrows(crc: Checksum, limits: Limits, states: seq<State>, steps: seq<Step>,
                    i: nat, batches: seq<Batch>, from: seq<nat>, b: Batch)
    requires |states| == |steps| + 1 && Traced(crc, limits, states, steps, i, batches, from)
    requires Wrote(crc, limits, states, steps, i, batches, b)
    ensures Traced(crc, limits, states, steps, i + 1, batches + [b], from + [i])
  {
    hide Wrote;
    var all := batches + [b];
    forall k | 0 <= k <= |from|
      ensures (from + [i])[k] < i + 1 && Wrote(crc, limits, states, steps, (from + [i])[k], all[..k], all[k])
    {
      assert all[..k] == batches[..k];
      assert batches[..|batches|] == batches;
    }
  }

  lemma TracedPrefix(crc: Checksum, limits: Limits, states: seq<State>, steps: seq<Step>,
                     i: nat, batches: seq<Batch>, from: seq<nat>, j: nat)
    requires |states| == |steps| + 1 && Traced(crc, limits, states, steps, i, batches, from) && j <= |batches|
    ensures Traced(crc, limits, states, steps, i, batches[..j], from[..j])
  {
    hide Wrote;
    forall k | 0 <= k < j
      ensures from[k] < i && Wrote(crc, limits, states, steps, from[k], batches[..j][..k], batches[k])
    {
      assert batches[..j][..k] == batches[..k];
    }
  }

  // ---------------------------------------------------------------- every step keeps the trace

  lemma TracePublish(crc: Checksum, limits: Limits, states: seq<State>, steps: seq<Step>,
                     i: nat, durable: nat, attempt: seq<Batch>, from: seq<nat>)
    returns (d: nat, a: seq<Batch>, f: seq<nat>)
    requires |states| == |steps| + 1 && i < |steps|
             && TracedState(crc, limits, states, steps, i, durable, attempt, from)
    requires steps[i].Publish? && Next(crc, limits, states[i], steps[i], states[i + 1])
    ensures TracedState(crc, limits, states, steps, i + 1, d, a, f)
  {
    hide Explained, AfterPublish, Count, Decoded;
    var s, records, fault := states[i], steps[i].records, steps[i].fault;
    var (t, r) := AfterPublish(crc, limits, s, records, fault);
    var b := Batch(Count(s.batches) + 1, records);
    PublishExplained(crc, limits, s, durable, attempt, records, fault);
    if r.Err? && t == s {
      d, a, f := durable, attempt, from;
      TracedLater(crc, limits, states, steps, i, s.batches + attempt, from);
    } else {
      NoAttempt(crc, limits, s, durable, attempt, records, fault);
      WriteSucceedsOrFails(crc, limits, s, durable, attempt, records, fault);
      d, a, f := if r.Ok? then |t.batches| else durable, if r.Ok? then [] else [b], from + [i];
      assert s.batches + attempt == s.batches;
      TracedGrows(crc, limits, states, steps, i, s.batches, from, b);
      assert t.batches + a == s.batches + [b];
    }
  }

  lemma NoAttempt(crc: Checksum, limits: Limits, s: State, durable: nat, attempt: seq<Batch>, records: seq<Record>,
                  fault: Fault)
    requires Explained(crc, limits, s, durable, attempt)
    ensures var (t, r) := AfterPublish(crc, limits, s, records, fault);
            r.Ok? || t != s ==> attempt == []
  {
    hide Frame, Lawful, LogBytes, Count, Retained, RetainedOf, BatchBytes;
  }

  lemma WriteSucceedsOrFails(crc: Checksum, limits: Limits, s: State, durable: nat, attempt: seq<Batch>,
                             records: seq<Record>, fault: Fault)
    requires Explained(crc, limits, s, durable, attempt)
    ensures var (t, r) := AfterPublish(crc, limits, s, records, fault);
            r.Err? && t != s ==> Fails(crc, limits, s, Publish(records, fault))
  {
    hide Frame, Lawful, LogBytes, Count, Retained, RetainedOf, BatchBytes;
  }

  lemma TraceRestart(crc: Checksum, limits: Limits, states: seq<State>, steps: seq<Step>,
                     i: nat, durable: nat, attempt: seq<Batch>, from: seq<nat>)
    returns (d: nat, f: seq<nat>)
    requires |states| == |steps| + 1 && i < |steps|
             && TracedState(crc, limits, states, steps, i, durable, attempt, from)
    requires steps[i].Restart? && Next(crc, limits, states[i], steps[i], states[i + 1])
    ensures TracedState(crc, limits, states, steps, i + 1, d, [], f)
    ensures states[i + 1].batches <= states[i].batches + attempt && f <= from
  {
    hide Explained, Opened, LogBytes;
    var s, cut := states[i], steps[i].cut;
    var j := RestartExplained(crc, limits, s, durable, attempt, cut);
    var all := s.batches + attempt;
    d, f := if cut == |LogBytes(crc, all[..j])| then durable else j, from[..j];
    TracedPrefix(crc, limits, states, steps, i, all, from, j);
    TracedLater(crc, limits, states, steps, i, all[..j], f);
    assert states[i + 1].batches + [] == all[..j];
  }

  lemma {:induction false} RunTraced(crc: Checksum, limits: Limits, states: seq<State>, steps: seq<Step>, i: nat)
    returns (durable: nat, attempt: seq<Batch>, from: seq<nat>)
    requires Configured(limits) && IsRun(crc, limits, states, steps) && i < |states|
    ensures TracedState(crc, limits, states, steps, i, durable, attempt, from)
  {
    hide TracedState, Next, Opened;
    if i == 0 {
      FirstOpen(crc, limits);
      durable, attempt, from := 0, [], [];
      StartTraced(crc, limits, states, steps);
    } else {
      durable, attempt, from := RunTraced(crc, limits, states, steps, i - 1);
      assert Next(crc, limits, states[i - 1], steps[i - 1], states[i - 1 + 1]);
      if steps[i - 1].Publish? {
        durable, attempt, from := TracePublish(crc, limits, states, steps, i - 1, durable, attempt, from);
      } else {
        durable, from := TraceRestart(crc, limits, states, steps, i - 1, durable, attempt, from);
        attempt := [];
      }
    }
  }

  lemma StartTraced(crc: Checksum, limits: Limits, states: seq<State>, steps: seq<Step>)
    requires |states| == |steps| + 1 && Explained(crc, limits, states[0], 0, []) && states[0].batches == []
    ensures TracedState(crc, limits, states, steps, 0, 0, [], [])
  {
    hide Explained;
  }

  /** Over every run and in every state: the log is a subsequence of the run's publishes. Each batch was
      written by a step of its own, acknowledged or failed, in step order, behind the very batches that
      precede it now; nothing is invented, repeated or reordered. */
  lemma EveryBatchWasPublished(crc: Checksum, limits: Limits, states: seq<State>, steps: seq<Step>, i: nat)
    returns (from: seq<nat>)
    requires Configured(limits) && IsRun(crc, limits, states, steps) && i < |states|
    ensures Traced(crc, limits, states, steps, i, states[i].batches, from)
  {
    hide Explained, Wrote, Next, Opened, AttemptedAt;
    var durable, attempt, all := RunTraced(crc, limits, states, steps, i);
    var batches := states[i].batches;
    assert |batches| <= |all| by {
      TracedLength(crc, limits, states, steps, i, batches + attempt, all);
    }
    from := all[..|batches|];
    TracedPrefix(crc, limits, states, steps, i, batches + attempt, all, |batches|);
    assert (batches + attempt)[..|batches|] == batches;
  }

  lemma TracedLength(crc: Checksum, limits: Limits, states: seq<State>, steps: seq<Step>,
                     i: nat, batches: seq<Batch>, from: seq<nat>)
    requires |states| == |steps| + 1 && Traced(crc, limits, states, steps, i, batches, from)
    ensures |from| == |batches|
  {
  }

  /** Over every run: a restart finds a prefix of the log in memory, or all of it and one batch more; and
      that one is the batch of the publish that failed in this process, the last step that wrote. */
  lemma RestartFindsTheAttempt(crc: Checksum, limits: Limits, states: seq<State>, steps: seq<Step>, i: nat)
    returns (p: nat)
    requires Configured(limits) && IsRun(crc, limits, states, steps) && i < |steps| && steps[i].Restart?
    ensures states[i + 1].batches <= states[i].batches ||
            (&& AttemptedAt(crc, limits, states, steps, p, i) && states[p].batches == states[i].batches
             && states[i + 1].batches == states[i].batches + [Batch(Count(states[i].batches) + 1, steps[p].records)])
  {
    hide Explained, AfterPublish, Opened, Count;
    var durable, attempt, from := RunTraced(crc, limits, states, steps, i);
    assert Next(crc, limits, states[i], steps[i], states[i + 1]);
    var d, f := TraceRestart(crc, limits, states, steps, i, durable, attempt, from);
    var s, t := states[i].batches, states[i + 1].batches;
    p := if from == [] then 0 else Last(from);
    if !(t <= s) {
      OneMoreBatch(crc, limits, states[i], durable, attempt, t);
      var all := s + attempt;
      assert all[..|s|] == s && Wrote(crc, limits, states, steps, from[|s|], all[..|s|], all[|s|]);
    }
  }

  lemma OneMoreBatch(crc: Checksum, limits: Limits, s: State, durable: nat, attempt: seq<Batch>, t: seq<Batch>)
    requires Explained(crc, limits, s, durable, attempt) && t <= s.batches + attempt
    ensures t <= s.batches || (|attempt| == 1 && t == s.batches + attempt)
  {
    hide Lawful, LogBytes;
    var all := s.batches + attempt;
    assert t == all[..|t|];
    if |t| <= |s.batches| {
      assert t == s.batches[..|t|];
    } else {
      assert t == all;
    }
  }

  // ---------------------------------------------------------------- batches nobody was told about

  /** Batch `k` of the log was written by an acknowledged publish. */
  ghost predicate AcknowledgedAt(crc: Checksum, limits: Limits, states: seq<State>, steps: seq<Step>, k: nat)
    requires |states| == |steps| + 1
  {
    exists i :: 0 <= i < |steps| && Acknowledges(crc, limits, states[i], steps[i]) && |states[i].batches| == k
  }

  /** The places of the log, as it is at the end of the run, whose publish was not acknowledged. */
  ghost function Unacknowledged(crc: Checksum, limits: Limits, states: seq<State>, steps: seq<Step>): set<nat>
    requires |states| == |steps| + 1
  {
    set k: nat | k < |Last(states).batches| && !AcknowledgedAt(crc, limits, states, steps, k)
  }

  function Below(n: nat): (s: set<nat>)
    ensures |s| == n && forall k: nat :: k in s <==> k < n
  {
    if n == 0 then {} else Below(n - 1) + {n - 1}
  }

  ghost function Places(crc: Checksum, limits: Limits, states: seq<State>, steps: seq<Step>): set<nat>
    requires |states| == |steps| + 1
  {
    set i | 0 <= i < |steps| && Acknowledges(crc, limits, states[i], steps[i]) :: |states[i].batches|
  }

  lemma PlacesGrow(crc: Checksum, limits: Limits, states: seq<State>, steps: seq<Step>)
    requires |states| == |steps| + 1 && steps != []
    ensures var n := |steps| - 1;
            Places(crc, limits, states, steps)
            == Places(crc, limits, states[..n + 1], steps[..n])
               + (if Acknowledges(crc, limits, states[n], steps[n]) then {|states[n].batches|} else {})
  {
    hide Acknowledges;
    var n := |steps| - 1;
    var earlier, before := states[..n + 1], steps[..n];
    assert forall i: nat :: i < n ==> earlier[i] == states[i] && before[i] == steps[i];
    var left := Places(crc, limits, states, steps);
    var right := Places(crc, limits, earlier, before)
                 + (if Acknowledges(crc, limits, states[n], steps[n]) then {|states[n].batches|} else {});
    forall k | k in left ensures k in right {
      var i :| 0 <= i < |steps| && Acknowledges(crc, limits, states[i], steps[i]) && |states[i].batches| == k;
    }
    forall k | k in right ensures k in left {
      if k in Places(crc, limits, earlier, before) {
        var i :| 0 <= i < n && Acknowledges(crc, limits, earlier[i], before[i]) && |earlier[i].batches| == k;
        assert Acknowledges(crc, limits, states[i], steps[i]);
      }
    }
  }

  lemma RunPrefix(crc: Checksum, limits: Limits, states: seq<State>, steps: seq<Step>, n: nat)
    requires IsRun(crc, limits, states, steps) && n <= |steps|
    ensures IsRun(crc, limits, states[..n + 1], steps[..n])
  {
    hide Next, Opened;
    forall i | 0 <= i < n ensures Next(crc, limits, states[..n + 1][i], steps[..n][i], states[..n + 1][i + 1]) {
      assert Next(crc, limits, states[i], steps[i], states[i + 1]);
    }
  }

  lemma PlaceBelow(crc: Checksum, limits: Limits, states: seq<State>, steps: seq<Step>, n: nat, k: nat)
    requires Configured(limits) && IsRun(crc, limits, states, steps) && n < |states|
    requires exists i :: 0 <= i < n && Acknowledges(crc, limits, states[i], steps[i]) && |states[i].batches| == k
    ensures k < |states[n].batches|
  {
    hide Next, Opened, Count, AfterPublish;
    var i :| 0 <= i < n && Acknowledges(crc, limits, states[i], steps[i]) && |states[i].batches| == k;
    AcknowledgedSurvives(crc, limits, states, steps, i, n);
  }

  lemma NewPlace(places: set<nat>, k: nat)
    requires places <= Below(k)
    ensures |places + {k}| == |places| + 1
  {
    assert k !in places;
  }

  lemma NoPlaces(crc: Checksum, limits: Limits, states: seq<State>, steps: seq<Step>)
    requires |states| == |steps| + 1 && steps == []
    ensures Places(crc, limits, states, steps) == {} && Acknowledged(crc, limits, states, steps) == 0
  {
    hide Acknowledges;
  }

  /** Acknowledged publishes have places of their own in the log. */
  lemma {:induction false} PlacesCounted(crc: Checksum, limits: Limits, states: seq<State>, steps: seq<Step>)
    requires Configured(limits) && IsRun(crc, limits, states, steps)
    ensures |Places(crc, limits, states, steps)| == Acknowledged(crc, limits, states, steps)
    ensures Places(crc, limits, states, steps) <= Below(|Last(states).batches|)
    decreases |steps|
  {
    hide Acknowledges, Next, Opened, Places, Below;
    PlacesBelow(crc, limits, states, steps);
    if steps == [] {
      NoPlaces(crc, limits, states, steps);
    } else {
      var n := |steps| - 1;
      RunPrefix(crc, limits, states, steps, n);
      PlacesCounted(crc, limits, states[..n + 1], steps[..n]);
      PlacesGrow(crc, limits, states, steps);
      NewPlace(Places(crc, limits, states[..n + 1], steps[..n]), |states[n].batches|);
    }
  }

  lemma PlacesBelow(crc: Checksum, limits: Limits, states: seq<State>, steps: seq<Step>)
    requires Configured(limits) && IsRun(crc, limits, states, steps)
    ensures Places(crc, limits, states, steps) <= Below(|Last(states).batches|)
  {
    hide Acknowledges, Next, Opened;
    forall k | k in Places(crc, limits, states, steps) ensures k < |Last(states).batches| {
      PlaceBelow(crc, limits, states, steps, |steps|, k);
    }
  }

  /** Over every run, exactly the acknowledged publishes are missing from the count. */
  lemma UnacknowledgedCount(crc: Checksum, limits: Limits, states: seq<State>, steps: seq<Step>)
    requires Configured(limits) && IsRun(crc, limits, states, steps)
    ensures |Unacknowledged(crc, limits, states, steps)|
            == |Last(states).batches| - Acknowledged(crc, limits, states, steps)
  {
    hide Acknowledges, Next, Opened;
    var places, all := Places(crc, limits, states, steps), Below(|Last(states).batches|);
    PlacesCounted(crc, limits, states, steps);
    forall k: nat ensures AcknowledgedAt(crc, limits, states, steps, k) <==> k in places {
    }
    assert Unacknowledged(crc, limits, states, steps) == all - places;
    DifferenceSize(all, places);
  }

  lemma DifferenceSize(all: set<nat>, some: set<nat>)
    requires some <= all
    ensures |all - some| == |all| - |some|
  {
    assert all == some + (all - some);
  }

  /** Over every run: no more batches are unacknowledged than publishes failed. */
  lemma UnacknowledgedAreFailures(crc: Checksum, limits: Limits, states: seq<State>, steps: seq<Step>)
    requires Configured(limits) && IsRun(crc, limits, states, steps)
    ensures |Unacknowledged(crc, limits, states, steps)| <= Failed(crc, limits, states, steps)
  {
    hide Next, Opened, Acknowledged, Failed, Unacknowledged;
    UnacknowledgedCount(crc, limits, states, steps);
    ExtrasAreFailures(crc, limits, states, steps);
  }
}
