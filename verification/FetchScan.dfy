/** The one-pass scan behind FETCH: hash index, in-place replacement, running byte count, final sort. */
module FetchScan {
  import opened Basics
  import opened Codes
  import opened EventLog
  import opened Paging

  function IdentityOf(r: Record): Identity {
    (r.topic, r.key)
  }

  // ---------------------------------------------------------------- what the loop's variables mean

  ghost predicate DistinctEvents(events: seq<Event>) {
    forall a, b :: 0 <= a < b < |events| ==> events[a].sequence != events[b].sequence
  }

  /** `selected` holds the selection, in some order. */
  ghost predicate Holds(selected: seq<Event>, selection: seq<Event>) {
    && DistinctEvents(selected) && |selected| == |selection|
    && forall e :: e in selected <==> e in selection
  }

  /** `positions` finds the only selected event of each key. */
  ghost predicate Indexes(positions: map<Identity, nat>, selected: seq<Event>, q: Query) {
    && (forall k :: k in positions ==>
          positions[k] < |selected| && Keyed(q, selected[positions[k]].record)
            && IdentityOf(selected[positions[k]].record) == k)
    && (forall p :: 0 <= p < |selected| && Keyed(q, selected[p].record) ==>
          IdentityOf(selected[p].record) in positions && positions[IdentityOf(selected[p].record)] == p)
  }

  // ---------------------------------------------------------------- sums and replacements

  lemma {:induction false} WireSumAppend(events: seq<Event>, e: Event)
    ensures WireSum(events + [e]) == WireSum(events) + e.record.WireBytes()
  {
    if events == [] {
      assert events + [e] == [e];
      assert WireSum([e]) == e.record.WireBytes() + WireSum([]);
    } else {
      assert (events + [e])[1..] == events[1..] + [e];
      WireSumAppend(events[1..], e);
    }
  }

  lemma {:induction false} DropNone(events: seq<Event>, r: Record)
    requires forall e :: e in events ==> !SameKey(e.record, r)
    ensures DropKey(events, r) == events
  {
    if events != [] {
      DropNone(events[1..], r);
    }
  }

  /** Dropping a key that occurs once takes away one event and its bytes. */
  lemma {:induction false} DropOne(events: seq<Event>, r: Record, one: Event)
    requires Rising(events) && one in events && SameKey(one.record, r)
    requires forall e :: e in events && SameKey(e.record, r) ==> e == one
    ensures |DropKey(events, r)| == |events| - 1
    ensures WireSum(DropKey(events, r)) == WireSum(events) - one.record.WireBytes()
  {
    forall e | e in events[1..] ensures e in events && e.sequence > events[0].sequence {
      TailLater(events, e);
    }
    if SameKey(events[0].record, r) {
      assert events[0] == one;
      DropNone(events[1..], r);
    } else {
      assert one in events[1..];
      DropOne(events[1..], r, one);
    }
  }

  lemma TailLater(events: seq<Event>, e: Event)
    requires Rising(events) && events != [] && e in events[1..]
    ensures e in events && e.sequence > events[0].sequence
  {
    var k :| 0 <= k < |events[1..]| && events[1..][k] == e;
    assert events[k + 1] == e;
  }

  /** At most one event of a selection has a given key. */
  lemma KeyOnce(log: seq<Event>, q: Query, lo: nat, hi: nat, a: Event, b: Event)
    requires Numbered(log) && lo <= hi <= |log|
    requires a in Coalesce(log, q, lo, hi) && b in Coalesce(log, q, lo, hi)
    requires Keyed(q, a.record) && SameKey(a.record, b.record)
    ensures a == b
  {
    hide Coalesce, Rising, Superseded;
    CoalesceExact(log, q, lo, hi);
    OneSurvivor(log, q, lo, hi, a, b);
    OneSurvivor(log, q, lo, hi, b, a);
  }

  /** Of two survivors with one key, neither is the earlier. */
  lemma OneSurvivor(log: seq<Event>, q: Query, lo: nat, hi: nat, a: Event, b: Event)
    requires hi <= |log| && 1 <= a.sequence <= |log| && 1 <= b.sequence <= |log|
    requires a == log[a.sequence - 1] && b == log[b.sequence - 1]
    requires Survives(log, q, a.sequence - 1, lo, hi) && Survives(log, q, b.sequence - 1, lo, hi)
    requires Keyed(q, a.record) && SameKey(a.record, b.record)
    ensures a.sequence >= b.sequence
  {
  }

  // ---------------------------------------------------------------- the final sort

  /** `sort_unstable_by_key` on the sequence number; numbers are distinct, so stability is moot. */
  function Insert(e: Event, events: seq<Event>): seq<Event> {
    if events == [] || e.sequence <= events[0].sequence then [e] + events
    else [events[0]] + Insert(e, events[1..])
  }

  function SortBySequence(events: seq<Event>): seq<Event> {
    if events == [] then [] else Insert(events[0], SortBySequence(events[1..]))
  }

  lemma {:induction false} InsertRises(e: Event, events: seq<Event>)
    requires Rising(events) && forall x :: x in events ==> x.sequence != e.sequence
    ensures Rising(Insert(e, events))
    ensures forall x :: x in Insert(e, events) <==> x == e || x in events
  {
    if events == [] || e.sequence <= events[0].sequence {
      forall k | 0 <= k < |events| ensures e.sequence < events[k].sequence {
        assert events[k] in events && events[0] in events;
      }
    } else {
      InsertRises(e, events[1..]);
      var rest := Insert(e, events[1..]);
      forall k | 0 <= k < |rest| ensures events[0].sequence < rest[k].sequence {
        assert rest[k] == e || rest[k] in events[1..];
      }
      assert events == [events[0]] + events[1..];
    }
  }

  lemma {:induction false} SortRises(events: seq<Event>)
    requires DistinctEvents(events)
    ensures Rising(SortBySequence(events))
    ensures forall x :: x in SortBySequence(events) <==> x in events
  {
    if events != [] {
      SortRises(events[1..]);
      assert events == [events[0]] + events[1..];
      forall x | x in events[1..] ensures x.sequence != events[0].sequence {
        var k :| 0 <= k < |events[1..]| && events[1..][k] == x;
        assert events[k + 1] == x;
      }
      InsertRises(events[0], SortBySequence(events[1..]));
    }
  }

  lemma {:induction false} RisingUnique(a: seq<Event>, b: seq<Event>)
    requires Rising(a) && Rising(b) && forall x :: x in a <==> x in b
    ensures a == b
  {
    NoMembers(a);
    NoMembers(b);
    if a != [] {
      assert a[0] in b && b[0] in a;
      assert a[0] == b[0];
      SameTails(a, b);
      RisingUnique(a[1..], b[1..]);
      assert a == [a[0]] + a[1..] && b == [b[0]] + b[1..];
    }
  }

  lemma NoMembers(events: seq<Event>)
    ensures events == [] <==> forall x :: x !in events
  {
    if events != [] {
      assert events[0] in events;
    }
  }

  lemma SameTails(a: seq<Event>, b: seq<Event>)
    requires Rising(a) && Rising(b) && a != [] && b != [] && a[0] == b[0] && forall x :: x in a <==> x in b
    ensures forall x :: x in a[1..] <==> x in b[1..]
  {
    forall x ensures x in a[1..] <==> x in a && x != a[0] {
      assert a == [a[0]] + a[1..];
    }
    forall x ensures x in b[1..] <==> x in b && x != b[0] {
      assert b == [b[0]] + b[1..];
    }
  }

  lemma SortedSelection(selected: seq<Event>, log: seq<Event>, q: Query, lo: nat, hi: nat)
    requires Numbered(log) && lo <= hi <= |log|
    requires Holds(selected, Coalesce(log, q, lo, hi))
    ensures SortBySequence(selected) == Coalesce(log, q, lo, hi)
  {
    CoalesceExact(log, q, lo, hi);
    SortRises(selected);
    RisingUnique(SortBySequence(selected), Coalesce(log, q, lo, hi));
  }

  // ---------------------------------------------------------------- one event of the scan

  /** Everything selected so far is older than the event the scan has come to. */
  lemma SelectedOlder(log: seq<Event>, q: Query, lo: nat, hi: nat, e: Event)
    requires Numbered(log) && lo <= hi <= |log| && e in Coalesce(log, q, lo, hi)
    ensures 1 <= e.sequence <= hi
  {
    CoalesceExact(log, q, lo, hi);
  }

  lemma StepAppend(log: seq<Event>, q: Query, hi: nat, selected: seq<Event>, positions: map<Identity, nat>)
    requires Numbered(log) && q.after <= hi < |log| && Matches(q, log[hi].record)
    requires Holds(selected, Coalesce(log, q, q.after, hi)) && Indexes(positions, selected, q)
    requires Keyed(q, log[hi].record) ==> IdentityOf(log[hi].record) !in positions
    ensures var e := log[hi];
            var before, after := Coalesce(log, q, q.after, hi), Coalesce(log, q, q.after, hi + 1);
            && |after| == |before| + 1 && WireSum(after) == WireSum(before) + e.record.WireBytes()
            && Holds(selected + [e], after)
            && Indexes(if Keyed(q, e.record) then positions[IdentityOf(e.record) := |selected|] else positions,
                       selected + [e], q)
  {
    var e := log[hi];
    var before, after := Coalesce(log, q, q.after, hi), Coalesce(log, q, q.after, hi + 1);
    if Keyed(q, e.record) {
      forall x | x in before ensures !SameKey(x.record, e.record) {
        assert x in selected;
      }
      DropNone(before, e.record);
    }
    assert after == before + [e];
    WireSumAppend(before, e);
    forall x | x in selected ensures x.sequence != e.sequence {
      SelectedOlder(log, q, q.after, hi, x);
    }
  }

  /** The event a keyed newcomer replaces is the only one selected with its key. */
  lemma Replaced(log: seq<Event>, q: Query, hi: nat, selected: seq<Event>, one: Event)
    requires Numbered(log) && q.after <= hi < |log| && Keyed(q, log[hi].record)
    requires one in Coalesce(log, q, q.after, hi) && SameKey(one.record, log[hi].record)
    ensures var before := Coalesce(log, q, q.after, hi);
            var rest := DropKey(before, log[hi].record);
            && (forall x :: x in before ==> x.sequence <= hi)
            && (forall x :: x in before && SameKey(x.record, log[hi].record) <==> x == one)
            && |rest| == |before| - 1 && WireSum(rest) == WireSum(before) - one.record.WireBytes()
  {
    var e := log[hi];
    var before := Coalesce(log, q, q.after, hi);
    CoalesceExact(log, q, q.after, hi);
    forall x | x in before && SameKey(x.record, e.record) ensures x == one {
      KeyOnce(log, q, q.after, hi, one, x);
    }
    DropOne(before, e.record, one);
  }

  lemma ReplaceIndexes(positions: map<Identity, nat>, selected: seq<Event>, q: Query, p: nat, e: Event)
    requires Indexes(positions, selected, q) && Keyed(q, e.record)
    requires IdentityOf(e.record) in positions && positions[IdentityOf(e.record)] == p
    ensures p < |selected| && Indexes(positions, selected[p := e], q)
  {
  }

  lemma StepReplace(log: seq<Event>, q: Query, hi: nat, selected: seq<Event>, positions: map<Identity, nat>)
    requires Numbered(log) && q.after <= hi < |log| && Matches(q, log[hi].record) && Keyed(q, log[hi].record)
    requires Holds(selected, Coalesce(log, q, q.after, hi)) && Indexes(positions, selected, q)
    requires IdentityOf(log[hi].record) in positions
    ensures var e := log[hi];
            var p := positions[IdentityOf(e.record)];
            var before, after := Coalesce(log, q, q.after, hi), Coalesce(log, q, q.after, hi + 1);
            && p < |selected| && selected[p].record.WireBytes() <= WireSum(before)
            && |after| == |before|
            && WireSum(after) == WireSum(before) - selected[p].record.WireBytes() + e.record.WireBytes()
            && Holds(selected[p := e], after)
            && Indexes(positions, selected[p := e], q)
  {
    hide DistinctEvents, DropKey, WireSum;
    var e := log[hi];
    var p := positions[IdentityOf(e.record)];
    var before := Coalesce(log, q, q.after, hi);
    ReplaceIndexes(positions, selected, q, p, e);
    assert selected[p] in before;
    Replaced(log, q, hi, selected, selected[p]);
    WireSumAppend(DropKey(before, e.record), e);
    ReplaceHolds(selected, p, e, before, Coalesce(log, q, q.after, hi + 1), hi);
  }

  lemma ReplaceHolds(selected: seq<Event>, p: nat, e: Event, before: seq<Event>, after: seq<Event>, hi: nat)
    requires Holds(selected, before) && p < |selected| && |after| == |before| && e.sequence > hi
    requires forall x :: x in before ==> x.sequence <= hi
    requires forall x :: x in before && SameKey(x.record, e.record) <==> x == selected[p]
    requires after == DropKey(before, e.record) + [e]
    ensures Holds(selected[p := e], after)
  {
    var now := selected[p := e];
    forall x | x in now ensures x in after {
      var k :| 0 <= k < |now| && now[k] == x;
      if k != p {
        assert selected[k] in before && selected[k].sequence != selected[p].sequence;
      }
    }
    forall x | x in after ensures x in now {
      if x == e {
        assert now[p] == e;
      } else {
        var k :| 0 <= k < |selected| && selected[k] == x;
        assert now[k] == x;
      }
    }
    forall a, b | 0 <= a < b < |now| ensures now[a].sequence != now[b].sequence {
      assert selected[a] in before && selected[b] in before;
    }
  }

  // ---------------------------------------------------------------- how the scan ends

  /** An oversized first event is never passed over. */
  lemma OversizedStops(log: seq<Event>, q: Query, hi: nat)
    requires Numbered(log) && q.after <= hi <= ScanEnd(log, q)
    requires q.after <= |log| && FirstTooLarge(log, q)
    requires forall k :: q.after < k <= hi ==> Fits(log, q, k)
    ensures Coalesce(log, q, q.after, hi) == [] && hi < ScanEnd(log, q)
    ensures Matches(q, log[hi].record) ==> log[hi].record.WireBytes() > q.maxBytes
  {
    var i :| q.after <= i < ScanEnd(log, q) && Matches(q, log[i].record) && log[i].record.WireBytes() > q.maxBytes
             && forall j :: q.after <= j < i ==> !Matches(q, log[j].record);
    hide Coalesce, Matches, Fits;
    TooLargeAlone(log, q, i);
    assert !Fits(log, q, i + 1);
    assert hi <= i;
    NoMatchesNoEvents(log, q, q.after, hi);
  }

  lemma TooLargeAlone(log: seq<Event>, q: Query, i: nat)
    requires q.after <= i < |log| && Matches(q, log[i].record) && log[i].record.WireBytes() > q.maxBytes
    requires forall j :: q.after <= j < i ==> !Matches(q, log[j].record)
    ensures !Fits(log, q, i + 1)
  {
    hide Matches, Keyed;
    NoMatchesNoEvents(log, q, q.after, i);
    var only := Coalesce(log, q, q.after, i + 1);
    assert only == [log[i]];
    assert WireSum(only) == log[i].record.WireBytes() + WireSum([]);
  }

  /** If nothing is selected, nothing matched. */
  lemma NothingMatched(log: seq<Event>, q: Query, hi: nat)
    requires Numbered(log) && q.after <= hi <= |log| && Coalesce(log, q, q.after, hi) == []
    ensures forall j :: q.after <= j < hi ==> !Matches(q, log[j].record)
  {
    forall j | q.after <= j < hi ensures !Matches(q, log[j].record) {
      if Matches(q, log[j].record) {
        NothingSkipped(log, q, q.after, hi, j);
      }
    }
  }

  /** Where the scan stops is where the answer's cursor is, and it is not an error. */
  lemma Stopped(log: seq<Event>, q: Query, c: nat)
    requires Numbered(log) && Valid(q) && q.after <= |log| && Furthest(log, q, c)
    requires c < ScanEnd(log, q) ==>
               Matches(q, log[c].record)
                 && (Coalesce(log, q, q.after, c) != [] || log[c].record.WireBytes() <= q.maxBytes)
    ensures Answer(log, q) == Ok(Page(c, Coalesce(log, q, q.after, c), c < |log|))
  {
    ScanFurthest(log, q, q.after);
    if FirstTooLarge(log, q) {
      OversizedStops(log, q, c);
    }
  }

  /** One event more, and what the loop does with it. */
  ghost predicate Progress(log: seq<Event>, q: Query, cursor: nat, selected: seq<Event>, positions: map<Identity, nat>,
                           wireBytes: nat)
    requires q.after <= |log|
  {
    && q.after <= cursor <= ScanEnd(log, q)
    && Holds(selected, Coalesce(log, q, q.after, cursor)) && Indexes(positions, selected, q)
    && wireBytes == WireSum(Coalesce(log, q, q.after, cursor))
    && (forall k :: q.after <= k <= cursor ==> Fits(log, q, k))
  }

  lemma SkipOne(log: seq<Event>, q: Query, cursor: nat)
    requires q.after <= cursor < |log| && !Matches(q, log[cursor].record)
    ensures Coalesce(log, q, q.after, cursor + 1) == Coalesce(log, q, q.after, cursor)
    ensures Filtered(log, q, q.after, cursor + 1) == Filtered(log, q, q.after, cursor)
    ensures Fits(log, q, cursor) ==> Fits(log, q, cursor + 1)
  {
  }

  lemma Advance(log: seq<Event>, q: Query, cursor: nat, selected: seq<Event>, positions: map<Identity, nat>,
                wireBytes: nat)
    requires q.after <= cursor < ScanEnd(log, q) && q.after <= |log|
    requires forall k :: q.after <= k <= cursor ==> Fits(log, q, k)
    requires Holds(selected, Coalesce(log, q, q.after, cursor + 1)) && Indexes(positions, selected, q)
    requires wireBytes == WireSum(Coalesce(log, q, q.after, cursor + 1))
    requires |selected| <= q.limit && wireBytes <= q.maxBytes
    ensures Progress(log, q, cursor + 1, selected, positions, wireBytes)
  {
    assert Fits(log, q, cursor + 1);
  }

  lemma NothingSelected(log: seq<Event>, q: Query)
    requires q.after <= |log|
    ensures Progress(log, q, q.after, [], map[], 0)
  {
  }

  /** The scan: `r` is the answer the log defines, and `coalesced` accounts for every match not returned. */
  method Fetch(log: seq<Event>, q: Query) returns (r: Result<Page>, coalesced: nat)
    requires Numbered(log) && Valid(q)
    ensures r == Answer(log, q)
    ensures r.Ok? ==> coalesced + |r.value.events| == |Filtered(log, q, q.after, r.value.cursor)|
  {
    hide Coalesce, DistinctEvents, Indexes, WireSum, SortBySequence;
    coalesced := 0;
    if q.after > |log| {
      return Err(CURSOR), 0;
    }
    var cursor := q.after;
    var selected: seq<Event> := [];
    var positions: map<Identity, nat> := map[];
    var wireBytes: nat := 0;
    NothingSelected(log, q);
    while cursor < ScanEnd(log, q)
      invariant Progress(log, q, cursor, selected, positions, wireBytes)
      invariant coalesced + |selected| == |Filtered(log, q, q.after, cursor)|
    {
      var event := log[cursor];
      var record := event.record;
      if q.topic != WILDCARD && q.topic != record.topic {
        SkipOne(log, q, cursor);
        cursor := event.sequence;
        continue;
      }
      var identity := IdentityOf(record);
      var replace := if q.latest && record.key != [] && identity in positions then Some(positions[identity]) else None;
      if replace.Some? {
        StepReplace(log, q, cursor, selected, positions);
      } else {
        StepAppend(log, q, cursor, selected, positions);
      }
      var previousBytes := if replace.Some? then selected[replace.value].record.WireBytes() else 0;
      var candidateBytes := wireBytes - previousBytes + record.WireBytes();
      if candidateBytes > q.maxBytes || (replace.None? && |selected| == q.limit) {
        if selected == [] && record.WireBytes() > q.maxBytes {
          NothingMatched(log, q, cursor);
          return Err(LIMIT), 0;
        }
        break;
      }
      assert Fits(log, q, cursor);
      wireBytes := candidateBytes;
      if replace.Some? {
        selected := selected[replace.value := event];
        coalesced := coalesced + 1;
      } else {
        if q.latest && record.key != [] {
          positions := positions[identity := |selected|];
        }
        selected := selected + [event];
      }
      Advance(log, q, cursor, selected, positions, wireBytes);
      cursor := event.sequence;
    }
    Stopped(log, q, cursor);
    SortedSelection(selected, log, q, q.after, cursor);
    SameLength(selected);
    r := Ok(Page(cursor, SortBySequence(selected), cursor < |log|));
  }

  lemma {:induction false} SameLength(events: seq<Event>)
    ensures |SortBySequence(events)| == |events|
  {
    if events != [] {
      SameLength(events[1..]);
      InsertLength(events[0], SortBySequence(events[1..]));
    }
  }

  lemma {:induction false} InsertLength(e: Event, events: seq<Event>)
    ensures |Insert(e, events)| == |events| + 1
  {
    if !(events == [] || e.sequence <= events[0].sequence) {
      InsertLength(e, events[1..]);
    }
  }
}
