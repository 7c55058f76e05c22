/**
 What a fetch means: coalescing a window of the log, the furthest cursor the budgets allow, and
 what paging with that cursor preserves.
 */
module EventLog {
  import opened Basics
  import opened Codes

  const MAX_SCAN := 4096

  /** Topics and keys are their UTF-8 bytes. */
  datatype Record = Record(topic: seq<byte>, key: seq<byte>, payload: seq<byte>)
  {
    function WireBytes(): nat {
      16 + |topic| + |key| + |payload|
    }

    function RetainedBytes(): nat {
      256 + 2 * |topic| + 2 * |key| + |payload|
    }
  }

  datatype Event = Event(sequence: nat, record: Record)

  datatype Query = Query(topic: seq<byte>, after: nat, limit: nat, maxBytes: nat, latest: bool)

  datatype Page = Page(cursor: nat, events: seq<Event>, hasMore: bool)

  const WILDCARD: seq<byte> := [42]

  /** Sequence numbers are positions: the event at index i is number i + 1. */
  ghost predicate Numbered(log: seq<Event>) {
    forall i :: 0 <= i < |log| ==> log[i].sequence == i + 1
  }

  predicate Valid(q: Query) {
    1 <= q.limit && 1 <= q.maxBytes
  }

  predicate Matches(q: Query, r: Record) {
    q.topic == WILDCARD || q.topic == r.topic
  }

  /** The identity under which `latest` replaces; empty keys have none. */
  predicate Keyed(q: Query, r: Record) {
    q.latest && r.key != []
  }

  predicate SameKey(a: Record, b: Record) {
    a.topic == b.topic && a.key == b.key
  }

  function DropKey(events: seq<Event>, r: Record): (rest: seq<Event>)
    ensures forall e :: e in rest <==> e in events && !SameKey(e.record, r)
    ensures |rest| <= |events|
  {
    if events == [] then []
    else if SameKey(events[0].record, r) then DropKey(events[1..], r)
    else [events[0]] + DropKey(events[1..], r)
  }

  /** The window `log[lo..hi]` as a fetch returns it. */
  function Coalesce(log: seq<Event>, q: Query, lo: nat, hi: nat): seq<Event>
    requires lo <= hi <= |log|
    decreases hi - lo
  {
    if lo == hi then []
    else
      var before := Coalesce(log, q, lo, hi - 1);
      var e := log[hi - 1];
      if !Matches(q, e.record) then before
      else if Keyed(q, e.record) then DropKey(before, e.record) + [e]
      else before + [e]
  }

  function WireSum(events: seq<Event>): nat {
    if events == [] then 0 else events[0].record.WireBytes() + WireSum(events[1..])
  }

  function ScanEnd(log: seq<Event>, q: Query): nat {
    if q.after + MAX_SCAN <= |log| then q.after + MAX_SCAN else |log|
  }

  /** The selection up to `hi` stays within both budgets. */
  predicate Fits(log: seq<Event>, q: Query, hi: nat)
    requires q.after <= hi <= |log|
  {
    var events := Coalesce(log, q, q.after, hi);
    |events| <= q.limit && WireSum(events) <= q.maxBytes
  }

  function Scan(log: seq<Event>, q: Query, c: nat): (end: nat)
    requires q.after <= c <= ScanEnd(log, q) && q.after <= |log|
    ensures c <= end <= ScanEnd(log, q)
    decreases ScanEnd(log, q) - c
  {
    if c == ScanEnd(log, q) || !Fits(log, q, c + 1) then c else Scan(log, q, c + 1)
  }

  /** The first event this query could return exceeds the byte budget all by itself. */
  ghost predicate FirstTooLarge(log: seq<Event>, q: Query)
    requires q.after <= |log|
  {
    exists i :: q.after <= i < ScanEnd(log, q) && Matches(q, log[i].record) && log[i].record.WireBytes() > q.maxBytes
                && forall j :: q.after <= j < i ==> !Matches(q, log[j].record)
  }

  ghost function Answer(log: seq<Event>, q: Query): Result<Page> {
    if q.after > |log| then Err(CURSOR)
    else if FirstTooLarge(log, q) then Err(LIMIT)
    else
      var cursor := Scan(log, q, q.after);
      Ok(Page(cursor, Coalesce(log, q, q.after, cursor), cursor < |log|))
  }

  // ---------------------------------------------------------------- the selection, declaratively

  ghost predicate Superseded(log: seq<Event>, q: Query, i: nat, hi: nat)
    requires i < hi <= |log|
  {
    Keyed(q, log[i].record)
    && exists j :: i < j < hi && Matches(q, log[j].record) && SameKey(log[j].record, log[i].record)
  }

  ghost predicate Survives(log: seq<Event>, q: Query, i: nat, lo: nat, hi: nat)
    requires hi <= |log|
  {
    lo <= i < hi && Matches(q, log[i].record) && !Superseded(log, q, i, hi)
  }

  ghost predicate Rising(events: seq<Event>) {
    forall a, b :: 0 <= a < b < |events| ==> events[a].sequence < events[b].sequence
  }

  lemma {:induction false} DropKeyRises(events: seq<Event>, r: Record)
    requires Rising(events)
    ensures Rising(DropKey(events, r))
  {
    if events != [] {
      DropKeyRises(events[1..], r);
      var rest := DropKey(events[1..], r);
      forall b | 0 <= b < |rest| ensures events[0].sequence < rest[b].sequence {
        assert rest[b] in events[1..];
      }
    }
  }

  ghost predicate Exactly(events: seq<Event>, log: seq<Event>, q: Query, lo: nat, hi: nat)
    requires hi <= |log|
  {
    && (forall e :: e in events ==>
          1 <= e.sequence <= |log| && e == log[e.sequence - 1] && Survives(log, q, e.sequence - 1, lo, hi))
    && (forall i: nat :: Survives(log, q, i, lo, hi) ==> log[i] in events)
  }

  /** Exactly the matching events of the window that no later matching event of the same non-empty
      key replaces, in ascending order. */
  lemma {:induction false} CoalesceExact(log: seq<Event>, q: Query, lo: nat, hi: nat)
    requires Numbered(log) && lo <= hi <= |log|
    ensures Rising(Coalesce(log, q, lo, hi))
    ensures Exactly(Coalesce(log, q, lo, hi), log, q, lo, hi)
    decreases hi - lo
  {
    if lo < hi {
      CoalesceExact(log, q, lo, hi - 1);
      CoalesceStep(log, q, lo, hi);
      CoalesceRises(log, q, lo, hi);
    }
  }

  lemma CoalesceRises(log: seq<Event>, q: Query, lo: nat, hi: nat)
    requires Numbered(log) && lo < hi <= |log|
    requires Rising(Coalesce(log, q, lo, hi - 1)) && Exactly(Coalesce(log, q, lo, hi - 1), log, q, lo, hi - 1)
    ensures Rising(Coalesce(log, q, lo, hi))
  {
    hide Rising, DropKey, Matches, Keyed, Superseded;
    var before, e := Coalesce(log, q, lo, hi - 1), log[hi - 1];
    DropKeyRises(before, e.record);
    assert forall x :: x in before ==> x.sequence < e.sequence;
    AppendRises(before, e);
    AppendRises(DropKey(before, e.record), e);
  }

  lemma AppendRises(events: seq<Event>, e: Event)
    requires Rising(events) && forall x :: x in events ==> x.sequence < e.sequence
    ensures Rising(events + [e])
  {
    forall a | 0 <= a < |events| ensures events[a].sequence < e.sequence {
      assert events[a] in events;
    }
  }

  /** One more event at the end supersedes exactly the survivors with its key. */
  lemma SurvivesStep(log: seq<Event>, q: Query, i: nat, lo: nat, hi: nat)
    requires lo < hi <= |log|
    ensures i < hi - 1 ==>
              (Survives(log, q, i, lo, hi) <==>
                Survives(log, q, i, lo, hi - 1)
                && !(Keyed(q, log[i].record) && Matches(q, log[hi - 1].record)
                     && SameKey(log[hi - 1].record, log[i].record)))
    ensures i == hi - 1 ==> (Survives(log, q, i, lo, hi) <==> Matches(q, log[i].record))
  {
  }

  lemma CoalesceStep(log: seq<Event>, q: Query, lo: nat, hi: nat)
    requires Numbered(log) && lo < hi <= |log|
    requires Exactly(Coalesce(log, q, lo, hi - 1), log, q, lo, hi - 1)
    ensures Exactly(Coalesce(log, q, lo, hi), log, q, lo, hi)
  {
    var before, after := Coalesce(log, q, lo, hi - 1), Coalesce(log, q, lo, hi);
    forall e | e in after
      ensures 1 <= e.sequence <= |log| && e == log[e.sequence - 1] && Survives(log, q, e.sequence - 1, lo, hi)
    {
      if e != log[hi - 1] {
        assert e in before;
        SurvivesStep(log, q, e.sequence - 1, lo, hi);
      }
    }
    forall i: nat | Survives(log, q, i, lo, hi) ensures log[i] in after {
      SurvivesStep(log, q, i, lo, hi);
    }
  }

  /** The cursor passes over no eligible event that is not returned or superseded by one that is. */
  lemma {:induction false} NothingSkipped(log: seq<Event>, q: Query, lo: nat, hi: nat, i: nat)
    requires Numbered(log) && lo <= i < hi <= |log| && Matches(q, log[i].record)
    ensures log[i] in Coalesce(log, q, lo, hi)
            || (Keyed(q, log[i].record)
                && exists e ::
                     e in Coalesce(log, q, lo, hi) && SameKey(e.record, log[i].record) && e.sequence > log[i].sequence)
    decreases hi - i
  {
    CoalesceExact(log, q, lo, hi);
    if Superseded(log, q, i, hi) {
      var j :| i < j < hi && Matches(q, log[j].record) && SameKey(log[j].record, log[i].record);
      NothingSkipped(log, q, lo, hi, j);
    } else {
      assert Survives(log, q, i, lo, hi);
    }
  }

  // ---------------------------------------------------------------- the cursor

  /** The furthest point such that every selection on the way stays within the budgets and the scan. */
  ghost predicate Furthest(log: seq<Event>, q: Query, c: nat)
    requires q.after <= |log|
  {
    && q.after <= c <= ScanEnd(log, q)
    && (forall k :: q.after < k <= c ==> Fits(log, q, k))
    && (c < ScanEnd(log, q) ==> !Fits(log, q, c + 1))
  }

  lemma {:induction false} ScanFurthest(log: seq<Event>, q: Query, c: nat)
    requires q.after <= c <= ScanEnd(log, q) && q.after <= |log|
    requires forall k :: q.after < k <= c ==> Fits(log, q, k)
    ensures Furthest(log, q, Scan(log, q, c))
    ensures forall d :: Furthest(log, q, d) ==> d == Scan(log, q, c)
    decreases ScanEnd(log, q) - c
  {
    if c < ScanEnd(log, q) && Fits(log, q, c + 1) {
      ScanFurthest(log, q, c + 1);
    }
  }

  lemma {:induction false} NoMatchesNoEvents(log: seq<Event>, q: Query, lo: nat, hi: nat)
    requires lo <= hi <= |log|
    requires forall j :: lo <= j < hi ==> !Matches(q, log[j].record)
    ensures Coalesce(log, q, lo, hi) == []
    decreases hi - lo
  {
    if lo < hi {
      NoMatchesNoEvents(log, q, lo, hi - 1);
    }
  }

  lemma CoalesceOne(log: seq<Event>, q: Query, lo: nat)
    requires lo < |log|
    ensures Coalesce(log, q, lo, lo + 1) == if Matches(q, log[lo].record) then [log[lo]] else []
    ensures WireSum(Coalesce(log, q, lo, lo + 1)) <= log[lo].record.WireBytes()
  {
    assert Coalesce(log, q, lo, lo) == [];
    assert WireSum([log[lo]]) == log[lo].record.WireBytes() + WireSum([]);
  }

  /** The first event of the scan is skipped or returned, or the whole answer is an error. */
  lemma FirstFits(log: seq<Event>, q: Query)
    requires Valid(q) && q.after < |log| && !FirstTooLarge(log, q)
    ensures ScanEnd(log, q) > q.after && Fits(log, q, q.after + 1)
  {
    CoalesceOne(log, q, q.after);
    if Matches(q, log[q.after].record) && log[q.after].record.WireBytes() > q.maxBytes {
      assert FirstTooLarge(log, q);
    }
  }

  lemma {:induction false} MatchLeavesOne(log: seq<Event>, q: Query, lo: nat, hi: nat, i: nat)
    requires lo <= i < hi <= |log| && Matches(q, log[i].record)
    ensures Coalesce(log, q, lo, hi) != []
    decreases hi
  {
    if i < hi - 1 {
      MatchLeavesOne(log, q, lo, hi - 1, i);
    }
  }

  /** A fetch is refused exactly for a cursor beyond the log, and for a byte budget so small that the page
      breaks it with the very first event it would return. */
  lemma FetchRefuses(log: seq<Event>, q: Query)
    requires Valid(q)
    ensures Answer(log, q) == Err(CURSOR) <==> q.after > |log|
    ensures Answer(log, q) == Err(LIMIT) <==> q.after <= |log| && BreaksAtOnce(log, q)
    ensures Answer(log, q).Err? ==> Answer(log, q) == Err(CURSOR) || Answer(log, q) == Err(LIMIT)
  {
    if q.after <= |log| {
      if BreaksAtOnce(log, q) {
        var k: nat :| q.after < k <= ScanEnd(log, q) && Coalesce(log, q, q.after, k - 1) == [] && !Fits(log, q, k);
        forall j | q.after <= j < k - 1 ensures !Matches(q, log[j].record) {
          if Matches(q, log[j].record) {
            MatchLeavesOne(log, q, q.after, k - 1, j);
          }
        }
        FirstOnly(log, q, k);
        OneEvent(log[k - 1]);
        assert Matches(q, log[k - 1].record) && log[k - 1].record.WireBytes() > q.maxBytes;
      }
      if FirstTooLarge(log, q) {
        var i :| q.after <= i < ScanEnd(log, q) && Matches(q, log[i].record)
                 && log[i].record.WireBytes() > q.maxBytes
                 && forall j :: q.after <= j < i ==> !Matches(q, log[j].record);
        NoMatchesNoEvents(log, q, q.after, i);
        FirstOnly(log, q, i + 1);
        OneEvent(log[i]);
        assert !Fits(log, q, i + 1) && Coalesce(log, q, q.after, i + 1 - 1) == [];
      }
    }
  }

  ghost predicate BreaksAtOnce(log: seq<Event>, q: Query)
    requires q.after <= |log|
  {
    exists k: nat :: q.after < k <= ScanEnd(log, q) && Coalesce(log, q, q.after, k - 1) == [] && !Fits(log, q, k)
  }

  lemma FirstOnly(log: seq<Event>, q: Query, k: nat)
    requires q.after < k <= |log| && Coalesce(log, q, q.after, k - 1) == []
    ensures Coalesce(log, q, q.after, k) == if Matches(q, log[k - 1].record) then [log[k - 1]] else []
  {
  }

  lemma OneEvent(e: Event)
    ensures WireSum([e]) == e.record.WireBytes() && DropKey([], e.record) == []
  {
    assert WireSum([e]) == e.record.WireBytes() + WireSum([]);
  }

  /** Every page that is not an error moves the cursor, unless it already stands at the end of the log, and
      says whether more remains; it stops short of the log's end only after 4096 events or before one that
      would break a budget. */
  lemma PageProgress(log: seq<Event>, q: Query)
    requires Valid(q) && Answer(log, q).Ok?
    ensures var page := Answer(log, q).value;
            && q.after <= page.cursor <= |log|
            && (page.hasMore <==> page.cursor < |log|) && (page.hasMore ==> page.cursor > q.after)
            && page.cursor <= q.after + 4096
            && (page.hasMore && page.cursor < q.after + 4096 ==> !Fits(log, q, page.cursor + 1))
  {
    ScanFurthest(log, q, q.after);
    if q.after < |log| {
      FirstFits(log, q);
    }
  }
}
