/** Reading a log page by page, with any budgets and while it grows, loses nothing that reading it whole
    would give. */
module Paging {
  import opened Basics
  import opened EventLog

  type Identity = (seq<byte>, seq<byte>)

  /** Every matching event of the window. */
  function Filtered(log: seq<Event>, q: Query, lo: nat, hi: nat): seq<Event>
    requires lo <= hi <= |log|
    decreases hi - lo
  {
    if lo == hi then []
    else Filtered(log, q, lo, hi - 1) + if Matches(q, log[hi - 1].record) then [log[hi - 1]] else []
  }

  lemma {:induction false} FilteredSplits(log: seq<Event>, q: Query, lo: nat, mid: nat, hi: nat)
    requires lo <= mid <= hi <= |log|
    ensures Filtered(log, q, lo, hi) == Filtered(log, q, lo, mid) + Filtered(log, q, mid, hi)
    decreases hi - mid
  {
    if mid < hi {
      FilteredSplits(log, q, lo, mid, hi - 1);
    }
  }

  lemma {:induction false} AllIsFiltered(log: seq<Event>, q: Query, lo: nat, hi: nat)
    requires lo <= hi <= |log| && !q.latest
    ensures Coalesce(log, q, lo, hi) == Filtered(log, q, lo, hi)
    decreases hi - lo
  {
    if lo < hi {
      AllIsFiltered(log, q, lo, hi - 1);
    }
  }

  // ---------------------------------------------------------------- what a consumer keeps of the events

  function Put(table: map<Identity, Event>, e: Event): map<Identity, Event> {
    if e.record.key == [] then table else table[(e.record.topic, e.record.key) := e]
  }

  /** The last event of each non-empty key, on top of what the table held. */
  function Fold(table: map<Identity, Event>, events: seq<Event>): map<Identity, Event>
    decreases |events|
  {
    if events == [] then table else Fold(Put(table, events[0]), events[1..])
  }

  function Unkeyed(events: seq<Event>): seq<Event> {
    if events == [] then []
    else (if events[0].record.key == [] then [events[0]] else []) + Unkeyed(events[1..])
  }

  lemma {:induction false} FoldConcat(table: map<Identity, Event>, a: seq<Event>, b: seq<Event>)
    ensures Fold(table, a + b) == Fold(Fold(table, a), b)
    ensures Unkeyed(a + b) == Unkeyed(a) + Unkeyed(b)
    decreases |a|
  {
    if a == [] {
      assert a + b == b;
    } else {
      assert (a + b)[1..] == a[1..] + b;
      FoldConcat(Put(table, a[0]), a[1..], b);
    }
  }

  ghost predicate AgreeBut(a: map<Identity, Event>, b: map<Identity, Event>, k: Identity) {
    a - {k} == b - {k}
  }

  /** Dropping a key shows only in that key's entry. */
  lemma {:induction false} FoldDrop(a: map<Identity, Event>, b: map<Identity, Event>, events: seq<Event>, r: Record)
    requires r.key != [] && AgreeBut(a, b, (r.topic, r.key))
    ensures AgreeBut(Fold(a, DropKey(events, r)), Fold(b, events), (r.topic, r.key))
    ensures Unkeyed(DropKey(events, r)) == Unkeyed(events)
    decreases |events|
  {
    if events != [] {
      var k := (r.topic, r.key);
      if SameKey(events[0].record, r) {
        assert AgreeBut(a, Put(b, events[0]), k);
        FoldDrop(a, Put(b, events[0]), events[1..], r);
      } else {
        PutAgrees(a, b, events[0], k);
        FoldDrop(Put(a, events[0]), Put(b, events[0]), events[1..], r);
        assert ([events[0]] + DropKey(events[1..], r))[1..] == DropKey(events[1..], r);
      }
    }
  }

  lemma PutAgrees(a: map<Identity, Event>, b: map<Identity, Event>, e: Event, k: Identity)
    requires AgreeBut(a, b, k)
    ensures AgreeBut(Put(a, e), Put(b, e), k)
    ensures (e.record.topic, e.record.key) == k && e.record.key != [] ==> Put(a, e) == Put(b, e)
  {
    var i := (e.record.topic, e.record.key);
    assert forall x :: x in a && x != k ==> x in b - {k} && (b - {k})[x] == a[x] by {
      assert forall x :: x in a && x != k ==> x in a - {k};
    }
    assert forall x :: x in b && x != k ==> x in a - {k} && (a - {k})[x] == b[x] by {
      assert forall x :: x in b && x != k ==> x in b - {k};
    }
  }

  lemma FoldLast(table: map<Identity, Event>, events: seq<Event>, e: Event)
    ensures Fold(table, events + [e]) == Put(Fold(table, events), e)
    ensures Unkeyed(events + [e]) == Unkeyed(events) + if e.record.key == [] then [e] else []
  {
    FoldConcat(table, events, [e]);
    assert Fold(Fold(table, events), [e]) == Fold(Put(Fold(table, events), e), []);
    assert Unkeyed([e]) == (if e.record.key == [] then [e] else []) + Unkeyed([]);
  }

  /** A coalesced window leaves a consumer with what the whole window would have left it. */
  lemma {:induction false} CoalesceKeepsMeaning(table: map<Identity, Event>, log: seq<Event>, q: Query, lo: nat,
                                                hi: nat)
    requires lo <= hi <= |log|
    ensures Fold(table, Coalesce(log, q, lo, hi)) == Fold(table, Filtered(log, q, lo, hi))
    ensures Unkeyed(Coalesce(log, q, lo, hi)) == Unkeyed(Filtered(log, q, lo, hi))
    decreases hi - lo
  {
    if lo < hi {
      CoalesceKeepsMeaning(table, log, q, lo, hi - 1);
      var before, all, e := Coalesce(log, q, lo, hi - 1), Filtered(log, q, lo, hi - 1), log[hi - 1];
      if Matches(q, e.record) {
        FoldLast(table, all, e);
        if Keyed(q, e.record) {
          FoldLast(table, DropKey(before, e.record), e);
          FoldDrop(table, table, before, e.record);
          PutAgrees(Fold(table, DropKey(before, e.record)), Fold(table, before), e, (e.record.topic, e.record.key));
        } else {
          FoldLast(table, before, e);
        }
      } else {
        assert all + [] == all;
      }
    }
  }

  // ---------------------------------------------------------------- pages of a log that grows

  /** The same query with the budgets of one page. */
  function Budgeted(q: Query, budget: (nat, nat)): Query {
    q.(limit := budget.0, maxBytes := budget.1)
  }

  /** `logs` is the log as each page finds it and `log` what it has become: appends come between the pages. */
  ghost predicate Grown(logs: seq<seq<Event>>, log: seq<Event>) {
    forall k :: 0 <= k < |logs| ==> logs[k] <= log
  }

  /** Paging from `q.after`, one page per budget, each on the log of its time, never meets an error. */
  ghost predicate Pageable(logs: seq<seq<Event>>, q: Query, budgets: seq<(nat, nat)>)
    requires |logs| == |budgets|
    decreases |budgets|
  {
    budgets == [] ||
    (Valid(Budgeted(q, budgets[0])) && Answer(logs[0], Budgeted(q, budgets[0])).Ok?
     && Pageable(logs[1..], q.(after := Answer(logs[0], Budgeted(q, budgets[0])).value.cursor), budgets[1..]))
  }

  /** The events of all pages, and where the last one ends. */
  ghost function Pages(logs: seq<seq<Event>>, q: Query, budgets: seq<(nat, nat)>): (seq<Event>, nat)
    requires |logs| == |budgets| && Pageable(logs, q, budgets)
    decreases |budgets|
  {
    if budgets == [] then ([], q.after)
    else
      var page := Answer(logs[0], Budgeted(q, budgets[0])).value;
      var (rest, end) := Pages(logs[1..], q.(after := page.cursor), budgets[1..]);
      (page.events + rest, end)
  }

  lemma {:induction false} SameFilter(log: seq<Event>, q: Query, p: Query, lo: nat, hi: nat)
    requires lo <= hi <= |log| && q.topic == p.topic && q.latest == p.latest
    ensures Filtered(log, q, lo, hi) == Filtered(log, p, lo, hi)
    ensures Coalesce(log, q, lo, hi) == Coalesce(log, p, lo, hi)
    decreases hi - lo
  {
    if lo < hi {
      SameFilter(log, q, p, lo, hi - 1);
    }
  }

  /** What is appended later shows in no earlier window. */
  lemma {:induction false} SameWindow(before: seq<Event>, log: seq<Event>, q: Query, lo: nat, hi: nat)
    requires before <= log && lo <= hi <= |before|
    ensures Coalesce(before, q, lo, hi) == Coalesce(log, q, lo, hi)
    decreases hi - lo
  {
    if lo < hi {
      SameWindow(before, log, q, lo, hi - 1);
    }
  }

  /** One page in terms of the query that the whole traversal is about and of the log as it has become. */
  lemma PageOf(before: seq<Event>, log: seq<Event>, q: Query, budget: (nat, nat)) returns (page: Page)
    requires before <= log && Valid(Budgeted(q, budget)) && Answer(before, Budgeted(q, budget)).Ok?
    ensures page == Answer(before, Budgeted(q, budget)).value
    ensures q.after <= page.cursor <= |before| && page.events == Coalesce(log, q, q.after, page.cursor)
    ensures q.after < |before| ==> page.cursor > q.after
  {
    PageProgress(before, Budgeted(q, budget));
    page := Answer(before, Budgeted(q, budget)).value;
    SameFilter(before, q, Budgeted(q, budget), q.after, page.cursor);
    SameWindow(before, log, q, q.after, page.cursor);
  }

  lemma {:induction false} PagesBound(logs: seq<seq<Event>>, log: seq<Event>, q: Query, budgets: seq<(nat, nat)>)
    requires |logs| == |budgets| && Grown(logs, log) && Pageable(logs, q, budgets) && q.after <= |log|
    ensures q.after <= Pages(logs, q, budgets).1 <= |log|
    decreases |budgets|
  {
    if budgets != [] {
      var page := PageOf(logs[0], log, q, budgets[0]);
      PagesBound(logs[1..], log, q.(after := page.cursor), budgets[1..]);
    }
  }

  /** `all`: the pages concatenate to exactly the filtered log, whatever was appended between them. */
  lemma {:induction false} AllPagesConcatenate(logs: seq<seq<Event>>, log: seq<Event>, q: Query,
                                               budgets: seq<(nat, nat)>)
    requires |logs| == |budgets| && Grown(logs, log) && Pageable(logs, q, budgets) && q.after <= |log| && !q.latest
    ensures q.after <= Pages(logs, q, budgets).1 <= |log|
    ensures Pages(logs, q, budgets).0 == Filtered(log, q, q.after, Pages(logs, q, budgets).1)
    decreases |budgets|
  {
    PagesBound(logs, log, q, budgets);
    if budgets != [] {
      var page := PageOf(logs[0], log, q, budgets[0]);
      var next := q.(after := page.cursor);
      PagesBound(logs[1..], log, next, budgets[1..]);
      AllPagesConcatenate(logs[1..], log, next, budgets[1..]);
      AllIsFiltered(log, q, q.after, page.cursor);
      var end := Pages(logs, q, budgets).1;
      SameFilter(log, q, next, page.cursor, end);
      FilteredSplits(log, q, q.after, page.cursor, end);
    }
  }

  /** `latest` (and `all`): whatever the page sizes and whatever was appended between the pages, a consumer
      that keeps the last event per key ends up with the table of the whole filtered log up to its cursor,
      and has seen every unkeyed event exactly once. */
  lemma {:induction false} PagesKeepMeaning(table: map<Identity, Event>, logs: seq<seq<Event>>, log: seq<Event>,
                                            q: Query, budgets: seq<(nat, nat)>)
    requires |logs| == |budgets| && Grown(logs, log) && Pageable(logs, q, budgets) && q.after <= |log|
    ensures q.after <= Pages(logs, q, budgets).1 <= |log|
    ensures Fold(table, Pages(logs, q, budgets).0) == Fold(table, Filtered(log, q, q.after, Pages(logs, q, budgets).1))
    ensures Unkeyed(Pages(logs, q, budgets).0) == Unkeyed(Filtered(log, q, q.after, Pages(logs, q, budgets).1))
    decreases |budgets|
  {
    PagesBound(logs, log, q, budgets);
    if budgets != [] {
      var page := PageOf(logs[0], log, q, budgets[0]);
      var next := q.(after := page.cursor);
      var rest, end := Pages(logs[1..], next, budgets[1..]).0, Pages(logs, q, budgets).1;
      PagesBound(logs[1..], log, next, budgets[1..]);
      CoalesceKeepsMeaning(table, log, q, q.after, page.cursor);
      PagesKeepMeaning(Fold(table, page.events), logs[1..], log, next, budgets[1..]);
      FoldConcat(table, page.events, rest);
      SameFilter(log, q, next, page.cursor, end);
      FilteredSplits(log, q, q.after, page.cursor, end);
      FoldConcat(table, Filtered(log, q, q.after, page.cursor), Filtered(log, q, page.cursor, end));
    }
  }

  lemma {:induction false} PagesReach(logs: seq<seq<Event>>, log: seq<Event>, q: Query, budgets: seq<(nat, nat)>,
                                      settled: nat)
    requires |logs| == |budgets| && Grown(logs, log) && Pageable(logs, q, budgets) && q.after <= |log|
    requires forall k :: settled <= k < |logs| ==> logs[k] == log
    requires settled + |log| <= q.after + |budgets|
    ensures Pages(logs, q, budgets).1 == |log|
    decreases |budgets|
  {
    if budgets != [] {
      var page := PageOf(logs[0], log, q, budgets[0]);
      var next := q.(after := page.cursor);
      PagesBound(logs[1..], log, next, budgets[1..]);
      if page.cursor < |log| {
        PagesReach(logs[1..], log, next, budgets[1..], if settled == 0 then 0 else settled - 1);
      }
    }
  }

  /** Paging catches up: once nothing more is appended, after at most as many pages as there are events
      left, the whole log has been read. */
  lemma PagingReadsTheWholeLog(table: map<Identity, Event>, logs: seq<seq<Event>>, log: seq<Event>, q: Query,
                               budgets: seq<(nat, nat)>, settled: nat)
    requires |logs| == |budgets| && Grown(logs, log) && Pageable(logs, q, budgets) && q.after <= |log|
    requires forall k :: settled <= k < |logs| ==> logs[k] == log
    requires settled + |log| <= q.after + |budgets|
    ensures Fold(table, Pages(logs, q, budgets).0) == Fold(table, Filtered(log, q, q.after, |log|))
    ensures Unkeyed(Pages(logs, q, budgets).0) == Unkeyed(Filtered(log, q, q.after, |log|))
    ensures !q.latest ==> Pages(logs, q, budgets).0 == Filtered(log, q, q.after, |log|)
  {
    PagesReach(logs, log, q, budgets, settled);
    PagesKeepMeaning(table, logs, log, q, budgets);
    if !q.latest {
      AllPagesConcatenate(logs, log, q, budgets);
    }
  }
}
