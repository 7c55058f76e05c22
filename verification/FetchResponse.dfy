/** The fetch response on the wire: the broker's encoder, the client's checks, and why they agree. */
module FetchResponse {
  import opened Basics
  import opened Codes
  import opened Utf8
  import opened EventLog
  import opened Protocol

  const RESPONSE_HEADER := 11

  // ---------------------------------------------------------------- the broker's encoder

  function EncodeEvent(e: Event): (b: seq<byte>)
    ensures |b| == e.record.WireBytes()
  {
    Scalar(e.sequence, 8) + EncodeRecord(e.record)
  }

  function EncodeEvents(events: seq<Event>): (b: seq<byte>)
    ensures |b| == WireSum(events)
  {
    if events == [] then [] else EncodeEvent(events[0]) + EncodeEvents(events[1..])
  }

  function EncodeHeader(page: Page): (b: seq<byte>)
    ensures |b| == RESPONSE_HEADER
  {
    Scalar(page.cursor, 8) + Scalar(|page.events|, 2) + [Flag(page.hasMore)]
  }

  function EncodePage(page: Page): seq<byte> {
    EncodeHeader(page) + EncodeEvents(page.events)
  }

  /** `FetchResult::encode`. */
  method Encode(page: Page) returns (out: seq<byte>)
    ensures out == EncodePage(page)
  {
    hide EncodeEvent;
    out := Scalar(page.cursor, 8);
    out := out + Scalar(|page.events|, 2);
    out := out + [Flag(page.hasMore)];
    assert page.events[0..] == page.events;
    for i := 0 to |page.events|
      invariant out + EncodeEvents(page.events[i..]) == EncodePage(page)
    {
      var event := page.events[i];
      assert page.events[i..][0] == event && page.events[i..][1..] == page.events[i + 1..];
      assert out + EncodeEvents(page.events[i..]) == out + EncodeEvent(event) + EncodeEvents(page.events[i + 1..]);
      out := out + EncodeEvent(event);
    }
  }

  // ---------------------------------------------------------------- what the client reads

  function ParseEvent(data: seq<byte>): Parsed<Event> {
    match ParseNumber(data, 8)
    case Bad(code) => Bad(code)
    case Parsed(sequence, rest) =>
      match ParseString(rest, 255)
      case Bad(code) => Bad(code)
      case Parsed(topic, rest) =>
        match ParseString(rest, 1024)
        case Bad(code) => Bad(code)
        case Parsed(key, rest) =>
          match ParsePayload(rest, MAX_PAYLOAD)
          case Bad(code) => Bad(code)
          case Parsed(payload, rest) => Parsed(Event(sequence, Record(topic, key, payload)), rest)
  }

  function ParseEvents(data: seq<byte>, count: nat): Parsed<seq<Event>> {
    if count == 0 then Parsed([], data)
    else
      match ParseEvent(data)
      case Bad(code) => Bad(code)
      case Parsed(first, rest) =>
        match ParseEvents(rest, count - 1)
        case Bad(code) => Bad(code)
        case Parsed(others, rest) => Parsed([first] + others, rest)
  }

  predicate Printable(e: Event) {
    e.sequence <= MAX_U64 && |e.record.topic| <= 255 && ValidUtf8(e.record.topic)
    && |e.record.key| <= 1024 && ValidUtf8(e.record.key) && |e.record.payload| <= MAX_PAYLOAD
  }

  lemma EventCodec(data: seq<byte>, e: Event, rest: seq<byte>)
    ensures ParseEvent(data) == Parsed(e, rest) <==> Printable(e) && data == EncodeEvent(e) + rest
  {
    hide ParseNumber, ParseString, ParsePayload, ValidUtf8, PutString, PutPayload, Scalar;
    var r := e.record;
    var afterKey := PutPayload(r.payload) + rest;
    var afterTopic := PutString(r.key) + afterKey;
    var afterSequence := PutString(r.topic) + afterTopic;
    assert EncodeEvent(e) + rest == Scalar(e.sequence, 8) + afterSequence;
    Powers();
    NumberCodec(data, 8, e.sequence, afterSequence);
    StringCodec(afterSequence, 255, r.topic, afterTopic);
    StringCodec(afterTopic, 1024, r.key, afterKey);
    PayloadCodec(afterKey, MAX_PAYLOAD, r.payload, rest);
    if ParseEvent(data) == Parsed(e, rest) {
      var tail := ParseNumber(data, 8).rest;
      NumberCodec(data, 8, e.sequence, tail);
      var tail1 := ParseString(tail, 255).rest;
      StringCodec(tail, 255, r.topic, tail1);
      var tail2 := ParseString(tail1, 1024).rest;
      StringCodec(tail1, 1024, r.key, tail2);
      PayloadCodec(tail2, MAX_PAYLOAD, r.payload, rest);
    }
  }

  predicate AllPrintable(events: seq<Event>) {
    forall i :: 0 <= i < |events| ==> Printable(events[i])
  }

  lemma {:induction false} EventsParsed(data: seq<byte>, count: nat)
    requires ParseEvents(data, count).Parsed?
    ensures var parsed := ParseEvents(data, count);
            |parsed.value| == count && AllPrintable(parsed.value) && data == EncodeEvents(parsed.value) + parsed.rest
    decreases count
  {
    hide ParseEvent, EncodeEvent, Printable;
    if count > 0 {
      var first := ParseEvent(data);
      EventCodec(data, first.value, first.rest);
      var others := ParseEvents(first.rest, count - 1);
      EventsParsed(first.rest, count - 1);
      var all := [first.value] + others.value;
      assert all[1..] == others.value;
      assert EncodeEvent(first.value) + (EncodeEvents(others.value) + others.rest) == EncodeEvents(all) + others.rest;
    }
  }

  lemma {:induction false} EventsPrinted(events: seq<Event>, rest: seq<byte>)
    requires AllPrintable(events)
    ensures ParseEvents(EncodeEvents(events) + rest, |events|) == Parsed(events, rest)
  {
    hide ParseEvent, EncodeEvent, Printable;
    if events == [] {
      assert EncodeEvents(events) + rest == rest;
    } else {
      var tail := EncodeEvents(events[1..]) + rest;
      assert EncodeEvents(events) + rest == EncodeEvent(events[0]) + tail;
      EventCodec(EncodeEvents(events) + rest, events[0], tail);
      EventsPrinted(events[1..], rest);
      assert [events[0]] + events[1..] == events;
    }
  }

  lemma EventsStep(done: seq<Event>, data: seq<byte>, count: nat)
    requires count > 0
    ensures match ParseEvent(data)
            case Bad(code) => Prepend(done, ParseEvents(data, count)) == Bad(code)
            case Parsed(first, rest) =>
              Prepend(done, ParseEvents(data, count)) == Prepend(done + [first], ParseEvents(rest, count - 1))
  {
    hide ParseEvent;
    match ParseEvent(data) {
      case Bad(_) =>
      case Parsed(first, rest) =>
        match ParseEvents(rest, count - 1) {
          case Bad(_) =>
          case Parsed(others, _) => assert done + ([first] + others) == (done + [first]) + others;
        }
    }
  }

  // ---------------------------------------------------------------- what the client insists on

  /** The text the client builds to tell keyed events apart. */
  function IdentityText(r: Record): seq<byte> {
    r.topic + [0] + r.key
  }

  predicate GoodHeader(q: Query, cursor: nat, count: nat, hasMore: bool, length: int) {
    cursor >= q.after && count <= q.limit && length <= q.maxBytes && !(hasMore && cursor == q.after)
  }

  predicate GoodEvent(q: Query, cursor: nat, previous: nat, e: Event) {
    previous < e.sequence <= cursor && ValidTopic(e.record.topic) && Matches(q, e.record)
  }

  function Previous(q: Query, events: seq<Event>, i: nat): nat
    requires i <= |events|
  {
    if i == 0 then q.after else events[i - 1].sequence
  }

  ghost predicate InOrder(q: Query, cursor: nat, events: seq<Event>) {
    forall i :: 0 <= i < |events| ==> GoodEvent(q, cursor, Previous(q, events, i), events[i])
  }

  ghost predicate UniqueIdentities(q: Query, events: seq<Event>) {
    forall i, j :: 0 <= i < j < |events| && Keyed(q, events[i].record) && Keyed(q, events[j].record)
      ==> IdentityText(events[i].record) != IdentityText(events[j].record)
  }

  ghost predicate GoodEvents(q: Query, cursor: nat, events: seq<Event>) {
    InOrder(q, cursor, events) && UniqueIdentities(q, events)
  }

  ghost predicate Acceptable(q: Query, page: Page) {
    && page.cursor <= MAX_U64 && |page.events| < 0x1_0000 && AllPrintable(page.events)
    && GoodHeader(q, page.cursor, |page.events|, page.hasMore, WireSum(page.events))
    && GoodEvents(q, page.cursor, page.events)
  }

  ghost predicate Reads(q: Query, response: seq<byte>, page: Page) {
    Acceptable(q, page) && response == EncodePage(page)
  }

  // ---------------------------------------------------------------- the client's parser

  lemma HeaderCodec(response: seq<byte>, page: Page, rest: seq<byte>)
    ensures var cursor := ParseNumber(response, 8);
            response == EncodeHeader(page) + rest && page.cursor <= MAX_U64 && |page.events| < 0x1_0000 <==>
              && cursor.Parsed? && cursor.value == page.cursor
              && ParseNumber(cursor.rest, 2) == Parsed(|page.events|, [Flag(page.hasMore)] + rest)
  {
    hide ParseNumber, Scalar;
    Powers();
    var last: seq<byte> := [Flag(page.hasMore)] + rest;
    var middle := Scalar(|page.events|, 2) + last;
    assert EncodeHeader(page) + rest == Scalar(page.cursor, 8) + middle;
    NumberCodec(response, 8, page.cursor, middle);
    NumberCodec(middle, 2, |page.events|, last);
    var cursor := ParseNumber(response, 8);
    if cursor.Parsed? {
      NumberCodec(response, 8, page.cursor, cursor.rest);
      NumberCodec(cursor.rest, 2, |page.events|, last);
    }
  }

  /** The parser as one expression. */
  ghost function Received(q: Query, response: seq<byte>): Option<Page> {
    match ParseNumber(response, 8)
    case Bad(_) => None
    case Parsed(cursor, rest) =>
      match ParseNumber(rest, 2)
      case Bad(_) => None
      case Parsed(count, rest) =>
        match ParseNumber(rest, 1)
        case Bad(_) => None
        case Parsed(flag, rest) =>
          if flag > 1 || !GoodHeader(q, cursor, count, flag == 1, |response| - RESPONSE_HEADER) then None
          else
            match ParseEvents(rest, count)
            case Bad(_) => None
            case Parsed(events, rest) =>
              if GoodEvents(q, cursor, events) && rest == [] then Some(Page(cursor, events, flag == 1)) else None
  }

  lemma HeaderParts(response: seq<byte>, page: Page, rest: seq<byte>)
    requires response == EncodeHeader(page) + rest && page.cursor <= MAX_U64 && |page.events| < 0x1_0000
    ensures var cursor := ParseNumber(response, 8);
            && cursor.Parsed? && cursor.value == page.cursor
            && var count := ParseNumber(cursor.rest, 2);
               count.Parsed? && count.value == |page.events|
                 && ParseNumber(count.rest, 1) == Parsed(Flag(page.hasMore), rest)
  {
    hide ParseNumber;
    HeaderCodec(response, page, rest);
    Powers();
    NumberCodec([Flag(page.hasMore)] + rest, 1, Flag(page.hasMore), rest);
    assert Scalar(Flag(page.hasMore), 1) == [Flag(page.hasMore)];
  }

  lemma HeaderWhole(response: seq<byte>, page: Page, middle: seq<byte>, last: seq<byte>, rest: seq<byte>)
    requires ParseNumber(response, 8) == Parsed(page.cursor, middle)
    requires ParseNumber(middle, 2) == Parsed(|page.events|, last)
    requires ParseNumber(last, 1) == Parsed(Flag(page.hasMore), rest)
    ensures response == EncodeHeader(page) + rest && page.cursor <= MAX_U64 && |page.events| < 0x1_0000
  {
    hide ParseNumber, Scalar;
    Powers();
    NumberCodec(response, 8, page.cursor, middle);
    NumberCodec(middle, 2, |page.events|, last);
    NumberCodec(last, 1, Flag(page.hasMore), rest);
    assert Scalar(Flag(page.hasMore), 1) == [Flag(page.hasMore)] by {
      OneByte(Flag(page.hasMore));
    }
  }

  lemma OneByte(n: nat)
    requires n < 256
    ensures Scalar(n, 1) == [n]
  {
    Powers();
  }

  lemma ReadsIsReceived(q: Query, response: seq<byte>, page: Page)
    requires Reads(q, response, page)
    ensures Received(q, response) == Some(page)
  {
    hide ParseNumber, ParseEvents, GoodEvents, AllPrintable, EncodeHeader, EncodeEvents;
    HeaderParts(response, page, EncodeEvents(page.events));
    EventsPrinted(page.events, []);
    assert EncodeEvents(page.events) + [] == EncodeEvents(page.events);
  }

  lemma ReceivedReads(q: Query, response: seq<byte>)
    requires Received(q, response).Some?
    ensures Reads(q, response, Received(q, response).value)
  {
    hide ParseNumber, ParseEvents, GoodEvents, AllPrintable, EncodeHeader, EncodeEvents;
    var page := Received(q, response).value;
    var cursor := ParseNumber(response, 8);
    var count := ParseNumber(cursor.rest, 2);
    var flag := ParseNumber(count.rest, 1);
    EventsParsed(flag.rest, count.value);
    HeaderWhole(response, page, cursor.rest, count.rest, flag.rest);
    assert EncodeEvents(page.events) + [] == EncodeEvents(page.events);
  }

  // ---------------------------------------------------------------- the client's loop

  method ReadEvent(reader: Reader) returns (r: Result<Event>)
    requires reader.Valid()
    modifies reader
    ensures reader.Valid()
    ensures match ParseEvent(old(reader.Rest()))
            case Bad(_) => r.Err?
            case Parsed(e, rest) => r == Ok(e) && reader.Rest() == rest
  {
    hide ParseNumber, ParseString, ParsePayload;
    var sequence := reader.Unsigned(8);
    if sequence.Err? {
      return Err(PROTOCOL);
    }
    var topic := reader.String(255);
    if topic.Err? {
      return Err(PROTOCOL);
    }
    var key := reader.String(1024);
    if key.Err? {
      return Err(PROTOCOL);
    }
    var payload := reader.Payload(MAX_PAYLOAD);
    if payload.Err? {
      return Err(PROTOCOL);
    }
    r := Ok(Event(sequence.value, Record(topic.value, key.value, payload.value)));
  }

  /** The identities of the keyed events seen so far: the client's `keys`. */
  ghost predicate KeysOf(q: Query, keys: set<seq<byte>>, events: seq<Event>) {
    && (forall i :: 0 <= i < |events| && Keyed(q, events[i].record) ==> IdentityText(events[i].record) in keys)
    && (forall k :: k in keys ==> exists i ::
          0 <= i < |events| && Keyed(q, events[i].record) && IdentityText(events[i].record) == k)
  }

  lemma OrderSplits(q: Query, cursor: nat, events: seq<Event>, e: Event)
    ensures InOrder(q, cursor, events + [e]) <==>
              InOrder(q, cursor, events) && GoodEvent(q, cursor, Previous(q, events, |events|), e)
  {
    hide GoodEvent;
    var all := events + [e];
    assert forall i :: 0 <= i <= |events| ==> Previous(q, all, i) == Previous(q, events, i);
    assert forall i :: 0 <= i < |events| ==> all[i] == events[i];
    if InOrder(q, cursor, all) {
      assert GoodEvent(q, cursor, Previous(q, all, |events|), all[|events|]);
    }
  }

  lemma UniqueSplits(q: Query, events: seq<Event>, e: Event)
    ensures UniqueIdentities(q, events + [e]) <==>
              && UniqueIdentities(q, events)
              && (Keyed(q, e.record) ==>
                    forall i :: 0 <= i < |events| && Keyed(q, events[i].record) ==>
                      IdentityText(events[i].record) != IdentityText(e.record))
  {
    hide IdentityText, Keyed;
    var all := events + [e];
    assert all[|events|] == e && forall i :: 0 <= i < |events| ==> all[i] == events[i];
  }

  lemma NewIdentity(q: Query, keys: set<seq<byte>>, events: seq<Event>, r: Record)
    requires KeysOf(q, keys, events)
    ensures IdentityText(r) !in keys <==>
              forall i ::
                0 <= i < |events| && Keyed(q, events[i].record) ==> IdentityText(events[i].record) != IdentityText(r)
  {
    hide IdentityText, Keyed;
  }

  lemma GoodExtends(q: Query, cursor: nat, events: seq<Event>, e: Event, keys: set<seq<byte>>)
    requires GoodEvents(q, cursor, events) && KeysOf(q, keys, events)
    ensures GoodEvents(q, cursor, events + [e]) <==>
              GoodEvent(q, cursor, Previous(q, events, |events|), e)
                && (Keyed(q, e.record) ==> IdentityText(e.record) !in keys)
    ensures KeysOf(q, if Keyed(q, e.record) then keys + {IdentityText(e.record)} else keys, events + [e])
  {
    hide InOrder, UniqueIdentities, GoodEvent, IdentityText, Keyed, KeysOf;
    OrderSplits(q, cursor, events, e);
    UniqueSplits(q, events, e);
    NewIdentity(q, keys, events, e.record);
    KeysExtend(q, keys, events, e);
  }

  lemma KeysExtend(q: Query, keys: set<seq<byte>>, events: seq<Event>, e: Event)
    requires KeysOf(q, keys, events)
    ensures KeysOf(q, if Keyed(q, e.record) then keys + {IdentityText(e.record)} else keys, events + [e])
  {
    hide IdentityText, Keyed;
    var all := events + [e];
    assert all[|events|] == e;
    forall k | k in keys
      ensures exists i :: 0 <= i < |all| && Keyed(q, all[i].record) && IdentityText(all[i].record) == k
    {
      var i :| 0 <= i < |events| && Keyed(q, events[i].record) && IdentityText(events[i].record) == k;
      assert all[i] == events[i];
    }
  }

  lemma GoodPrefix(q: Query, cursor: nat, before: seq<Event>, after: seq<Event>)
    requires GoodEvents(q, cursor, before + after)
    ensures GoodEvents(q, cursor, before)
  {
    hide GoodEvent, IdentityText, Keyed;
    var all := before + after;
    assert forall i :: 0 <= i < |before| ==> all[i] == before[i] && Previous(q, all, i) == Previous(q, before, i);
  }

  method ReceiveEvents(reader: Reader, q: Query, cursor: nat, count: nat) returns (r: Option<seq<Event>>)
    requires reader.Valid()
    modifies reader
    ensures reader.Valid()
    ensures match ParseEvents(old(reader.Rest()), count)
            case Bad(_) => r == None
            case Parsed(events, rest) =>
              if GoodEvents(q, cursor, events) then r == Some(events) && reader.Rest() == rest else r == None
  {
    hide ParseEvents, ParseEvent, GoodEvents, KeysOf, GoodEvent, Keyed, IdentityText;
    var events: seq<Event> := [];
    var keys: set<seq<byte>> := {};
    var previous := q.after;
    ghost var whole := ParseEvents(reader.Rest(), count);
    NothingYet(q, cursor, reader.Rest(), count);
    while |events| < count
      invariant reader.Valid() && |events| <= count
      invariant whole == Prepend(events, ParseEvents(reader.Rest(), count - |events|))
      invariant GoodEvents(q, cursor, events) && KeysOf(q, keys, events) && previous == Previous(q, events, |events|)
    {
      EventsStep(events, reader.Rest(), count - |events|);
      var event := ReadEvent(reader);
      if event.Err? {
        return None;
      }
      var e := event.value;
      GoodExtends(q, cursor, events, e, keys);
      RefusedStays(q, cursor, events + [e], ParseEvents(reader.Rest(), count - |events| - 1));
      if !GoodEvent(q, cursor, previous, e) {
        return None;
      }
      if Keyed(q, e.record) {
        if IdentityText(e.record) in keys {
          return None;
        }
        keys := keys + {IdentityText(e.record)};
      }
      previous := e.sequence;
      events := events + [e];
    }
    NothingLeft(events, reader.Rest());
    r := Some(events);
  }

  lemma NothingYet(q: Query, cursor: nat, data: seq<byte>, count: nat)
    ensures ParseEvents(data, count) == Prepend([], ParseEvents(data, count))
    ensures GoodEvents(q, cursor, []) && KeysOf(q, {}, [])
  {
    PrependNothing(ParseEvents(data, count));
  }

  lemma NothingLeft(events: seq<Event>, data: seq<byte>)
    ensures Prepend(events, ParseEvents(data, 0)) == Parsed(events, data)
  {
    assert events + [] == events;
  }

  /** Once the events so far fail a check, the whole list does. */
  lemma RefusedStays(q: Query, cursor: nat, events: seq<Event>, later: Parsed<seq<Event>>)
    ensures !GoodEvents(q, cursor, events) && Prepend(events, later).Parsed? ==>
              !GoodEvents(q, cursor, Prepend(events, later).value)
  {
    hide GoodEvents;
    if later.Parsed? && GoodEvents(q, cursor, events + later.value) {
      GoodPrefix(q, cursor, events, later.value);
    }
  }

  /** The response parser of `Client.fetch`: it returns a page exactly when the response is the encoding
      of that page and the page passes every check. */
  method Receive(q: Query, response: seq<byte>) returns (r: Option<Page>)
    ensures forall page :: r == Some(page) <==> Reads(q, response, page)
  {
    r := ReceivePage(q, response);
    forall page ensures r == Some(page) <==> Reads(q, response, page) {
      hide Received, Reads;
      if Reads(q, response, page) {
        ReadsIsReceived(q, response, page);
      }
      if r.Some? {
        ReceivedReads(q, response);
      }
    }
  }

  method ReceivePage(q: Query, response: seq<byte>) returns (r: Option<Page>)
    ensures r == Received(q, response)
  {
    hide ParseNumber, ParseEvents, GoodEvents;
    var reader := new Reader(response);
    var cursor := reader.Unsigned(8);
    if cursor.Err? {
      return None;
    }
    var count := reader.Unsigned(2);
    if count.Err? {
      return None;
    }
    var flag := reader.Unsigned(1);
    if flag.Err? || flag.value > 1 {
      return None;
    }
    var hasMore := flag.value == 1;
    if !GoodHeader(q, cursor.value, count.value, hasMore, |response| - RESPONSE_HEADER) {
      return None;
    }
    var events := ReceiveEvents(reader, q, cursor.value, count.value);
    if events.None? {
      return None;
    }
    var ended := reader.Finish();
    r := if ended then Some(Page(cursor.value, events.value, hasMore)) else None;
  }

  // ---------------------------------------------------------------- the broker's pages pass

  lemma FirstZero(r: Record)
    requires ValidTopic(r.topic)
    ensures var s := IdentityText(r);
            |s| > |r.topic| && s[|r.topic|] == 0 && forall i :: 0 <= i < |r.topic| ==> s[i] != 0
  {
    assert forall i :: 0 <= i < |r.topic| ==> IdentityText(r)[i] == r.topic[i];
  }

  /** Valid topics hold no zero byte, so the text identifies the pair. */
  lemma IdentityInjective(a: Record, b: Record)
    requires ValidTopic(a.topic) && ValidTopic(b.topic)
    ensures IdentityText(a) == IdentityText(b) <==> SameKey(a, b)
  {
    hide ValidTopic;
    var s, t := IdentityText(a), IdentityText(b);
    FirstZero(a);
    FirstZero(b);
    if s == t {
      assert |a.topic| == |b.topic|;
      assert s[..|a.topic|] == a.topic && t[..|b.topic|] == b.topic;
      assert s[|a.topic| + 1..] == a.key && t[|b.topic| + 1..] == b.key;
    }
  }

  lemma ValidIsPrintable(e: Event)
    requires ValidRecord(e.record) && e.sequence <= MAX_U64
    ensures Printable(e)
  {
    AsciiIsUtf8(e.record.topic);
  }

  /** A log as the broker holds it: numbered records that came in through the decoder. */
  ghost predicate Held(log: seq<Event>) {
    Numbered(log) && |log| <= MAX_U64 && forall i :: 0 <= i < |log| ==> ValidRecord(log[i].record)
  }

  lemma SelectedPasses(log: seq<Event>, q: Query, cursor: nat, i: nat)
    requires Held(log) && q.after <= cursor <= |log|
    requires i < |Coalesce(log, q, q.after, cursor)|
    ensures var events := Coalesce(log, q, q.after, cursor);
            Printable(events[i]) && GoodEvent(q, cursor, Previous(q, events, i), events[i])
  {
    hide ValidRecord, Coalesce, Printable, Superseded;
    CoalesceExact(log, q, q.after, cursor);
    var events := Coalesce(log, q, q.after, cursor);
    var e := events[i];
    assert e in events;
    var at := e.sequence - 1;
    assert e == log[at] && Survives(log, q, at, q.after, cursor);
    ValidIsPrintable(e);
    assert ValidTopic(e.record.topic) by {
      TopicOf(e.record);
    }
  }

  lemma TopicOf(r: Record)
    requires ValidRecord(r)
    ensures ValidTopic(r.topic)
  {
  }

  lemma IdentitiesDiffer(log: seq<Event>, q: Query, cursor: nat, i: nat, j: nat)
    requires Held(log) && q.after <= cursor <= |log|
    requires i < j < |Coalesce(log, q, q.after, cursor)|
    ensures var events := Coalesce(log, q, q.after, cursor);
            Keyed(q, events[i].record) && Keyed(q, events[j].record)
            ==> IdentityText(events[i].record) != IdentityText(events[j].record)
  {
    hide ValidRecord, Coalesce, IdentityText, ValidTopic, Survives, Exactly, SameKey, Keyed, Matches;
    CoalesceExact(log, q, q.after, cursor);
    var events := Coalesce(log, q, q.after, cursor);
    var a, b := events[i], events[j];
    assert a in events && b in events && a.sequence < b.sequence;
    ExactlyAt(events, log, q, q.after, cursor, a);
    ExactlyAt(events, log, q, q.after, cursor, b);
    OneOfAKey(log, q, q.after, cursor, a.sequence - 1, b.sequence - 1);
    TopicOf(a.record);
    TopicOf(b.record);
    if Keyed(q, a.record) && Keyed(q, b.record) {
      TextsDiffer(a.record, b.record);
    }
  }

  lemma ExactlyAt(events: seq<Event>, log: seq<Event>, q: Query, lo: nat, hi: nat, e: Event)
    requires hi <= |log| && Exactly(events, log, q, lo, hi) && e in events
    ensures 1 <= e.sequence <= |log| && e == log[e.sequence - 1] && Survives(log, q, e.sequence - 1, lo, hi)
  {
    hide Survives;
  }

  lemma OneOfAKey(log: seq<Event>, q: Query, lo: nat, hi: nat, i: nat, j: nat)
    requires hi <= |log| && i < j && Survives(log, q, i, lo, hi) && Survives(log, q, j, lo, hi)
    ensures Keyed(q, log[i].record) && Keyed(q, log[j].record) ==> !SameKey(log[j].record, log[i].record)
  {
  }

  lemma TextsDiffer(a: Record, b: Record)
    requires ValidTopic(a.topic) && ValidTopic(b.topic) && !SameKey(b, a)
    ensures IdentityText(a) != IdentityText(b)
  {
    hide ValidTopic, IdentityText;
    IdentityInjective(a, b);
  }

  /** Every page a fetch returns passes every check of the client that asked for it. */
  lemma PagePasses(log: seq<Event>, q: Query)
    requires Held(log) && EventLog.Valid(q) && q.limit <= MAX_BATCH && Answer(log, q).Ok?
    ensures Acceptable(q, Answer(log, q).value)
  {
    hide Coalesce, Scan, FirstTooLarge, GoodEvent, Printable, IdentityText, Keyed, ValidRecord;
    PageProgress(log, q);
    var page := Answer(log, q).value;
    PageWithin(log, q, page.cursor);
    forall i | 0 <= i < |page.events|
      ensures Printable(page.events[i]) && GoodEvent(q, page.cursor, Previous(q, page.events, i), page.events[i])
    {
      SelectedPasses(log, q, page.cursor, i);
    }
    forall i, j | 0 <= i < j < |page.events| && Keyed(q, page.events[i].record) && Keyed(q, page.events[j].record)
      ensures IdentityText(page.events[i].record) != IdentityText(page.events[j].record)
    {
      IdentitiesDiffer(log, q, page.cursor, i, j);
    }
  }

  lemma PageWithin(log: seq<Event>, q: Query, cursor: nat)
    requires q.after <= |log| && EventLog.Valid(q) && cursor == Scan(log, q, q.after)
    ensures var events := Coalesce(log, q, q.after, cursor);
            |events| <= q.limit && WireSum(events) <= q.maxBytes
  {
    ScanFurthest(log, q, q.after);
    if cursor > q.after {
      assert Fits(log, q, cursor);
    }
  }

  /** The client reads every page of the broker back as exactly the broker's cursor and events. */
  lemma PageRoundTrip(log: seq<Event>, q: Query, page: Page)
    requires Held(log) && EventLog.Valid(q) && q.limit <= MAX_BATCH && Answer(log, q) == Ok(page)
    ensures Received(q, EncodePage(page)) == Some(page)
  {
    hide Acceptable, Answer, EncodePage, Received;
    PagePasses(log, q);
    ReadsIsReceived(q, EncodePage(page), page);
  }
}
