/** Responses from the broker's encoder to the client's reader: every one is a legal frame, a fetch page
    and a publish receipt arrive as they were sent, and a receipt names the events it is for. */
module Responses {
  import opened Basics
  import opened Codes
  import opened Utf8
  import opened EventLog
  import opened Protocol
  import opened Frames
  import Wal
  import opened Store
  import Recovery
  import opened FetchResponse
  import ClientRequests
  import Scheduler

  const ERROR := 255

  const TOO_LONG: seq<byte> :=
    [114, 101, 115, 112, 111, 110, 115, 101, 32, 101, 120, 99, 101, 101, 100, 115, 32, 109, 97, 120, 105, 109, 117, 109,
     32, 102, 114, 97, 109, 101, 32, 115, 105, 122, 101]

  function ErrorBody(code: nat, message: seq<byte>): seq<byte> {
    Scalar(code, 2) + PutString(message)
  }

  /** What the broker puts in a response frame. */
  function Sent(opcode: byte, id: nat, body: seq<byte>): Message {
    if |body| > MAX_FRAME - 5 then Message(ERROR, id, ErrorBody(LIMIT, TOO_LONG)) else Message(opcode, id, body)
  }

  /** `response_frame`. */
  function ResponseFrame(opcode: byte, id: nat, body: seq<byte>): seq<byte> {
    Envelope(Sent(opcode, id, body))
  }

  lemma ErrorBodySize(code: nat, message: seq<byte>)
    ensures |ErrorBody(code, message)| == 4 + |message|
  {
  }

  /** Whatever the body, the client's decoder finds one frame with the request's id: the response, or the
      LIMIT error that stands in for one too long to send. */
  lemma ResponseReadable(opcode: byte, id: nat, body: seq<byte>)
    requires id < 0x1_0000_0000
    ensures var s := Frames.Read(ResponseFrame(opcode, id, body));
            && !s.broken && s.rest == [] && |s.frames| == 1 && |s.frames[0]| >= 5
            && Open(s.frames[0]) == Sent(opcode, id, body)
    ensures |body| > MAX_FRAME - 5 ==> ClientRequests.ErrorCode(Sent(opcode, id, body).body) == Some(LIMIT)
  {
    hide Envelope, Frames.Read, ClientRequests.ErrorCode, ErrorBody;
    var m := Sent(opcode, id, body);
    ErrorBodySize(LIMIT, TOO_LONG);
    EnvelopesRoundTrip([m]);
    OneEnvelope(m);
    if |body| > MAX_FRAME - 5 {
      AsciiIsUtf8(TOO_LONG);
      ClientRequests.ErrorBodyReads(LIMIT, TOO_LONG);
      assert ErrorBody(LIMIT, TOO_LONG) == Scalar(LIMIT, 2) + PutString(TOO_LONG) by {
        ErrorBodyIs(LIMIT, TOO_LONG);
      }
    }
  }

  lemma ErrorBodyIs(code: nat, message: seq<byte>)
    ensures ErrorBody(code, message) == Scalar(code, 2) + PutString(message)
  {
  }

  lemma OneEnvelope(m: Message)
    ensures Envelopes([m]) == Envelope(m)
  {
    hide Envelope;
    assert [m][1..] == [];
    assert Envelopes([]) == [];
    assert Envelope(m) + [] == Envelope(m);
  }

  /** A fetch end to end: the page always fits a frame, and the client gets back exactly that page. */
  lemma FetchDelivered(log: seq<Event>, q: Query, page: Page, id: nat)
    requires FetchResponse.Held(log) && EventLog.Valid(q) && q.limit <= MAX_BATCH && q.maxBytes <= MAX_FETCH_BYTES
    requires Answer(log, q) == Ok(page) && id < 0x1_0000_0000
    ensures var s := Frames.Read(ResponseFrame(3 + 128, id, EncodePage(page)));
            && !s.broken && |s.frames| == 1 && |s.frames[0]| >= 5
            && var m := Open(s.frames[0]);
               m.opcode == 3 + 128 && m.id == id && Received(q, m.body) == Some(page)
  {
    hide Frames.Read, Open, ResponseFrame, Received, EncodePage, Answer, FetchResponse.Held;
    PageSize(log, q, page);
    ResponseReadable(3 + 128, id, EncodePage(page));
    PageRoundTrip(log, q, page);
  }

  lemma PageSize(log: seq<Event>, q: Query, page: Page)
    requires FetchResponse.Held(log) && EventLog.Valid(q) && q.limit <= MAX_BATCH && Answer(log, q) == Ok(page)
    ensures |EncodePage(page)| <= RESPONSE_HEADER + q.maxBytes
  {
    hide Answer, FetchResponse.Held, GoodEvents, AllPrintable, EncodeEvents, EncodeHeader;
    PagePasses(log, q);
  }

  // ---------------------------------------------------------------- receipts

  function EncodeReceipt(r: Receipt): seq<byte> {
    Scalar(r.first, 8) + (Scalar(r.last, 8) + (Scalar(r.count, 2) + Scalar(Flag(r.durable), 1)))
  }

  /** The client's reading of a receipt for `expected` records. */
  function ReadReceipt(body: seq<byte>, expected: nat): Option<Receipt> {
    match ParseNumber(body, 8)
    case Bad(_) => None
    case Parsed(first, rest) =>
      match ParseNumber(rest, 8)
      case Bad(_) => None
      case Parsed(last, rest) =>
        match ParseNumber(rest, 2)
        case Bad(_) => None
        case Parsed(count, rest) =>
          match ParseNumber(rest, 1)
          case Bad(_) => None
          case Parsed(flag, rest) =>
            if flag > 1 || rest != [] || count != expected || first == 0 || last != first + count - 1 then None
            else Some(Receipt(first, last, count, flag == 1))
  }

  lemma ReceiptReads(r: Receipt)
    requires 1 <= r.first && r.last <= MAX_U64 && r.last == r.first + r.count - 1 && r.first <= MAX_U64
             && r.count < 0x1_0000
    ensures ReadReceipt(EncodeReceipt(r), r.count) == Some(r)
  {
    hide ParseNumber, Scalar;
    Powers();
    var flag := Flag(r.durable);
    var d3 := Scalar(flag, 1);
    var d2 := Scalar(r.count, 2) + d3;
    var d1 := Scalar(r.last, 8) + d2;
    NumberCodec(Scalar(r.first, 8) + d1, 8, r.first, d1);
    NumberCodec(d1, 8, r.last, d2);
    NumberCodec(d2, 2, r.count, d3);
    assert d3 + [] == d3;
    NumberCodec(d3, 1, flag, []);
  }

  /** What a receipt must satisfy for the client to take it. */
  ghost predicate Sound(r: Receipt, expected: nat) {
    1 <= r.first <= MAX_U64 && r.last <= MAX_U64 && r.count == expected < 0x1_0000 && r.last == r.first + r.count - 1
  }

  /** The client takes a receipt exactly if it is the encoding of a sound one for as many records as it sent. */
  lemma ReceiptExact(body: seq<byte>, expected: nat, r: Receipt)
    ensures ReadReceipt(body, expected) == Some(r) <==> Sound(r, expected) && body == EncodeReceipt(r)
  {
    hide ParseNumber, Scalar;
    Powers();
    if Sound(r, expected) && body == EncodeReceipt(r) {
      ReceiptReads(r);
    }
    if ReadReceipt(body, expected) == Some(r) {
      var p1 := ParseNumber(body, 8);
      NumberCodec(body, 8, r.first, p1.rest);
      var p2 := ParseNumber(p1.rest, 8);
      NumberCodec(p1.rest, 8, r.last, p2.rest);
      var p3 := ParseNumber(p2.rest, 2);
      NumberCodec(p2.rest, 2, r.count, p3.rest);
      NumberCodec(p3.rest, 1, Flag(r.durable), []);
      assert p3.rest == Scalar(Flag(r.durable), 1) + [] == Scalar(Flag(r.durable), 1);
    }
  }

  /** Every successful publish gives a receipt the client accepts, and its numbers are exactly those of
      the published records in the log that follows. */
  lemma ReceiptNamesItsEvents(crc: Wal.Checksum, limits: Limits, s: State, records: seq<Record>, fault: Fault)
    requires InSequence(s.batches) && ValidBatch(records)
    ensures var (t, reply) := AfterPublish(crc, limits, s, records, fault);
            reply.Ok? ==>
              var r := reply.value;
              && ReadReceipt(EncodeReceipt(r), |records|) == Some(r)
              && r.durable == s.wal.Some?
              && Numbered(Events(t.batches)) && |Events(t.batches)| == r.last && r.count == |records|
              && Events(t.batches) == Events(s.batches) + Events(t.batches)[r.first - 1..]
              && forall i :: 0 <= i < |records| ==> Events(t.batches)[r.first - 1 + i] == Event(r.first + i, records[i])
  {
    hide ReadReceipt, EncodeReceipt, AfterPublish, Wal.Count, Events, ValidRecords;
    var (t, reply) := AfterPublish(crc, limits, s, records, fault);
    if reply.Ok? {
      var b := Wal.Batch(Wal.Count(s.batches) + 1, records);
      PublishGrows(crc, limits, s, records, fault);
      EventsNumbered(s.batches);
      InSequenceGrows(s.batches, b);
      EventsNumbered(s.batches + [b]);
      EventsGrow(s.batches, b);
      ReceiptReads(reply.value);
      SplitAt(Events(s.batches), Numbering(b.first, records));
    }
  }

  /** Over every run: from its publish on, across any failures, crashes and restarts, the log holds the
      receipt's events under the receipt's numbers, behind the same events as then; and a fetch from any
      of those numbers, or an earlier one, is never told that its cursor is beyond the log. */
  lemma ReceiptLasts(crc: Wal.Checksum, limits: Limits, states: seq<State>, steps: seq<Recovery.Step>, i: nat, j: nat)
    requires Recovery.Configured(limits) && Recovery.IsRun(crc, limits, states, steps) && i < j < |states|
    requires Recovery.Acknowledges(crc, limits, states[i], steps[i])
    ensures var r := AfterPublish(crc, limits, states[i], steps[i].records, steps[i].fault).1.value;
            var records, log := steps[i].records, Events(states[j].batches);
            && Numbered(log) && 1 <= r.first && r.last == r.first + |records| - 1 <= |log|
            && Events(states[i + 1].batches) <= log
            && (forall k :: 0 <= k < |records| ==> log[r.first - 1 + k] == Event(r.first + k, records[k]))
            && (forall q: Query :: q.after <= r.last ==> Answer(log, q) != Err(CURSOR))
  {
    hide AfterPublish, Recovery.Inv, Opened, Events, Recovery.Next, ReadReceipt, EncodeReceipt, ValidBatch,
      Recovery.Durable, Wal.Count, FirstTooLarge, InSequence, Scan, Coalesce;
    var s, step := states[i], steps[i];
    NextOfPublish(crc, limits, s, step, states[i + 1]) by {
      assert Recovery.Next(crc, limits, states[i], steps[i], states[i + 1]);
    }
    Recovery.AcknowledgedSurvives(crc, limits, states, steps, i, j);
    Recovery.RecoveredInSequence(crc, limits, states, steps, i);
    Recovery.RecoveredInSequence(crc, limits, states, steps, j);
    ReceiptNamesItsEvents(crc, limits, s, step.records, step.fault);
    PublishGrows(crc, limits, s, step.records, step.fault);
    EventsExtend(states[i + 1].batches, states[j].batches);
  }

  lemma NextOfPublish(crc: Wal.Checksum, limits: Limits, s: State, step: Recovery.Step, t: State)
    requires Recovery.Next(crc, limits, s, step, t) && step.Publish?
    ensures ValidBatch(step.records) && t == AfterPublish(crc, limits, s, step.records, step.fault).0
  {
    hide AfterPublish, ValidBatch;
  }

  lemma PublishGrows(crc: Wal.Checksum, limits: Limits, s: State, records: seq<Record>, fault: Fault)
    ensures var (t, reply) := AfterPublish(crc, limits, s, records, fault);
            var first, last := Wal.Count(s.batches) + 1, Wal.Count(s.batches) + |records|;
            reply.Ok? ==>
              && t.batches == s.batches + [Wal.Batch(first, records)] && last <= MAX_U64
              && reply.value == Receipt(first, last, |records|, s.wal.Some?)
  {
    hide Wal.Frame, Wal.Frames, Wal.Count, Wal.Retained, Wal.RetainedOf, RecordBytes;
  }

  lemma SplitAt(a: seq<Event>, b: seq<Event>)
    ensures a + b == a + (a + b)[|a|..]
    ensures forall i :: 0 <= i < |b| ==> (a + b)[|a| + i] == b[i]
  {
  }

  // ---------------------------------------------------------------- jobs

  /** The reply to a TAKE: a job, or the flag that there was none. */
  function EncodeTake(job: Option<Scheduler.Job>): seq<byte> {
    match job
    case None => [0]
    case Some(j) => [1] + (Scalar(j.callId, 8) + (Scalar(j.remainingMs, 4) + PutPayload(j.payload)))
  }

  /** The worker's reading of it, which refuses a zero id and more than 30000 ms. */
  function ReadTake(body: seq<byte>): Option<Option<Scheduler.Job>> {
    match ParseNumber(body, 1)
    case Bad(_) => None
    case Parsed(flag, rest) =>
      if flag > 1 then None
      else if flag == 0 then (if rest == [] then Some(None) else None)
      else
        match ParseNumber(rest, 8)
        case Bad(_) => None
        case Parsed(callId, rest) =>
          match ParseNumber(rest, 4)
          case Bad(_) => None
          case Parsed(remainingMs, rest) =>
            match ParsePayload(rest, MAX_PAYLOAD)
            case Bad(_) => None
            case Parsed(payload, rest) =>
              if rest != [] || callId == 0 || remainingMs > 30_000 then None
              else Some(Some(Scheduler.Job(callId, remainingMs, payload)))
  }

  /** What a job must satisfy for the worker to take it. */
  ghost predicate Workable(job: Option<Scheduler.Job>) {
    job.Some? ==>
      1 <= job.value.callId <= MAX_U64 && job.value.remainingMs <= 30_000 && |job.value.payload| <= MAX_PAYLOAD
  }

  /** The worker takes a reply to a TAKE exactly if it is the encoding of a workable job, or of none. */
  lemma TakeExact(body: seq<byte>, job: Option<Scheduler.Job>)
    ensures ReadTake(body) == Some(job) <==> Workable(job) && body == EncodeTake(job)
  {
    hide ParseNumber, ParsePayload, Scalar, PutPayload;
    if Workable(job) && body == EncodeTake(job) {
      TakeReads(job);
    }
    if ReadTake(body) == Some(job) {
      TakenIsEncoded(body, job);
    }
  }

  lemma TakenIsEncoded(body: seq<byte>, job: Option<Scheduler.Job>)
    requires ReadTake(body) == Some(job)
    ensures Workable(job) && body == EncodeTake(job)
  {
    hide ParseNumber, ParsePayload, Scalar, PutPayload;
    Powers();
    OneByte(0);
    OneByte(1);
    var p1 := ParseNumber(body, 1);
    NumberCodec(body, 1, p1.value, p1.rest);
    match job {
      case None => assert [0] + [] == [0 as byte];
      case Some(j) =>
        var p2 := ParseNumber(p1.rest, 8);
        NumberCodec(p1.rest, 8, j.callId, p2.rest);
        var p3 := ParseNumber(p2.rest, 4);
        NumberCodec(p2.rest, 4, j.remainingMs, p3.rest);
        PayloadCodec(p3.rest, MAX_PAYLOAD, j.payload, []);
        assert PutPayload(j.payload) + [] == PutPayload(j.payload);
    }
  }

  /** The worker takes every reply to a TAKE whose job has a real id, at most 30000 ms and a payload
      within the limit, and reads back exactly that job. */
  lemma TakeReads(job: Option<Scheduler.Job>)
    requires job.Some? ==>
               1 <= job.value.callId <= MAX_U64 && job.value.remainingMs <= 30_000 && |job.value.payload| <= MAX_PAYLOAD
    ensures ReadTake(EncodeTake(job)) == Some(job)
  {
    hide ParseNumber, ParsePayload, Scalar, PutPayload;
    Powers();
    OneByte(0);
    OneByte(1);
    match job {
      case None =>
        assert [0] + [] == [0 as byte];
        NumberCodec([0], 1, 0, []);
      case Some(j) =>
        var d2 := PutPayload(j.payload);
        var d1 := Scalar(j.remainingMs, 4) + d2;
        var d0 := Scalar(j.callId, 8) + d1;
        NumberCodec([1] + d0, 1, 1, d0);
        NumberCodec(d0, 8, j.callId, d1);
        NumberCodec(d1, 4, j.remainingMs, d2);
        assert d2 + [] == d2;
        PayloadCodec(d2, MAX_PAYLOAD, j.payload, []);
    }
  }
}
