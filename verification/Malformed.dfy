/**
 What the broker answers to a request it cannot take: one cut short or with bytes left over is a protocol
 error, which closes the connection, and one laid out in full gets the code of its first bad value.
 */
module Malformed {
  import opened Basics
  import opened Codes
  import opened Utf8
  import opened EventLog
  import opened Protocol
  import opened Requests

  // ---------------------------------------------------------------- requests cut short

  /** `cut` is what is made of the first `n` bytes of what `whole` was made of: the same, if all that was
      read is there, and otherwise a protocol error. */
  ghost predicate Cuts<T>(whole: Parsed<T>, cut: Parsed<T>, size: nat, n: nat) {
    whole.Parsed? && n <= size ==>
      && |whole.rest| <= size
      && var read := size - |whole.rest|;
         cut == if n < read then Bad(PROTOCOL) else Parsed(whole.value, whole.rest[..n - read])
  }

  lemma CutBytes(data: seq<byte>, length: nat, n: nat)
    requires n <= |data|
    ensures Cuts(ParseBytes(data, length), ParseBytes(data[..n], length), |data|, n)
  {
    if length <= n {
      assert data[..n][..length] == data[..length] && data[..n][length..] == data[length..][..n - length];
    }
  }

  lemma CutNumber(data: seq<byte>, width: nat, n: nat)
    requires n <= |data|
    ensures Cuts(ParseNumber(data, width), ParseNumber(data[..n], width), |data|, n)
  {
    CutBytes(data, width, n);
  }

  /** How many of the first `n` bytes of `data` lie in what is left of it. */
  function Behind(data: seq<byte>, rest: seq<byte>, n: nat): (m: nat)
    requires |rest| <= |data| && n <= |data|
    ensures m <= |rest|
  {
    var read := |data| - |rest|;
    if n < read then 0 else n - read
  }

  lemma CutString(data: seq<byte>, max: nat, n: nat)
    requires n <= |data|
    ensures Cuts(ParseString(data, max), ParseString(data[..n], max), |data|, n)
  {
    hide ParseNumber, ParseBytes, ValidUtf8;
    CutNumber(data, 2, n);
    var p1 := ParseNumber(data, 2);
    if p1.Parsed? {
      var n1 := Behind(data, p1.rest, n);
      CutBytes(p1.rest, p1.value, n1);
    }
  }

  lemma CutPayload(data: seq<byte>, max: nat, n: nat)
    requires n <= |data|
    ensures Cuts(ParsePayload(data, max), ParsePayload(data[..n], max), |data|, n)
  {
    hide ParseNumber, ParseBytes;
    CutNumber(data, 4, n);
    var p1 := ParseNumber(data, 4);
    if p1.Parsed? {
      var n1 := Behind(data, p1.rest, n);
      CutBytes(p1.rest, p1.value, n1);
    }
  }

  lemma CutTopic(data: seq<byte>, wildcard: bool, n: nat)
    requires n <= |data|
    ensures Cuts(ParseTopic(data, wildcard), ParseTopic(data[..n], wildcard), |data|, n)
  {
    hide ParseString, ValidTopic;
    CutString(data, 255, n);
  }

  lemma CutRecord(data: seq<byte>, n: nat)
    requires n <= |data|
    ensures Cuts(ParseRecord(data), ParseRecord(data[..n]), |data|, n)
  {
    hide ParseNumber, ParseString, ParsePayload, ParseTopic;
    CutTopic(data, false, n);
    var p1 := ParseTopic(data, false);
    if p1.Parsed? {
      var n1 := Behind(data, p1.rest, n);
      CutString(p1.rest, 1024, n1);
      var p2 := ParseString(p1.rest, 1024);
      if p2.Parsed? {
        var n2 := Behind(p1.rest, p2.rest, n1);
        CutPayload(p2.rest, MAX_PAYLOAD, n2);
      }
    }
  }

  lemma {:induction false} CutMany(data: seq<byte>, count: nat, n: nat)
    requires n <= |data|
    ensures Cuts(ParseMany(data, count), ParseMany(data[..n], count), |data|, n)
    decreases count
  {
    hide ParseRecord;
    if count > 0 {
      CutRecord(data, n);
      var p1 := ParseRecord(data);
      if p1.Parsed? {
        CutMany(p1.rest, count - 1, Behind(data, p1.rest, n));
      }
    }
  }

  lemma CutRecords(data: seq<byte>, n: nat)
    requires n <= |data|
    ensures Cuts(ParseRecords(data), ParseRecords(data[..n]), |data|, n)
  {
    hide ParseNumber, ParseMany;
    CutNumber(data, 2, n);
    var p1 := ParseNumber(data, 2);
    if p1.Parsed? {
      var n1 := Behind(data, p1.rest, n);
      CutMany(p1.rest, p1.value, n1);
    }
  }

  lemma CutHello(data: seq<byte>, n: nat)
    requires n <= |data|
    ensures Cuts(ParseHello(data), ParseHello(data[..n]), |data|, n)
  {
    hide ParseNumber, ParseString, ParsePayload, ParseTopic;
    CutNumber(data, 2, n);
    var p1 := ParseNumber(data, 2);
    if p1.Parsed? {
      var n1 := Behind(data, p1.rest, n);
      CutString(p1.rest, 0xffff, n1);
    }
  }

  lemma CutFetch(data: seq<byte>, n: nat)
    requires n <= |data|
    ensures Cuts(ParseFetch(data), ParseFetch(data[..n]), |data|, n)
  {
    hide ParseNumber, ParseString, ParsePayload, ParseTopic;
    CutTopic(data, true, n);
    var p1 := ParseTopic(data, true);
    if p1.Parsed? {
      var n1 := Behind(data, p1.rest, n);
      CutNumber(p1.rest, 8, n1);
      var p2 := ParseNumber(p1.rest, 8);
      if p2.Parsed? {
        var n2 := Behind(p1.rest, p2.rest, n1);
        CutNumber(p2.rest, 2, n2);
        var p3 := ParseNumber(p2.rest, 2);
        if p3.Parsed? {
          var n3 := Behind(p2.rest, p3.rest, n2);
          CutNumber(p3.rest, 4, n3);
          var p4 := ParseNumber(p3.rest, 4);
          if p4.Parsed? {
            var n4 := Behind(p3.rest, p4.rest, n3);
            CutNumber(p4.rest, 1, n4);
          }
        }
      }
    }
  }

  lemma CutRegister(data: seq<byte>, n: nat)
    requires n <= |data|
    ensures Cuts(ParseRegister(data), ParseRegister(data[..n]), |data|, n)
  {
    hide ParseNumber, ParseString, ParsePayload, ParseTopic;
    CutTopic(data, false, n);
    var p1 := ParseTopic(data, false);
    if p1.Parsed? {
      var n1 := Behind(data, p1.rest, n);
      CutNumber(p1.rest, 2, n1);
      var p2 := ParseNumber(p1.rest, 2);
      if p2.Parsed? {
        var n2 := Behind(p1.rest, p2.rest, n1);
        CutNumber(p2.rest, 2, n2);
      }
    }
  }

  lemma CutCall(data: seq<byte>, n: nat)
    requires n <= |data|
    ensures Cuts(ParseCall(data), ParseCall(data[..n]), |data|, n)
  {
    hide ParseNumber, ParseString, ParsePayload, ParseTopic;
    CutTopic(data, false, n);
    var p1 := ParseTopic(data, false);
    if p1.Parsed? {
      var n1 := Behind(data, p1.rest, n);
      CutNumber(p1.rest, 4, n1);
      var p2 := ParseNumber(p1.rest, 4);
      if p2.Parsed? {
        var n2 := Behind(p1.rest, p2.rest, n1);
        CutPayload(p2.rest, MAX_PAYLOAD, n2);
      }
    }
  }

  lemma CutComplete(data: seq<byte>, n: nat)
    requires n <= |data|
    ensures Cuts(ParseComplete(data), ParseComplete(data[..n]), |data|, n)
  {
    hide ParseNumber, ParsePayload, ValidUtf8;
    CutNumber(data, 8, n);
    var p1 := ParseNumber(data, 8);
    if p1.Parsed? {
      var n1 := Behind(data, p1.rest, n);
      CutNumber(p1.rest, 1, n1);
      var p2 := ParseNumber(p1.rest, 1);
      if p2.Parsed? {
        var n2 := Behind(p1.rest, p2.rest, n1);
        CutPayload(p2.rest, if p2.value == 1 then MAX_ERROR else MAX_PAYLOAD, n2);
      }
    }
  }

  lemma CutParse(opcode: byte, data: seq<byte>, n: nat)
    requires n <= |data|
    ensures Cuts(Parse(opcode, data), Parse(opcode, data[..n]), |data|, n)
  {
    hide ParseHello, ParseRecords, ParseFetch, ParseRegister, ParseCall, ParseNumber, ParseComplete;
    match opcode {
      case 1 => CutHello(data, n);
      case 2 => CutRecords(data, n);
      case 3 => CutFetch(data, n);
      case 6 => CutRegister(data, n);
      case 7 => CutCall(data, n);
      case 8 => CutNumber(data, 4, n);
      case 9 => CutComplete(data, n);
      case _ =>
    }
  }

  /** Every proper prefix of a request's body is a protocol error, wherever it is cut. */
  lemma TruncatedIsProtocol(opcode: byte, body: seq<byte>, n: nat)
    requires Decode(opcode, body).Ok? && n < |body|
    ensures Decode(opcode, body[..n]) == Err(PROTOCOL)
  {
    hide Parse;
    CutParse(opcode, body, n);
  }

  /** So is a request's body with anything behind it. */
  lemma TrailingIsProtocol(opcode: byte, body: seq<byte>, extra: seq<byte>)
    requires Decode(opcode, body).Ok? && extra != []
    ensures Decode(opcode, body + extra) == Err(PROTOCOL)
  {
    hide Parse, Legal, EncodeBody;
    var r := Decode(opcode, body).value;
    RequestCodec(opcode, body, r);
    BranchCodec(body + extra, r, extra);
  }

  // ---------------------------------------------------------------- requests with values out of range

  /** Text that a length prefix of two bytes can carry. */
  predicate Text(s: seq<byte>) {
    |s| < 0x1_0000 && ValidUtf8(s)
  }

  /** The request can be laid out at all: its numbers fit their widths and its text is UTF-8. */
  predicate Laid(r: Request) {
    match r
    case Hello(version, token) => version < 0x1_0000 && Text(token)
    case Publish(records) => |records| < 0x1_0000 && forall i :: 0 <= i < |records| ==> LaidRecord(records[i])
    case Fetch(q) => Text(q.topic) && q.after <= MAX_U64 && q.limit < 0x1_0000 && q.maxBytes < 0x1_0000_0000
    case Stats => true
    case Ping => true
    case Register(route, concurrency, queueLimit) => Text(route) && concurrency < 0x1_0000 && queueLimit < 0x1_0000
    case Call(route, timeoutMs, payload) => Text(route) && timeoutMs < 0x1_0000_0000 && |payload| < 0x1_0000_0000
    case Take(waitMs) => waitMs < 0x1_0000_0000
    case Complete(callId, _, payload) => callId <= MAX_U64 && |payload| < 0x1_0000_0000
  }

  predicate LaidRecord(r: Record) {
    Text(r.topic) && Text(r.key) && |r.payload| < 0x1_0000_0000
  }

  function RecordFault(r: Record): Option<nat> {
    if !ValidTopic(r.topic) || |r.key| > 1024 then Some(INVALID)
    else if |r.payload| > MAX_PAYLOAD then Some(LIMIT)
    else None
  }

  /** The fault of the first record that has one. */
  function FirstFault(records: seq<Record>): Option<nat> {
    if records == [] then None
    else if RecordFault(records[0]).Some? then RecordFault(records[0])
    else FirstFault(records[1..])
  }

  /** The code of a request whose values are not all in range. */
  function Fault(r: Request): Option<nat> {
    match r
    case Hello(_, _) => None
    case Publish(records) => if 1 <= |records| <= MAX_BATCH then FirstFault(records) else Some(INVALID)
    case Fetch(q) =>
      if (q.topic == WILDCARD || ValidTopic(q.topic)) && 1 <= q.limit <= MAX_BATCH
        && 1 <= q.maxBytes <= MAX_FETCH_BYTES then None else Some(INVALID)
    case Stats => None
    case Ping => None
    case Register(route, concurrency, queueLimit) =>
      if ValidTopic(route) && 1 <= concurrency <= 256 && 1 <= queueLimit <= 4096 then None else Some(INVALID)
    case Call(route, timeoutMs, payload) =>
      if !ValidTopic(route) || !(1 <= timeoutMs <= 30_000) then Some(INVALID)
      else if |payload| > MAX_PAYLOAD then Some(LIMIT)
      else None
    case Take(waitMs) => if 1 <= waitMs <= 1000 then None else Some(INVALID)
    case Complete(_, failed, payload) =>
      if |payload| > (if failed then MAX_ERROR else MAX_PAYLOAD) then Some(LIMIT)
      else if failed && !ValidUtf8(payload) then Some(PROTOCOL)
      else None
  }

  lemma NumberReads(n: nat, width: nat, rest: seq<byte>)
    requires n < Power(width)
    ensures ParseNumber(Scalar(n, width) + rest, width) == Parsed(n, rest)
  {
    NumberCodec(Scalar(n, width) + rest, width, n, rest);
  }

  lemma TextReads(s: seq<byte>, max: nat, rest: seq<byte>)
    requires Text(s) && max < 0x1_0000
    ensures ParseString(PutString(s) + rest, max) == if |s| <= max then Parsed(s, rest) else Bad(INVALID)
  {
    hide ParseNumber, Scalar, ValidUtf8;
    Powers();
    NumberReads(|s|, 2, s + rest);
    assert PutString(s) + rest == Scalar(|s|, 2) + (s + rest);
    assert (s + rest)[..|s|] == s && (s + rest)[|s|..] == rest;
  }

  lemma TopicReads(s: seq<byte>, wildcard: bool, rest: seq<byte>)
    requires Text(s)
    ensures ParseTopic(PutString(s) + rest, wildcard)
         == if (wildcard && s == WILDCARD) || ValidTopic(s) then Parsed(s, rest) else Bad(INVALID)
  {
    hide ParseString, PutString, ValidUtf8;
    TextReads(s, 255, rest);
  }

  lemma PayloadReads(p: seq<byte>, max: nat, rest: seq<byte>)
    requires |p| < 0x1_0000_0000
    ensures ParsePayload(PutPayload(p) + rest, max) == if |p| <= max then Parsed(p, rest) else Bad(LIMIT)
  {
    hide ParseNumber, Scalar;
    Powers();
    NumberReads(|p|, 4, p + rest);
    assert PutPayload(p) + rest == Scalar(|p|, 4) + (p + rest);
    assert (p + rest)[..|p|] == p && (p + rest)[|p|..] == rest;
  }

  lemma RecordReads(r: Record, rest: seq<byte>)
    requires LaidRecord(r)
    ensures ParseRecord(EncodeRecord(r) + rest)
         == match RecordFault(r) { case None => Parsed(r, rest) case Some(code) => Bad(code) }
  {
    hide ParseTopic, ParseString, ParsePayload, PutString, PutPayload, ValidTopic, ValidUtf8;
    var d2 := PutPayload(r.payload) + rest;
    var d1 := PutString(r.key) + d2;
    assert EncodeRecord(r) + rest == PutString(r.topic) + d1;
    TopicReads(r.topic, false, d1);
    TextReads(r.key, 1024, d2);
    PayloadReads(r.payload, MAX_PAYLOAD, rest);
  }

  lemma {:induction false} ManyRead(records: seq<Record>)
    requires forall i :: 0 <= i < |records| ==> LaidRecord(records[i])
    ensures ParseMany(EncodeMany(records), |records|)
         == match FirstFault(records) { case None => Parsed(records, []) case Some(code) => Bad(code) }
  {
    hide ParseRecord, EncodeRecord, LaidRecord, RecordFault;
    if records != [] {
      RecordReads(records[0], EncodeMany(records[1..]));
      ManyRead(records[1..]);
      assert [records[0]] + records[1..] == records;
    }
  }

  lemma PublishReads(records: seq<Record>)
    requires Laid(Publish(records))
    ensures ParseRecords(EncodeRecords(records))
         == match Fault(Publish(records)) { case None => Parsed(records, []) case Some(code) => Bad(code) }
  {
    hide ParseNumber, ParseMany, Scalar, EncodeMany, LaidRecord, FirstFault;
    Powers();
    NumberReads(|records|, 2, EncodeMany(records));
    ManyRead(records);
  }

  lemma FetchReads(r: Request)
    requires r.Fetch? && Laid(r)
    ensures ParseFetch(EncodeBody(r)) == match Fault(r) { case None => Parsed(r, []) case Some(code) => Bad(code) }
  {
    hide ParseNumber, ParseTopic, Scalar, PutString, ValidTopic, ValidUtf8;
    Powers();
    var q := r.query;
    var d4 := Scalar(Flag(q.latest), 1);
    var d3 := Scalar(q.maxBytes, 4) + d4;
    var d2 := Scalar(q.limit, 2) + d3;
    TopicReads(q.topic, true, Scalar(q.after, 8) + d2);
    NumberReads(q.after, 8, d2);
    NumberReads(q.limit, 2, d3);
    NumberReads(q.maxBytes, 4, d4);
    assert d4 + [] == d4;
    NumberReads(Flag(q.latest), 1, []);
  }

  lemma RegisterReads(r: Request)
    requires r.Register? && Laid(r)
    ensures ParseRegister(EncodeBody(r)) == match Fault(r) { case None => Parsed(r, []) case Some(code) => Bad(code) }
  {
    hide ParseNumber, ParseTopic, Scalar, PutString, ValidTopic, ValidUtf8;
    Powers();
    var d2 := Scalar(r.queueLimit, 2);
    TopicReads(r.route, false, Scalar(r.concurrency, 2) + d2);
    NumberReads(r.concurrency, 2, d2);
    assert d2 + [] == d2;
    NumberReads(r.queueLimit, 2, []);
  }

  lemma CallReads(r: Request)
    requires r.Call? && Laid(r)
    ensures ParseCall(EncodeBody(r)) == match Fault(r) { case None => Parsed(r, []) case Some(code) => Bad(code) }
  {
    hide ParseNumber, ParseTopic, ParsePayload, Scalar, PutString, PutPayload, ValidTopic, ValidUtf8;
    Powers();
    var d2 := PutPayload(r.payload);
    TopicReads(r.route, false, Scalar(r.timeoutMs, 4) + d2);
    NumberReads(r.timeoutMs, 4, d2);
    assert d2 + [] == d2;
    PayloadReads(r.payload, MAX_PAYLOAD, []);
  }

  lemma TakeReads(r: Request)
    requires r.Take? && Laid(r)
    ensures ParseTake(EncodeBody(r)) == match Fault(r) { case None => Parsed(r, []) case Some(code) => Bad(code) }
  {
    hide ParseNumber, Scalar;
    Powers();
    assert Scalar(r.waitMs, 4) + [] == Scalar(r.waitMs, 4);
    NumberReads(r.waitMs, 4, []);
  }

  lemma CompleteReads(r: Request)
    requires r.Complete? && Laid(r)
    ensures ParseComplete(EncodeBody(r)) == match Fault(r) { case None => Parsed(r, []) case Some(code) => Bad(code) }
  {
    hide ParseNumber, ParsePayload, Scalar, PutPayload, ValidUtf8;
    Powers();
    var d2 := PutPayload(r.payload);
    NumberReads(r.callId, 8, Scalar(Flag(r.failed), 1) + d2);
    NumberReads(Flag(r.failed), 1, d2);
    assert d2 + [] == d2;
    PayloadReads(r.payload, if r.failed then MAX_ERROR else MAX_PAYLOAD, []);
  }

  /** A request laid out in full is taken exactly if all its values are in range, and otherwise gets the
      code of its first value that is not: INVALID for names, counts and times, LIMIT for payloads. */
  lemma FaultDecides(r: Request)
    requires Laid(r)
    ensures Decode(Opcode(r), EncodeBody(r)) == match Fault(r) { case None => Ok(r) case Some(code) => Err(code) }
    ensures Fault(r).None? <==> Legal(r)
  {
    hide ParseHello, ParseRecords, ParseFetch, ParseRegister, ParseCall, ParseTake, ParseComplete, EncodeRecords,
      Scalar, PutString, PutPayload, ValidTopic, ValidUtf8, FirstFault, ValidBatch;
    match r {
      case Hello(_, _) => RequestCodec(1, EncodeBody(r), r);
      case Publish(records) => PublishReads(records); RequestCodec(2, EncodeBody(r), r);
      case Fetch(_) => FetchReads(r); RequestCodec(3, EncodeBody(r), r);
      case Stats =>
      case Ping =>
      case Register(_, _, _) => RegisterReads(r); RequestCodec(6, EncodeBody(r), r);
      case Call(_, _, _) => CallReads(r); RequestCodec(7, EncodeBody(r), r);
      case Take(_) => TakeReads(r); RequestCodec(8, EncodeBody(r), r);
      case Complete(_, _, _) => CompleteReads(r); RequestCodec(9, EncodeBody(r), r);
    }
  }
}
