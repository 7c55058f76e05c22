/** The nine requests on the wire: what the client writes, and what the broker's decoder makes of any bytes. */
module Requests {
  import opened Basics
  import opened Codes
  import opened Utf8
  import opened EventLog
  import opened Protocol

  const MAX_ERROR := 4096

  datatype Request =
    | Hello(version: nat, token: seq<byte>)
    | Publish(records: seq<Record>)
    | Fetch(query: Query)
    | Stats
    | Ping
    | Register(route: seq<byte>, concurrency: nat, queueLimit: nat)
    | Call(route: seq<byte>, timeoutMs: nat, payload: seq<byte>)
    | Take(waitMs: nat)
    | Complete(callId: nat, failed: bool, payload: seq<byte>)

  function Opcode(r: Request): byte {
    match r
    case Hello(_, _) => 1
    case Publish(_) => 2
    case Fetch(_) => 3
    case Stats => 4
    case Ping => 5
    case Register(_, _, _) => 6
    case Call(_, _, _) => 7
    case Take(_) => 8
    case Complete(_, _, _) => 9
  }

  /** The body of a request as the client lays it out. */
  function EncodeBody(r: Request): seq<byte> {
    match r
    case Hello(version, token) => Scalar(version, 2) + PutString(token)
    case Publish(records) => EncodeRecords(records)
    case Fetch(q) => PutString(q.topic)
      + (Scalar(q.after, 8) + (Scalar(q.limit, 2) + (Scalar(q.maxBytes, 4) + Scalar(Flag(q.latest), 1))))
    case Stats => []
    case Ping => []
    case Register(route, concurrency, queueLimit) => PutString(route) + (Scalar(concurrency, 2) + Scalar(queueLimit, 2))
    case Call(route, timeoutMs, payload) => PutString(route) + (Scalar(timeoutMs, 4) + PutPayload(payload))
    case Take(waitMs) => Scalar(waitMs, 4)
    case Complete(callId, failed, payload) => Scalar(callId, 8) + (Scalar(Flag(failed), 1) + PutPayload(payload))
  }

  /** The values each request may carry. */
  predicate Legal(r: Request) {
    match r
    case Hello(version, token) => version < 0x1_0000 && |token| < 0x1_0000 && ValidUtf8(token)
    case Publish(records) => ValidBatch(records)
    case Fetch(q) =>
      (q.topic == WILDCARD || ValidTopic(q.topic)) && q.after <= MAX_U64
      && 1 <= q.limit <= MAX_BATCH && 1 <= q.maxBytes <= MAX_FETCH_BYTES
    case Stats => true
    case Ping => true
    case Register(route, concurrency, queueLimit) =>
      ValidTopic(route) && 1 <= concurrency <= 256 && 1 <= queueLimit <= 4096
    case Call(route, timeoutMs, payload) => ValidTopic(route) && 1 <= timeoutMs <= 30_000 && |payload| <= MAX_PAYLOAD
    case Take(waitMs) => 1 <= waitMs <= 1000
    case Complete(callId, failed, payload) =>
      callId <= MAX_U64 && |payload| <= MAX_PAYLOAD && (failed ==> |payload| <= MAX_ERROR && ValidUtf8(payload))
  }

  // ---------------------------------------------------------------- the decoder, branch by branch

  function ParseHello(data: seq<byte>): Parsed<Request> {
    match ParseNumber(data, 2)
    case Bad(code) => Bad(code)
    case Parsed(version, rest) =>
      match ParseString(rest, 0xffff)
      case Bad(code) => Bad(code)
      case Parsed(token, rest) => Parsed(Hello(version, token), rest)
  }

  function ParsePublish(data: seq<byte>): Parsed<Request> {
    match ParseRecords(data)
    case Bad(code) => Bad(code)
    case Parsed(records, rest) => Parsed(Publish(records), rest)
  }

  function ParseFetch(data: seq<byte>): Parsed<Request> {
    match ParseTopic(data, true)
    case Bad(code) => Bad(code)
    case Parsed(topic, rest) =>
      match ParseNumber(rest, 8)
      case Bad(code) => Bad(code)
      case Parsed(after, rest) =>
        match ParseNumber(rest, 2)
        case Bad(code) => Bad(code)
        case Parsed(limit, rest) =>
          match ParseNumber(rest, 4)
          case Bad(code) => Bad(code)
          case Parsed(maxBytes, rest) =>
            match ParseNumber(rest, 1)
            case Bad(code) => Bad(code)
            case Parsed(mode, rest) =>
              if !(1 <= limit <= MAX_BATCH) || !(1 <= maxBytes <= MAX_FETCH_BYTES) then Bad(INVALID)
              else if mode > 1 then Bad(PROTOCOL)
              else Parsed(Fetch(Query(topic, after, limit, maxBytes, mode == 1)), rest)
  }

  function ParseRegister(data: seq<byte>): Parsed<Request> {
    match ParseTopic(data, false)
    case Bad(code) => Bad(code)
    case Parsed(route, rest) =>
      match ParseNumber(rest, 2)
      case Bad(code) => Bad(code)
      case Parsed(concurrency, rest) =>
        match ParseNumber(rest, 2)
        case Bad(code) => Bad(code)
        case Parsed(queueLimit, rest) =>
          if !(1 <= concurrency <= 256) || !(1 <= queueLimit <= 4096) then Bad(INVALID)
          else Parsed(Register(route, concurrency, queueLimit), rest)
  }

  function ParseCall(data: seq<byte>): Parsed<Request> {
    match ParseTopic(data, false)
    case Bad(code) => Bad(code)
    case Parsed(route, rest) =>
      match ParseNumber(rest, 4)
      case Bad(code) => Bad(code)
      case Parsed(timeoutMs, rest) =>
        if !(1 <= timeoutMs <= 30_000) then Bad(INVALID)
        else
          match ParsePayload(rest, MAX_PAYLOAD)
          case Bad(code) => Bad(code)
          case Parsed(payload, rest) => Parsed(Call(route, timeoutMs, payload), rest)
  }

  function ParseTake(data: seq<byte>): Parsed<Request> {
    match ParseNumber(data, 4)
    case Bad(code) => Bad(code)
    case Parsed(waitMs, rest) => if 1 <= waitMs <= 1000 then Parsed(Take(waitMs), rest) else Bad(INVALID)
  }

  function ParseComplete(data: seq<byte>): Parsed<Request> {
    match ParseNumber(data, 8)
    case Bad(code) => Bad(code)
    case Parsed(callId, rest) =>
      match ParseNumber(rest, 1)
      case Bad(code) => Bad(code)
      case Parsed(status, rest) =>
        if status > 1 then Bad(INVALID)
        else
          match ParsePayload(rest, if status == 1 then MAX_ERROR else MAX_PAYLOAD)
          case Bad(code) => Bad(code)
          case Parsed(payload, rest) =>
            if status == 1 && !ValidUtf8(payload) then Bad(PROTOCOL)
            else Parsed(Complete(callId, status == 1, payload), rest)
  }

  function Parse(opcode: byte, data: seq<byte>): Parsed<Request> {
    if opcode == 1 then ParseHello(data)
    else if opcode == 2 then ParsePublish(data)
    else if opcode == 3 then ParseFetch(data)
    else if opcode == 4 then Parsed(Stats, data)
    else if opcode == 5 then Parsed(Ping, data)
    else if opcode == 6 then ParseRegister(data)
    else if opcode == 7 then ParseCall(data)
    else if opcode == 8 then ParseTake(data)
    else if opcode == 9 then ParseComplete(data)
    else Bad(PROTOCOL)
  }

  function Decode(opcode: byte, body: seq<byte>): Result<Request> {
    match Parse(opcode, body)
    case Bad(code) => Err(code)
    case Parsed(r, rest) => if rest == [] then Ok(r) else Err(PROTOCOL)
  }

  // ---------------------------------------------------------------- each branch takes exactly what is written

  ghost predicate Takes(parsed: Parsed<Request>, data: seq<byte>, r: Request, rest: seq<byte>) {
    parsed == Parsed(r, rest) <==> Legal(r) && data == EncodeBody(r) + rest
  }

  lemma FlagCodec(data: seq<byte>, b: bool, rest: seq<byte>)
    ensures ParseNumber(data, 1) == Parsed(Flag(b), rest) <==> data == Scalar(Flag(b), 1) + rest
  {
    Powers();
    NumberCodec(data, 1, Flag(b), rest);
  }

  lemma HelloCodec(data: seq<byte>, r: Request, rest: seq<byte>)
    requires r.Hello?
    ensures Takes(ParseHello(data), data, r, rest)
  {
    hide ParseNumber, ParseString, Scalar, PutString, ValidUtf8;
    Powers();
    var afterVersion := PutString(r.token) + rest;
    assert EncodeBody(r) + rest == Scalar(r.version, 2) + afterVersion;
    NumberCodec(data, 2, r.version, afterVersion);
    StringCodec(afterVersion, 0xffff, r.token, rest);
    if ParseHello(data) == Parsed(r, rest) {
      var tail := ParseNumber(data, 2).rest;
      NumberCodec(data, 2, r.version, tail);
      StringCodec(tail, 0xffff, r.token, rest);
    }
  }

  lemma PublishCodec(data: seq<byte>, r: Request, rest: seq<byte>)
    requires r.Publish?
    ensures Takes(ParsePublish(data), data, r, rest)
  {
    hide ParseRecords, EncodeRecords, ValidBatch;
    RecordsCodec(data, r.records, rest);
  }

  /** The four numbers of a fetch after its topic. */
  lemma FetchTail(data: seq<byte>, after: nat, limit: nat, maxBytes: nat, latest: bool, rest: seq<byte>)
    ensures var a := ParseNumber(data, 8);
            (a.Parsed? && a.value == after
             && var l := ParseNumber(a.rest, 2);
                l.Parsed? && l.value == limit
                && var m := ParseNumber(l.rest, 4);
                   m.Parsed? && m.value == maxBytes && ParseNumber(m.rest, 1) == Parsed(Flag(latest), rest))
            <==> after <= MAX_U64 && limit < 0x1_0000 && maxBytes < 0x1_0000_0000
                 && data ==
                    Scalar(after, 8) + (Scalar(limit, 2) + (Scalar(maxBytes, 4) + Scalar(Flag(latest), 1))) + rest
  {
    hide ParseNumber, Scalar;
    Powers();
    var d3 := Scalar(Flag(latest), 1) + rest;
    var d2 := Scalar(maxBytes, 4) + d3;
    var d1 := Scalar(limit, 2) + d2;
    assert Scalar(after, 8) + (Scalar(limit, 2) + (Scalar(maxBytes, 4) + Scalar(Flag(latest), 1))) + rest
           == Scalar(after, 8) + d1;
    NumberCodec(data, 8, after, d1);
    NumberCodec(d1, 2, limit, d2);
    NumberCodec(d2, 4, maxBytes, d3);
    FlagCodec(d3, latest, rest);
    var a := ParseNumber(data, 8);
    if a.Parsed? {
      NumberCodec(data, 8, after, a.rest);
      var l := ParseNumber(a.rest, 2);
      if l.Parsed? {
        NumberCodec(a.rest, 2, limit, l.rest);
        var m := ParseNumber(l.rest, 4);
        if m.Parsed? {
          NumberCodec(l.rest, 4, maxBytes, m.rest);
          FlagCodec(m.rest, latest, rest);
        }
      }
    }
  }

  lemma FetchCodec(data: seq<byte>, r: Request, rest: seq<byte>)
    requires r.Fetch?
    ensures Takes(ParseFetch(data), data, r, rest)
  {
    hide ParseNumber, ParseTopic, Scalar, PutString, ValidTopic;
    var q := r.query;
    var numbers := Scalar(q.after, 8) + (Scalar(q.limit, 2) + (Scalar(q.maxBytes, 4) + Scalar(Flag(q.latest), 1)));
    assert EncodeBody(r) + rest == PutString(q.topic) + (numbers + rest);
    TopicCodec(data, true, q.topic, numbers + rest);
    FetchTail(numbers + rest, q.after, q.limit, q.maxBytes, q.latest, rest);
    if ParseFetch(data) == Parsed(r, rest) {
      var tail := ParseTopic(data, true).rest;
      TopicCodec(data, true, q.topic, tail);
      FetchTail(tail, q.after, q.limit, q.maxBytes, q.latest, rest);
    }
  }

  lemma RegisterCodec(data: seq<byte>, r: Request, rest: seq<byte>)
    requires r.Register?
    ensures Takes(ParseRegister(data), data, r, rest)
  {
    hide ParseNumber, ParseTopic, Scalar, PutString, ValidTopic;
    Powers();
    var d2 := Scalar(r.queueLimit, 2) + rest;
    var d1 := Scalar(r.concurrency, 2) + d2;
    assert EncodeBody(r) + rest == PutString(r.route) + d1;
    TopicCodec(data, false, r.route, d1);
    NumberCodec(d1, 2, r.concurrency, d2);
    NumberCodec(d2, 2, r.queueLimit, rest);
    if ParseRegister(data) == Parsed(r, rest) {
      var t1 := ParseTopic(data, false).rest;
      TopicCodec(data, false, r.route, t1);
      var t2 := ParseNumber(t1, 2).rest;
      NumberCodec(t1, 2, r.concurrency, t2);
      NumberCodec(t2, 2, r.queueLimit, rest);
    }
  }

  lemma CallCodec(data: seq<byte>, r: Request, rest: seq<byte>)
    requires r.Call?
    ensures Takes(ParseCall(data), data, r, rest)
  {
    hide ParseNumber, ParseTopic, ParsePayload, Scalar, PutString, PutPayload, ValidTopic;
    Powers();
    var d2 := PutPayload(r.payload) + rest;
    var d1 := Scalar(r.timeoutMs, 4) + d2;
    assert EncodeBody(r) + rest == PutString(r.route) + d1;
    TopicCodec(data, false, r.route, d1);
    NumberCodec(d1, 4, r.timeoutMs, d2);
    PayloadCodec(d2, MAX_PAYLOAD, r.payload, rest);
    if ParseCall(data) == Parsed(r, rest) {
      var t1 := ParseTopic(data, false).rest;
      TopicCodec(data, false, r.route, t1);
      var t2 := ParseNumber(t1, 4).rest;
      NumberCodec(t1, 4, r.timeoutMs, t2);
      PayloadCodec(t2, MAX_PAYLOAD, r.payload, rest);
    }
  }

  lemma TakeCodec(data: seq<byte>, r: Request, rest: seq<byte>)
    requires r.Take?
    ensures Takes(ParseTake(data), data, r, rest)
  {
    hide ParseNumber, Scalar;
    Powers();
    NumberCodec(data, 4, r.waitMs, rest);
  }

  lemma CompleteCodec(data: seq<byte>, r: Request, rest: seq<byte>)
    requires r.Complete?
    ensures Takes(ParseComplete(data), data, r, rest)
  {
    hide ParseNumber, ParsePayload, Scalar, PutPayload, ValidUtf8;
    Powers();
    var max := if r.failed then MAX_ERROR else MAX_PAYLOAD;
    var d2 := PutPayload(r.payload) + rest;
    var d1 := Scalar(Flag(r.failed), 1) + d2;
    assert EncodeBody(r) + rest == Scalar(r.callId, 8) + d1;
    NumberCodec(data, 8, r.callId, d1);
    FlagCodec(d1, r.failed, d2);
    PayloadCodec(d2, max, r.payload, rest);
    if ParseComplete(data) == Parsed(r, rest) {
      var t1 := ParseNumber(data, 8).rest;
      NumberCodec(data, 8, r.callId, t1);
      var t2 := ParseNumber(t1, 1).rest;
      FlagCodec(t1, r.failed, t2);
      PayloadCodec(t2, max, r.payload, rest);
    }
  }

  /** The broker accepts a body exactly when it is the client's encoding of a legal request, and then it
      understands that request: nothing else decodes, and nothing decodes two ways. */
  lemma RequestCodec(opcode: byte, body: seq<byte>, r: Request)
    ensures Decode(opcode, body) == Ok(r) <==> Legal(r) && opcode == Opcode(r) && body == EncodeBody(r)
  {
    hide ParseHello, ParsePublish, ParseFetch, ParseRegister, ParseCall, ParseTake, ParseComplete, Legal, EncodeBody;
    if opcode == Opcode(r) {
      BranchCodec(body, r, []);
      assert EncodeBody(r) + [] == EncodeBody(r);
    } else {
      BranchOpcode(opcode, body);
    }
  }

  lemma BranchCodec(body: seq<byte>, r: Request, rest: seq<byte>)
    ensures Parse(Opcode(r), body) == Parsed(r, rest) <==> Legal(r) && body == EncodeBody(r) + rest
  {
    hide ParseHello, ParsePublish, ParseFetch, ParseRegister, ParseCall, ParseTake, ParseComplete;
    hide ValidUtf8, ValidTopic, ValidBatch, EncodeRecords, PutString, PutPayload, Scalar;
    match r {
      case Hello(_, _) => HelloCodec(body, r, rest);
      case Publish(_) => PublishCodec(body, r, rest);
      case Fetch(_) => FetchCodec(body, r, rest);
      case Stats =>
      case Ping =>
      case Register(_, _, _) => RegisterCodec(body, r, rest);
      case Call(_, _, _) => CallCodec(body, r, rest);
      case Take(_) => TakeCodec(body, r, rest);
      case Complete(_, _, _) => CompleteCodec(body, r, rest);
    }
  }

  lemma BranchOpcode(opcode: byte, data: seq<byte>)
    ensures Parse(opcode, data).Parsed? ==> Opcode(Parse(opcode, data).value) == opcode
  {
    hide ParseNumber, ParseString, ParseTopic, ParseRecords, ParsePayload;
  }

  // ---------------------------------------------------------------- the decoder, statement by statement

  /** A topic and its validation, as the branches of the decoder read it. */
  method ReadTopic(reader: Reader, wildcard: bool) returns (r: Result<seq<byte>>)
    requires reader.Valid()
    modifies reader
    ensures reader.Valid()
    ensures match ParseTopic(old(reader.Rest()), wildcard)
            case Bad(code) => r == Err(code)
            case Parsed(topic, rest) => r == Ok(topic) && reader.Rest() == rest
  {
    hide ParseString;
    var topic := reader.String(255);
    if topic.Err? {
      return topic;
    }
    r := if (wildcard && topic.value == WILDCARD) || ValidTopic(topic.value) then topic else Err(INVALID);
  }

  method ReadHello(reader: Reader) returns (r: Result<Request>)
    requires reader.Valid()
    modifies reader
    ensures reader.Valid()
    ensures match ParseHello(old(reader.Rest()))
            case Bad(code) => r == Err(code)
            case Parsed(request, rest) => r == Ok(request) && reader.Rest() == rest
  {
    hide ParseNumber, ParseString;
    var version := reader.Unsigned(2);
    if version.Err? { return Err(version.code); }
    var token := reader.String(0xffff);
    if token.Err? { return Err(token.code); }
    r := Ok(Hello(version.value, token.value));
  }

  method ReadPublish(reader: Reader) returns (r: Result<Request>)
    requires reader.Valid()
    modifies reader
    ensures reader.Valid()
    ensures match ParsePublish(old(reader.Rest()))
            case Bad(code) => r == Err(code)
            case Parsed(request, rest) => r == Ok(request) && reader.Rest() == rest
  {
    hide ParseRecords;
    var records := reader.DecodeRecords();
    if records.Err? { return Err(records.code); }
    r := Ok(Publish(records.value));
  }

  method ReadTake(reader: Reader) returns (r: Result<Request>)
    requires reader.Valid()
    modifies reader
    ensures reader.Valid()
    ensures match ParseTake(old(reader.Rest()))
            case Bad(code) => r == Err(code)
            case Parsed(request, rest) => r == Ok(request) && reader.Rest() == rest
  {
    hide ParseNumber;
    var waitMs := reader.Unsigned(4);
    if waitMs.Err? { return Err(waitMs.code); }
    if !(1 <= waitMs.value <= 1000) {
      return Err(INVALID);
    }
    r := Ok(Take(waitMs.value));
  }

  method ReadFetch(reader: Reader) returns (r: Result<Request>)
    requires reader.Valid()
    modifies reader
    ensures reader.Valid()
    ensures match ParseFetch(old(reader.Rest()))
            case Bad(code) => r == Err(code)
            case Parsed(request, rest) => r == Ok(request) && reader.Rest() == rest
  {
    hide ParseNumber, ParseTopic;
    var topic := ReadTopic(reader, true);
    if topic.Err? { return Err(topic.code); }
    var after := reader.Unsigned(8);
    if after.Err? { return Err(after.code); }
    var limit := reader.Unsigned(2);
    if limit.Err? { return Err(limit.code); }
    var maxBytes := reader.Unsigned(4);
    if maxBytes.Err? { return Err(maxBytes.code); }
    var mode := reader.Unsigned(1);
    if mode.Err? { return Err(mode.code); }
    if !(1 <= limit.value <= MAX_BATCH) || !(1 <= maxBytes.value <= MAX_FETCH_BYTES) {
      return Err(INVALID);
    }
    if mode.value > 1 {
      return Err(PROTOCOL);
    }
    r := Ok(Fetch(Query(topic.value, after.value, limit.value, maxBytes.value, mode.value == 1)));
  }

  method ReadRegister(reader: Reader) returns (r: Result<Request>)
    requires reader.Valid()
    modifies reader
    ensures reader.Valid()
    ensures match ParseRegister(old(reader.Rest()))
            case Bad(code) => r == Err(code)
            case Parsed(request, rest) => r == Ok(request) && reader.Rest() == rest
  {
    hide ParseNumber, ParseTopic;
    var route := ReadTopic(reader, false);
    if route.Err? { return Err(route.code); }
    var concurrency := reader.Unsigned(2);
    if concurrency.Err? { return Err(concurrency.code); }
    var queueLimit := reader.Unsigned(2);
    if queueLimit.Err? { return Err(queueLimit.code); }
    if !(1 <= concurrency.value <= 256) || !(1 <= queueLimit.value <= 4096) {
      return Err(INVALID);
    }
    r := Ok(Register(route.value, concurrency.value, queueLimit.value));
  }

  method ReadCall(reader: Reader) returns (r: Result<Request>)
    requires reader.Valid()
    modifies reader
    ensures reader.Valid()
    ensures match ParseCall(old(reader.Rest()))
            case Bad(code) => r == Err(code)
            case Parsed(request, rest) => r == Ok(request) && reader.Rest() == rest
  {
    hide ParseNumber, ParseTopic, ParsePayload;
    var route := ReadTopic(reader, false);
    if route.Err? { return Err(route.code); }
    var timeoutMs := reader.Unsigned(4);
    if timeoutMs.Err? { return Err(timeoutMs.code); }
    if !(1 <= timeoutMs.value <= 30_000) {
      return Err(INVALID);
    }
    var payload := reader.Payload(MAX_PAYLOAD);
    if payload.Err? { return Err(payload.code); }
    r := Ok(Call(route.value, timeoutMs.value, payload.value));
  }

  method ReadComplete(reader: Reader) returns (r: Result<Request>)
    requires reader.Valid()
    modifies reader
    ensures reader.Valid()
    ensures match ParseComplete(old(reader.Rest()))
            case Bad(code) => r == Err(code)
            case Parsed(request, rest) => r == Ok(request) && reader.Rest() == rest
  {
    hide ParseNumber, ParsePayload;
    var callId := reader.Unsigned(8);
    if callId.Err? { return Err(callId.code); }
    var status := reader.Unsigned(1);
    if status.Err? { return Err(status.code); }
    if status.value > 1 {
      return Err(INVALID);
    }
    var payload := reader.Payload(if status.value == 1 then MAX_ERROR else MAX_PAYLOAD);
    if payload.Err? { return Err(payload.code); }
    if status.value == 1 && !ValidUtf8(payload.value) {
      return Err(PROTOCOL);
    }
    r := Ok(Complete(callId.value, status.value == 1, payload.value));
  }

  /** `decode_request`: the request or the error code of `Decode`, for every opcode and body. */
  method DecodeRequest(opcode: byte, body: seq<byte>) returns (r: Result<Request>)
    ensures r == Decode(opcode, body)
  {
    hide ParseHello, ParsePublish, ParseFetch, ParseRegister, ParseCall, ParseTake, ParseComplete;
    var reader := new Reader(body);
    if opcode == 1 {
      r := ReadHello(reader);
    } else if opcode == 2 {
      r := ReadPublish(reader);
    } else if opcode == 3 {
      r := ReadFetch(reader);
    } else if opcode == 4 {
      r := Ok(Stats);
    } else if opcode == 5 {
      r := Ok(Ping);
    } else if opcode == 6 {
      r := ReadRegister(reader);
    } else if opcode == 7 {
      r := ReadCall(reader);
    } else if opcode == 8 {
      r := ReadTake(reader);
    } else if opcode == 9 {
      r := ReadComplete(reader);
    } else {
      return Err(PROTOCOL);
    }
    if r.Ok? {
      var ended := reader.Finish();
      if !ended {
        r := Err(PROTOCOL);
      }
    }
  }
}
