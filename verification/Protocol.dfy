/** The binary protocol: scalars, strings, records and requests, and the reader that takes them apart. */
module Protocol {
  import opened Basics
  import opened Codes
  import opened Utf8
  import opened EventLog

  const MAX_FRAME := 1_048_576
  const MAX_PAYLOAD := 262_144
  const MAX_BATCH := 256
  const MAX_FETCH_BYTES := 524_288

  // ---------------------------------------------------------------- big-endian scalars

  function Power(width: nat): (p: nat)
    ensures p >= 1
  {
    if width == 0 then 1 else 256 * Power(width - 1)
  }

  function BigEndian(n: nat, width: nat): (b: seq<byte>)
    ensures |b| == width
  {
    if width == 0 then [] else BigEndian(n / 256, width - 1) + [n % 256]
  }

  function Number(b: seq<byte>): nat {
    if b == [] then 0 else 256 * Number(b[..|b| - 1]) + b[|b| - 1]
  }

  lemma {:induction false} NumberOfBigEndian(n: nat, width: nat)
    requires n < Power(width)
    ensures Number(BigEndian(n, width)) == n
  {
    if width > 0 {
      NumberOfBigEndian(n / 256, width - 1);
      var b := BigEndian(n, width);
      assert b[..width - 1] == BigEndian(n / 256, width - 1);
    }
  }

  lemma {:induction false} BigEndianOfNumber(b: seq<byte>)
    ensures Number(b) < Power(|b|) && BigEndian(Number(b), |b|) == b
  {
    if b != [] {
      BigEndianOfNumber(b[..|b| - 1]);
      assert b == b[..|b| - 1] + [b[|b| - 1]];
    }
  }

  lemma Powers()
    ensures Power(1) == 0x100 && Power(2) == 0x1_0000 && Power(4) == 0x1_0000_0000
    ensures Power(8) == 0x1_0000_0000_0000_0000
  {
    assert Power(4) == 256 * Power(3) && Power(3) == 256 * Power(2);
    assert Power(8) == 256 * Power(7) && Power(7) == 256 * Power(6) && Power(6) == 256 * Power(5)
           && Power(5) == 256 * Power(4);
  }

  /** A length or count written through a narrowing cast. */
  function Scalar(n: nat, width: nat): (b: seq<byte>)
    ensures |b| == width
  {
    BigEndian(n % Power(width), width)
  }

  function Flag(b: bool): nat {
    if b then 1 else 0
  }

  // ---------------------------------------------------------------- parsers over what is left to read

  datatype Parsed<T> = Parsed(value: T, rest: seq<byte>) | Bad(code: nat)

  function ParseBytes(data: seq<byte>, length: nat): Parsed<seq<byte>> {
    if length > |data| then Bad(PROTOCOL) else Parsed(data[..length], data[length..])
  }

  function ParseNumber(data: seq<byte>, width: nat): Parsed<nat> {
    match ParseBytes(data, width)
    case Bad(code) => Bad(code)
    case Parsed(b, rest) => Parsed(Number(b), rest)
  }

  function ParseString(data: seq<byte>, max: nat): Parsed<seq<byte>> {
    match ParseNumber(data, 2)
    case Bad(code) => Bad(code)
    case Parsed(length, rest) =>
      if length > max then Bad(INVALID)
      else
        match ParseBytes(rest, length)
        case Bad(code) => Bad(code)
        case Parsed(b, rest) => if ValidUtf8(b) then Parsed(b, rest) else Bad(PROTOCOL)
  }

  /** A length-prefixed payload within `max` bytes. */
  function ParsePayload(data: seq<byte>, max: nat): Parsed<seq<byte>> {
    match ParseNumber(data, 4)
    case Bad(code) => Bad(code)
    case Parsed(length, rest) => if length > max then Bad(LIMIT) else ParseBytes(rest, length)
  }

  predicate TopicByte(b: byte) {
    48 <= b <= 57 || 65 <= b <= 90 || 97 <= b <= 122 || b == 46 || b == 95 || b == 45
  }

  predicate ValidTopic(topic: seq<byte>) {
    1 <= |topic| <= 255 && forall i :: 0 <= i < |topic| ==> TopicByte(topic[i])
  }

  function ParseTopic(data: seq<byte>, wildcard: bool): Parsed<seq<byte>> {
    match ParseString(data, 255)
    case Bad(code) => Bad(code)
    case Parsed(topic, rest) =>
      if (wildcard && topic == WILDCARD) || ValidTopic(topic) then Parsed(topic, rest) else Bad(INVALID)
  }

  function ParseRecord(data: seq<byte>): Parsed<Record> {
    match ParseTopic(data, false)
    case Bad(code) => Bad(code)
    case Parsed(topic, rest) =>
      match ParseString(rest, 1024)
      case Bad(code) => Bad(code)
      case Parsed(key, rest) =>
        match ParsePayload(rest, MAX_PAYLOAD)
        case Bad(code) => Bad(code)
        case Parsed(payload, rest) => Parsed(Record(topic, key, payload), rest)
  }

  function ParseMany(data: seq<byte>, count: nat): Parsed<seq<Record>> {
    if count == 0 then Parsed([], data)
    else
      match ParseRecord(data)
      case Bad(code) => Bad(code)
      case Parsed(first, rest) =>
        match ParseMany(rest, count - 1)
        case Bad(code) => Bad(code)
        case Parsed(others, rest) => Parsed([first] + others, rest)
  }

  function ParseRecords(data: seq<byte>): Parsed<seq<Record>> {
    match ParseNumber(data, 2)
    case Bad(code) => Bad(code)
    case Parsed(count, rest) => if 1 <= count <= MAX_BATCH then ParseMany(rest, count) else Bad(INVALID)
  }

  // ---------------------------------------------------------------- encoders

  function PutString(s: seq<byte>): seq<byte> {
    Scalar(|s|, 2) + s
  }

  function PutPayload(p: seq<byte>): seq<byte> {
    Scalar(|p|, 4) + p
  }

  function EncodeRecord(r: Record): (b: seq<byte>)
    ensures |b| + 8 == r.WireBytes()
  {
    PutString(r.topic) + PutString(r.key) + PutPayload(r.payload)
  }

  function EncodeMany(records: seq<Record>): seq<byte> {
    if records == [] then [] else EncodeRecord(records[0]) + EncodeMany(records[1..])
  }

  function EncodeRecords(records: seq<Record>): seq<byte> {
    Scalar(|records|, 2) + EncodeMany(records)
  }

  predicate ValidRecord(r: Record) {
    ValidTopic(r.topic) && |r.key| <= 1024 && ValidUtf8(r.key) && |r.payload| <= MAX_PAYLOAD
  }

  predicate ValidRecords(records: seq<Record>) {
    forall i :: 0 <= i < |records| ==> ValidRecord(records[i])
  }

  predicate ValidBatch(records: seq<Record>) {
    1 <= |records| <= MAX_BATCH && ValidRecords(records)
  }

  // ---------------------------------------------------------------- parsing and printing are inverse

  /** A parser accepts exactly the printed form of its value, followed by anything. */
  lemma NumberCodec(data: seq<byte>, width: nat, n: nat, rest: seq<byte>)
    ensures ParseNumber(data, width) == Parsed(n, rest) <==> n < Power(width) && data == Scalar(n, width) + rest
  {
    if |data| >= width {
      BigEndianOfNumber(data[..width]);
    }
    if n < Power(width) {
      NumberOfBigEndian(n, width);
      assert n % Power(width) == n by {
        SmallMod(n, Power(width));
      }
      if data == Scalar(n, width) + rest {
        assert data[..width] == BigEndian(n, width) && data[width..] == rest;
      }
    }
    if |data| >= width && ParseNumber(data, width) == Parsed(n, rest) {
      assert data == data[..width] + data[width..];
    }
  }

  lemma SmallMod(n: nat, m: nat)
    requires n < m
    ensures n % m == n
  {
  }

  lemma StringCodec(data: seq<byte>, max: nat, s: seq<byte>, rest: seq<byte>)
    requires max < 0x1_0000
    ensures ParseString(data, max) == Parsed(s, rest) <==> |s| <= max && ValidUtf8(s) && data == PutString(s) + rest
  {
    Powers();
    NumberCodec(data, 2, |s|, s + rest);
    assert Scalar(|s|, 2) + (s + rest) == PutString(s) + rest;
    match ParseNumber(data, 2) {
      case Bad(_) =>
      case Parsed(length, tail) =>
        if length <= |tail| {
          assert tail == tail[..length] + tail[length..];
        }
        if |s| <= |tail| && tail == s + rest {
          assert tail[..|s|] == s && tail[|s|..] == rest;
        }
    }
  }

  lemma PayloadCodec(data: seq<byte>, max: nat, p: seq<byte>, rest: seq<byte>)
    requires max < 0x1_0000_0000
    ensures ParsePayload(data, max) == Parsed(p, rest) <==> |p| <= max && data == PutPayload(p) + rest
  {
    Powers();
    NumberCodec(data, 4, |p|, p + rest);
    assert Scalar(|p|, 4) + (p + rest) == PutPayload(p) + rest;
    match ParseNumber(data, 4) {
      case Bad(_) =>
      case Parsed(length, tail) =>
        if length <= |tail| {
          assert tail == tail[..length] + tail[length..];
        }
        if |p| <= |tail| && tail == p + rest {
          assert tail[..|p|] == p && tail[|p|..] == rest;
        }
    }
  }

  lemma {:induction false} AsciiIsUtf8(s: seq<byte>)
    requires forall i :: 0 <= i < |s| ==> s[i] < 0x80
    ensures ValidUtf8(s)
  {
    if s != [] {
      AsciiIsUtf8(s[1..]);
    }
  }

  lemma TopicCodec(data: seq<byte>, wildcard: bool, topic: seq<byte>, rest: seq<byte>)
    ensures ParseTopic(data, wildcard) == Parsed(topic, rest) <==>
              ((wildcard && topic == WILDCARD) || ValidTopic(topic)) && data == PutString(topic) + rest
  {
    StringCodec(data, 255, topic, rest);
    if (wildcard && topic == WILDCARD) || ValidTopic(topic) {
      AsciiIsUtf8(topic);
    }
  }

  /** The record codec is a bijection between valid records and what the parser accepts. */
  lemma RecordCodec(data: seq<byte>, r: Record, rest: seq<byte>)
    ensures ParseRecord(data) == Parsed(r, rest) <==> ValidRecord(r) && data == EncodeRecord(r) + rest
  {
    var afterKey := PutPayload(r.payload) + rest;
    var afterTopic := PutString(r.key) + afterKey;
    assert EncodeRecord(r) + rest == PutString(r.topic) + afterTopic;
    TopicCodec(data, false, r.topic, afterTopic);
    StringCodec(afterTopic, 1024, r.key, afterKey);
    PayloadCodec(afterKey, MAX_PAYLOAD, r.payload, rest);
    if ParseRecord(data) == Parsed(r, rest) {
      var tail := ParseTopic(data, false).rest;
      TopicCodec(data, false, r.topic, tail);
      var tail2 := ParseString(tail, 1024).rest;
      StringCodec(tail, 1024, r.key, tail2);
      PayloadCodec(tail2, MAX_PAYLOAD, r.payload, rest);
    }
  }

  lemma EncodeManyFirst(records: seq<Record>, rest: seq<byte>)
    requires records != []
    ensures EncodeMany(records) + rest == EncodeRecord(records[0]) + (EncodeMany(records[1..]) + rest)
  {
  }

  lemma {:induction false} ManyParsed(data: seq<byte>, count: nat)
    requires ParseMany(data, count).Parsed?
    ensures var parsed := ParseMany(data, count);
            |parsed.value| == count && ValidRecords(parsed.value) && data == EncodeMany(parsed.value) + parsed.rest
    decreases count
  {
    hide ParseRecord, EncodeRecord, ValidRecord;
    if count > 0 {
      var first := ParseRecord(data);
      RecordCodec(data, first.value, first.rest);
      var others := ParseMany(first.rest, count - 1);
      ManyParsed(first.rest, count - 1);
      var all := [first.value] + others.value;
      assert all[1..] == others.value;
      EncodeManyFirst(all, others.rest);
    }
  }

  lemma {:induction false} ManyPrinted(records: seq<Record>, rest: seq<byte>)
    requires ValidRecords(records)
    ensures ParseMany(EncodeMany(records) + rest, |records|) == Parsed(records, rest)
  {
    hide ParseRecord, EncodeRecord, ValidRecord;
    if records == [] {
      assert EncodeMany(records) + rest == rest;
    } else {
      EncodeManyFirst(records, rest);
      RecordCodec(EncodeMany(records) + rest, records[0], EncodeMany(records[1..]) + rest);
      ManyPrinted(records[1..], rest);
      assert [records[0]] + records[1..] == records;
    }
  }

  /** Decoding a batch gives back exactly the batch it encodes, and re-encoding what was decoded gives
      back the same bytes. */
  lemma RecordsCodec(data: seq<byte>, records: seq<Record>, rest: seq<byte>)
    ensures ParseRecords(data) == Parsed(records, rest)
            <==> ValidBatch(records) && data == EncodeRecords(records) + rest
  {
    hide ParseRecord, EncodeRecord, ValidRecord, ParseMany, EncodeMany;
    Powers();
    assert EncodeRecords(records) + rest == Scalar(|records|, 2) + (EncodeMany(records) + rest);
    NumberCodec(data, 2, |records|, EncodeMany(records) + rest);
    if ValidBatch(records) {
      ManyPrinted(records, rest);
    }
    if ParseRecords(data) == Parsed(records, rest) {
      var count := ParseNumber(data, 2);
      NumberCodec(data, 2, count.value, count.rest);
      ManyParsed(count.rest, count.value);
    }
  }

  function RecordBytes(records: seq<Record>): nat {
    if records == [] then 0 else records[0].WireBytes() - 8 + RecordBytes(records[1..])
  }

  lemma {:induction false} EncodedSize(records: seq<Record>)
    ensures |EncodeMany(records)| == RecordBytes(records)
  {
    if records != [] {
      EncodedSize(records[1..]);
    }
  }

  /** A batch decoded from a legal frame is at least 11 bytes and leaves room for the frame's own 5. */
  lemma BatchSize(records: seq<Record>)
    requires ValidBatch(records)
    ensures |EncodeRecords(records)| == 2 + RecordBytes(records) >= 11
  {
    EncodedSize(records);
    assert ValidRecord(records[0]);
  }

  // ---------------------------------------------------------------- the reader and the decoding loop

  /** `Reader`: a buffer and a position that only moves forward. */
  class Reader {
    const data: seq<byte>
    var position: nat

    ghost predicate Valid()
      reads this
    {
      position <= |data|
    }

    ghost function Rest(): seq<byte>
      reads this
      requires Valid()
    {
      data[position..]
    }

    constructor (data: seq<byte>)
      ensures Valid() && Rest() == data && this.data == data
    {
      this.data := data;
      position := 0;
    }

    method Take(length: nat) returns (r: Result<seq<byte>>)
      requires Valid()
      modifies this
      ensures Valid()
      ensures match ParseBytes(old(Rest()), length)
              case Bad(code) => r == Err(code) && Rest() == old(Rest())
              case Parsed(b, rest) => r == Ok(b) && Rest() == rest
    {
      if length > |data| - position {
        return Err(PROTOCOL);
      }
      assert Rest()[..length] == data[position..position + length];
      r := Ok(data[position..position + length]);
      position := position + length;
    }

    /** `finish`: nothing may be left. */
    method Finish() returns (ok: bool)
      requires Valid()
      ensures ok <==> Rest() == []
    {
      ok := position == |data|;
    }

    /** `u8`, `u16`, `u32` and `u64`. */
    method Unsigned(width: nat) returns (r: Result<nat>)
      requires Valid()
      modifies this
      ensures Valid()
      ensures match ParseNumber(old(Rest()), width)
              case Bad(code) => r == Err(code)
              case Parsed(n, rest) => r == Ok(n) && Rest() == rest
    {
      var b := Take(width);
      r := match b
           case Err(code) => Err(code)
           case Ok(bytes) => Ok(Number(bytes));
    }

    method String(max: nat) returns (r: Result<seq<byte>>)
      requires Valid()
      modifies this
      ensures Valid()
      ensures match ParseString(old(Rest()), max)
              case Bad(code) => r == Err(code)
              case Parsed(s, rest) => r == Ok(s) && Rest() == rest
    {
      var length := Unsigned(2);
      if length.Err? {
        return Err(length.code);
      }
      if length.value > max {
        return Err(INVALID);
      }
      var value := Take(length.value);
      if value.Err? {
        return value;
      }
      r := if ValidUtf8(value.value) then value else Err(PROTOCOL);
    }

    method Payload(max: nat) returns (r: Result<seq<byte>>)
      requires Valid()
      modifies this
      ensures Valid()
      ensures match ParsePayload(old(Rest()), max)
              case Bad(code) => r == Err(code)
              case Parsed(p, rest) => r == Ok(p) && Rest() == rest
    {
      var length := Unsigned(4);
      if length.Err? {
        return Err(length.code);
      }
      if length.value > max {
        return Err(LIMIT);
      }
      r := Take(length.value);
    }

    method Record() returns (r: Result<Record>)
      requires Valid()
      modifies this
      ensures Valid()
      ensures match ParseRecord(old(Rest()))
              case Bad(code) => r == Err(code)
              case Parsed(record, rest) => r == Ok(record) && Rest() == rest
    {
      var topic := String(255);
      if topic.Err? {
        return Err(topic.code);
      }
      if !ValidTopic(topic.value) {
        return Err(INVALID);
      }
      var key := String(1024);
      if key.Err? {
        return Err(key.code);
      }
      var payload := Payload(MAX_PAYLOAD);
      if payload.Err? {
        return Err(payload.code);
      }
      r := Ok(EventLog.Record(topic.value, key.value, payload.value));
    }

    /** `decode_records`: the loop agrees with the parser, error for error. */
    method DecodeRecords() returns (r: Result<seq<Record>>)
      requires Valid()
      modifies this
      ensures Valid()
      ensures match ParseRecords(old(Rest()))
              case Bad(code) => r == Err(code)
              case Parsed(records, rest) => r == Ok(records) && Rest() == rest
    {
      var count := Unsigned(2);
      if count.Err? {
        return Err(count.code);
      }
      if !(1 <= count.value <= MAX_BATCH) {
        return Err(INVALID);
      }
      r := Many(count.value);
    }

    method Many(count: nat) returns (r: Result<seq<Record>>)
      requires Valid()
      modifies this
      ensures Valid()
      ensures match ParseMany(old(Rest()), count)
              case Bad(code) => r == Err(code)
              case Parsed(records, rest) => r == Ok(records) && Rest() == rest
    {
      hide ParseMany, ParseRecord;
      var records: seq<Record> := [];
      PrependNothing(ParseMany(Rest(), count));
      while |records| < count
        invariant Valid() && |records| <= count
        invariant ParseMany(old(Rest()), count) == Prepend(records, ParseMany(Rest(), count - |records|))
      {
        PrependStep(records, Rest(), count - |records|);
        var record := Record();
        if record.Err? {
          return Err(record.code);
        }
        records := records + [record.value];
      }
      PrependDone(records, Rest());
      r := Ok(records);
    }
  }

  /** What a loop has read so far, followed by what is still to come. */
  function Prepend<T>(done: seq<T>, parsed: Parsed<seq<T>>): Parsed<seq<T>> {
    match parsed
    case Bad(code) => Bad(code)
    case Parsed(others, rest) => Parsed(done + others, rest)
  }

  lemma PrependNothing<T>(parsed: Parsed<seq<T>>)
    ensures Prepend([], parsed) == parsed
  {
    if parsed.Parsed? {
      assert [] + parsed.value == parsed.value;
    }
  }

  lemma PrependDone(records: seq<Record>, data: seq<byte>)
    ensures Prepend(records, ParseMany(data, 0)) == Parsed(records, data)
  {
    assert records + [] == records;
  }

  lemma PrependStep(records: seq<Record>, data: seq<byte>, count: nat)
    requires count > 0
    ensures match ParseRecord(data)
            case Bad(code) => Prepend(records, ParseMany(data, count)) == Bad(code)
            case Parsed(first, rest) =>
              Prepend(records, ParseMany(data, count)) == Prepend(records + [first], ParseMany(rest, count - 1))
  {
    match ParseRecord(data) {
      case Bad(_) =>
      case Parsed(first, rest) =>
        match ParseMany(rest, count - 1) {
          case Bad(_) =>
          case Parsed(others, _) => assert records + ([first] + others) == (records + [first]) + others;
        }
    }
  }
}
