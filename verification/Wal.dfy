/**
 The write-ahead log as bytes: one checksummed frame per batch, and the replay that takes a file apart
 again. The checksum is a parameter: nothing here depends on which function it is.
 */
module Wal {
  import opened Basics
  import opened Codes
  import opened EventLog
  import opened Protocol

  const HEADER_BYTES := 12

  const MAGIC: seq<byte> := [0x56, 0x4C, 0x4F, 0x57, 0x41, 0x4C, 0x30, 0x31]

  type u32 = x: nat | x < 0x1_0000_0000

  type Checksum = seq<byte> -> u32

  datatype Batch = Batch(first: nat, records: seq<Record>)

  /** A batch as the server can come to append it: decoded from a legal frame, numbered within 64 bits. */
  predicate Legal(b: Batch) {
    ValidBatch(b.records) && |EncodeRecords(b.records)| <= MAX_FRAME - 5 && b.first <= MAX_U64
  }

  // ---------------------------------------------------------------- frames

  function Body(b: Batch): seq<byte> {
    Scalar(b.first, 8) + EncodeRecords(b.records)
  }

  function Header(crc: Checksum, body: seq<byte>): (h: seq<byte>)
    ensures |h| == HEADER_BYTES
  {
    var start := Scalar(|body|, 4) + Scalar(crc(body), 4);
    start + Scalar(crc(start), 4)
  }

  function Frame(crc: Checksum, b: Batch): seq<byte> {
    Header(crc, Body(b)) + Body(b)
  }

  function Frames(crc: Checksum, batches: seq<Batch>): seq<byte> {
    if batches == [] then [] else Frames(crc, batches[..|batches| - 1]) + Frame(crc, batches[|batches| - 1])
  }

  /** `batch_bytes`: what the capacity check charges for a batch. */
  function BatchBytes(records: seq<Record>): nat {
    HEADER_BYTES + 8 + 2 + RecordBytes(records)
  }

  /** The charge is the frame's real length, and recovery's length bounds admit every legal batch. */
  lemma FrameSize(crc: Checksum, b: Batch)
    requires Legal(b)
    ensures |Frame(crc, b)| == BatchBytes(b.records)
    ensures 19 <= |Body(b)| <= MAX_FRAME + 3
  {
    hide ValidRecords, EncodeMany, RecordBytes, Scalar;
    BatchSize(b.records);
  }

  // ---------------------------------------------------------------- reading one frame

  datatype Reading = Short | Damaged(code: nat) | Whole(batch: Batch, length: nat)

  /** One turn of the recovery loop, on the bytes from the current position to the end of the file. */
  function ReadFrame(crc: Checksum, data: seq<byte>): (r: Reading)
    ensures r.Whole? ==> 0 < r.length <= |data|
  {
    if |data| < HEADER_BYTES then Short
    else if crc(data[..8]) != Number(data[8..12]) then Damaged(STORAGE)
    else
      var length := Number(data[..4]);
      if !(19 <= length <= MAX_FRAME + 3) then Damaged(STORAGE)
      else if HEADER_BYTES + length > |data| then Short
      else
        var body := data[HEADER_BYTES..HEADER_BYTES + length];
        if crc(body) != Number(data[4..8]) then Damaged(STORAGE)
        else
          match ReadBody(body)
          case None => Damaged(STORAGE)
          case Some(batch) => Whole(batch, HEADER_BYTES + length)
  }

  function ReadBody(body: seq<byte>): Option<Batch> {
    match ParseNumber(body, 8)
    case Bad(_) => None
    case Parsed(first, rest) =>
      match ParseRecords(rest)
      case Bad(_) => None
      case Parsed(records, rest) => if rest == [] then Some(Batch(first, records)) else None
  }

  lemma ReadBodyExact(body: seq<byte>, b: Batch)
    ensures ReadBody(body) == Some(b) <==> ValidBatch(b.records) && b.first <= MAX_U64 && body == Body(b)
  {
    hide ParseNumber, ParseRecords, ValidBatch, EncodeRecords, Scalar;
    Powers();
    NumberCodec(body, 8, b.first, EncodeRecords(b.records));
    RecordsCodec(EncodeRecords(b.records), b.records, []);
    assert EncodeRecords(b.records) + [] == EncodeRecords(b.records);
    if ReadBody(body) == Some(b) {
      var number := ParseNumber(body, 8);
      NumberCodec(body, 8, b.first, number.rest);
      RecordsCodec(number.rest, b.records, []);
      assert number.rest == EncodeRecords(b.records) + [];
    }
  }

  /** A header is read back exactly when the length and both checksums are the ones written. */
  lemma HeaderExact(crc: Checksum, head: seq<byte>, body: seq<byte>)
    requires |head| == HEADER_BYTES && |body| < 0x1_0000_0000
    ensures head == Header(crc, body) <==>
              Number(head[..4]) == |body| && Number(head[4..8]) == crc(body) && Number(head[8..12]) == crc(head[..8])
  {
    hide Number, BigEndian, Power;
    ScalarNumber(head[..4], |body|);
    ScalarNumber(head[4..8], crc(body));
    ScalarNumber(head[8..12], crc(head[..8]));
    assert head == head[..8] + head[8..12] && head[..8] == head[..4] + head[4..8];
    var start := Scalar(|body|, 4) + Scalar(crc(body), 4);
    if head == Header(crc, body) {
      assert head[..8] == start;
      assert head[..4] == Scalar(|body|, 4) && head[4..8] == Scalar(crc(body), 4);
    }
  }

  lemma ScalarNumber(b: seq<byte>, n: nat)
    requires |b| == 4 && n < 0x1_0000_0000
    ensures Number(b) == n <==> b == Scalar(n, 4)
  {
    hide Number, BigEndian, Power;
    Powers();
    BigEndianOfNumber(b);
    NumberOfBigEndian(n, 4);
    SmallMod(n, Power(4));
    SmallMod(Number(b), Power(4));
  }

  /** Recovery accepts a frame exactly when an append of that batch wrote it. */
  lemma ReadFrameExact(crc: Checksum, data: seq<byte>, b: Batch, n: nat)
    ensures ReadFrame(crc, data) == Whole(b, n)
            <==> Legal(b) && n == |Frame(crc, b)| <= |data| && data[..n] == Frame(crc, b)
  {
    hide ReadBody, Header, Body, Legal;
    if ReadFrame(crc, data) == Whole(b, n) {
      FrameRead(crc, data, b, n);
    }
    if Legal(b) && n == |Frame(crc, b)| <= |data| && data[..n] == Frame(crc, b) {
      FramePrefixReads(crc, data, b);
    }
  }

  lemma FrameRead(crc: Checksum, data: seq<byte>, b: Batch, n: nat)
    requires ReadFrame(crc, data) == Whole(b, n)
    ensures Legal(b) && n == |Frame(crc, b)| <= |data| && data[..n] == Frame(crc, b)
  {
    hide ReadBody, Header, ValidBatch, EncodeRecords, Number, Scalar;
    var body := data[HEADER_BYTES..n];
    ReadBodyExact(body, b);
    assert data[..HEADER_BYTES][..4] == data[..4] && data[..HEADER_BYTES][4..8] == data[4..8];
    assert data[..HEADER_BYTES][8..12] == data[8..12] && data[..HEADER_BYTES][..8] == data[..8];
    HeaderExact(crc, data[..HEADER_BYTES], body);
    assert data[..n] == data[..HEADER_BYTES] + body;
  }

  /** What recovery reads at the start of a file that agrees with a frame as far as it goes. */
  lemma FramePrefixReads(crc: Checksum, data: seq<byte>, b: Batch)
    requires Legal(b) && (Frame(crc, b) <= data || data <= Frame(crc, b))
    ensures ReadFrame(crc, data) == if |Frame(crc, b)| <= |data| then Whole(b, |Frame(crc, b)|) else Short
  {
    hide ReadBody, Header, Body, Legal, Number, Scalar;
    var frame, body := Frame(crc, b), Body(b);
    FrameSize(crc, b);
    if |data| >= HEADER_BYTES {
      var head := Header(crc, body);
      assert data[..HEADER_BYTES] == head;
      HeaderExact(crc, head, body);
      assert head[..4] == data[..4] && head[4..8] == data[4..8] && head[8..12] == data[8..12] && head[..8] == data[..8];
      if |frame| <= |data| {
        assert data[HEADER_BYTES..HEADER_BYTES + |body|] == body;
        LegalReads(b);
      }
    }
  }

  lemma LegalReads(b: Batch)
    requires Legal(b)
    ensures ReadBody(Body(b)) == Some(b)
  {
    ReadBodyExact(Body(b), b);
  }

  // ---------------------------------------------------------------- replaying a whole file

  function Count(batches: seq<Batch>): nat {
    if batches == [] then 0 else Count(batches[..|batches| - 1]) + |batches[|batches| - 1].records|
  }

  function RetainedOf(records: seq<Record>): nat {
    if records == [] then 0 else RetainedOf(records[..|records| - 1]) + records[|records| - 1].RetainedBytes()
  }

  function Retained(batches: seq<Batch>): nat {
    if batches == [] then 0 else Retained(batches[..|batches| - 1]) + RetainedOf(batches[|batches| - 1].records)
  }

  /** The batch may follow those before it: consecutive numbers, and room in the retained history. */
  predicate Follows(budget: nat, before: seq<Batch>, b: Batch) {
    b.first == Count(before) + 1 && RetainedOf(b.records) <= Saturating(budget, Retained(before))
  }

  function Saturating(a: nat, b: nat): nat {
    if a >= b then a - b else 0
  }

  /** `left` counts the bytes of a torn last frame, which opening the file cuts off. */
  datatype Replayed = Replayed(batches: seq<Batch>, left: nat) | Refused(code: nat)

  /** The recovery loop from a position: `data` is unread and `before` is already in memory. */
  function Replay(crc: Checksum, budget: nat, data: seq<byte>, before: seq<Batch>): (r: Replayed)
    ensures r.Replayed? ==> r.left <= |data|
    decreases |data|
  {
    match ReadFrame(crc, data)
    case Short => Replayed(before, |data|)
    case Damaged(code) => Refused(code)
    case Whole(b, n) =>
      if b.first != Count(before) + 1 then Refused(STORAGE)
      else if RetainedOf(b.records) > Saturating(budget, Retained(before)) then Refused(CAPACITY)
      else Replay(crc, budget, data[n..], before + [b])
  }

  /** A log the store can hold: legal batches in sequence within the retained budget. */
  predicate Lawful(budget: nat, batches: seq<Batch>) {
    forall i :: 0 <= i < |batches| ==> Legal(batches[i]) && Follows(budget, batches[..i], batches[i])
  }

  lemma LawfulPrefix(budget: nat, batches: seq<Batch>, n: nat)
    requires Lawful(budget, batches) && n <= |batches|
    ensures Lawful(budget, batches[..n])
  {
    hide Legal, Follows;
    forall i | 0 <= i < n ensures Legal(batches[..n][i]) && Follows(budget, batches[..n][..i], batches[..n][i]) {
      assert batches[..n][..i] == batches[..i];
    }
  }

  lemma LawfulExtends(budget: nat, before: seq<Batch>, b: Batch)
    requires Lawful(budget, before) && Legal(b) && Follows(budget, before, b)
    ensures Lawful(budget, before + [b])
  {
    hide Legal, Follows;
    forall i | 0 <= i <= |before|
      ensures Legal((before + [b])[i]) && Follows(budget, (before + [b])[..i], (before + [b])[i])
    {
      assert (before + [b])[..i] == before[..i];
      assert before[..|before|] == before;
    }
  }

  lemma FramesAppend(crc: Checksum, before: seq<Batch>, b: Batch)
    ensures Frames(crc, before + [b]) == Frames(crc, before) + Frame(crc, b)
  {
    assert (before + [b])[..|before|] == before;
  }

  lemma {:induction false} FramesPrefix(crc: Checksum, batches: seq<Batch>, n: nat)
    requires n <= |batches|
    ensures Frames(crc, batches[..n]) <= Frames(crc, batches)
    decreases |batches|
  {
    hide Frame;
    if n == |batches| {
      assert batches[..n] == batches;
    } else {
      var shorter := batches[..|batches| - 1];
      FramesPrefix(crc, shorter, n);
      assert shorter[..n] == batches[..n];
    }
  }

  /** A frame moves from what is unread to what is replayed. */
  lemma FrameMoves(crc: Checksum, before: seq<Batch>, data: seq<byte>, b: Batch, n: nat)
    requires n <= |data| && data[..n] == Frame(crc, b)
    ensures Frames(crc, before) + data == Frames(crc, before + [b]) + data[n..]
  {
    hide Frame, Frames;
    FramesAppend(crc, before, b);
    assert data == data[..n] + data[n..];
  }

  lemma TailOf(data: seq<byte>, n: nat, left: nat)
    requires n + left <= |data|
    ensures data[n..][|data[n..]| - left..] == data[|data| - left..]
  {
  }

  /** Replay takes exactly the lawful logs: whatever it accepts is those frames and a torn rest, byte
      for byte, and it accepts all of those. */
  lemma {:induction false} ReplaySound(crc: Checksum, budget: nat, data: seq<byte>, before: seq<Batch>)
    requires Lawful(budget, before) && Replay(crc, budget, data, before).Replayed?
    ensures var r := Replay(crc, budget, data, before);
            && before <= r.batches && Lawful(budget, r.batches)
            && Frames(crc, before) + data == Frames(crc, r.batches) + data[|data| - r.left..]
            && ReadFrame(crc, data[|data| - r.left..]).Short?
    decreases |data|
  {
    hide ReadFrame, Lawful, Frames, Frame, Legal, Count, Retained, RetainedOf;
    match ReadFrame(crc, data) {
      case Short => assert data[|data| - |data|..] == data;
      case Damaged(_) =>
      case Whole(b, n) =>
        ReadFrameExact(crc, data, b, n);
        LawfulExtends(budget, before, b);
        FrameMoves(crc, before, data, b, n);
        ReplaySound(crc, budget, data[n..], before + [b]);
        TailOf(data, n, Replay(crc, budget, data[n..], before + [b]).left);
    }
  }

  lemma {:induction false} ReplayComplete(crc: Checksum, budget: nat, batches: seq<Batch>, n: nat, torn: seq<byte>)
    requires Lawful(budget, batches) && n <= |batches| && ReadFrame(crc, torn).Short?
    ensures Frames(crc, batches[..n]) <= Frames(crc, batches)
    ensures Replay(crc, budget, Frames(crc, batches)[|Frames(crc, batches[..n])|..] + torn, batches[..n])
            == Replayed(batches, |torn|)
    decreases |batches| - n
  {
    hide ReadFrame, Frames;
    FramesPrefix(crc, batches, n);
    if n == |batches| {
      assert batches[..n] == batches;
      assert Frames(crc, batches)[|Frames(crc, batches)|..] + torn == torn;
    } else {
      ReplayComplete(crc, budget, batches, n + 1, torn);
      ReplayNext(crc, budget, batches, n, torn);
    }
  }

  lemma ReplayNext(crc: Checksum, budget: nat, batches: seq<Batch>, n: nat, torn: seq<byte>)
    requires Lawful(budget, batches) && n < |batches|
    requires Frames(crc, batches[..n]) <= Frames(crc, batches) && Frames(crc, batches[..n + 1]) <= Frames(crc, batches)
    ensures Replay(crc, budget, Frames(crc, batches)[|Frames(crc, batches[..n])|..] + torn, batches[..n])
         == Replay(crc, budget, Frames(crc, batches)[|Frames(crc, batches[..n + 1])|..] + torn, batches[..n + 1])
  {
    hide ReadFrame, Frames, Frame, Legal, Count, Retained, RetainedOf;
    var all, b := Frames(crc, batches), batches[n];
    assert Legal(b) && Follows(budget, batches[..n], b);
    FramesAppend(crc, batches[..n], b);
    assert batches[..n + 1] == batches[..n] + [b];
    var start, size := |Frames(crc, batches[..n])|, |Frame(crc, b)|;
    var data := all[start..] + torn;
    assert all[..start + size] == Frames(crc, batches[..n + 1]);
    assert data[..size] == all[start..start + size] == Frame(crc, b);
    ReadFrameExact(crc, data, b, size);
    assert data[size..] == all[start + size..] + torn;
  }
}
