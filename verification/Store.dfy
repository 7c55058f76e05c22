/** The event store: what a publish and a start-up mean, and the class whose methods do them in place. */
module Store {
  import opened Basics
  import opened Codes
  import opened EventLog
  import opened Protocol
  import opened Wal
  import FetchScan
  import Paging

  datatype Limits = Limits(retained: nat, wal: nat)

  /** A file and how much of it has reached stable storage. */
  datatype Disk = Disk(file: seq<byte>, synced: nat)

  datatype State = State(batches: seq<Batch>, poisoned: bool, wal: Option<Disk>)

  datatype Receipt = Receipt(first: nat, last: nat, count: nat, durable: bool)

  /** What the file system does to one append. */
  datatype Fault = NoFault | WriteFails(written: nat) | SyncFails

  function LogBytes(crc: Checksum, batches: seq<Batch>): seq<byte> {
    MAGIC + Frames(crc, batches)
  }

  function Written(fault: Fault, frame: seq<byte>): seq<byte> {
    if fault.WriteFails? && fault.written < |frame| then frame[..fault.written] else frame
  }

  function AfterAppend(disk: Disk, frame: seq<byte>, fault: Fault): Disk {
    var file := disk.file + Written(fault, frame);
    Disk(file, if fault == NoFault then |file| else disk.synced)
  }

  function AfterPublish(crc: Checksum, limits: Limits, s: State, records: seq<Record>, fault: Fault)
    : (State, Result<Receipt>)
  {
    var first := Count(s.batches) + 1;
    var last := Count(s.batches) + |records|;
    var grown := s.(batches := s.batches + [Batch(first, records)]);
    if s.poisoned then (s, Err(STORAGE))
    else if RetainedOf(records) > Saturating(limits.retained, Retained(s.batches)) || last > MAX_U64
      then (s, Err(CAPACITY))
    else
      match s.wal
      case None => (grown, Ok(Receipt(first, last, |records|, false)))
      case Some(disk) =>
        if BatchBytes(records) > Saturating(limits.wal, |LogBytes(crc, s.batches)|) then (s, Err(CAPACITY))
        else
          var after := Some(AfterAppend(disk, Frame(crc, Batch(first, records)), fault));
          if fault == NoFault then (grown.(wal := after), Ok(Receipt(first, last, |records|, true)))
          else (s.(poisoned := true, wal := after), Err(STORAGE))
  }

  function CutTail(disk: Disk, left: nat): Disk
    requires left <= |disk.file|
  {
    if left == 0 then disk else Disk(disk.file[..|disk.file| - left], |disk.file| - left)
  }

  /** `Store::disk`: replay what the file holds and cut off a torn last frame. */
  function Opened(crc: Checksum, limits: Limits, disk: Disk): Result<State> {
    if |disk.file| > limits.wal then Err(CAPACITY)
    else
      var d := if disk.file == [] then Disk(MAGIC, |MAGIC|) else disk;
      if !(MAGIC <= d.file) then Err(STORAGE)
      else
        match Replay(crc, limits.retained, d.file[|MAGIC|..], [])
        case Refused(code) => Err(code)
        case Replayed(batches, left) => Ok(State(batches, false, Some(CutTail(d, left))))
  }

  // ---------------------------------------------------------------- the events in memory

  function Numbering(first: nat, records: seq<Record>): seq<Event> {
    seq(|records|, i requires 0 <= i < |records| => Event(first + i, records[i]))
  }

  function Events(batches: seq<Batch>): seq<Event> {
    if batches == [] then []
    else Events(batches[..|batches| - 1]) + Numbering(batches[|batches| - 1].first, batches[|batches| - 1].records)
  }

  ghost predicate InSequence(batches: seq<Batch>) {
    forall i :: 0 <= i < |batches| ==> batches[i].first == Count(batches[..i]) + 1
  }

  /** The events are numbered by their positions, which is what a fetch relies on. */
  lemma {:induction false} EventsNumbered(batches: seq<Batch>)
    requires InSequence(batches)
    ensures Numbered(Events(batches)) && |Events(batches)| == Count(batches)
  {
    if batches != [] {
      var before := batches[..|batches| - 1];
      assert forall i :: 0 <= i < |before| ==> before[..i] == batches[..i];
      EventsNumbered(before);
    }
  }

  lemma EventsGrow(before: seq<Batch>, b: Batch)
    ensures Events(before + [b]) == Events(before) + Numbering(b.first, b.records)
    ensures Retained(before + [b]) == Retained(before) + RetainedOf(b.records)
    ensures Count(before + [b]) == Count(before) + |b.records|
  {
    assert (before + [b])[..|before|] == before;
  }

  /** A longer log keeps the events it had, under their numbers. */
  lemma {:induction false} EventsExtend(before: seq<Batch>, after: seq<Batch>)
    requires before <= after
    ensures Events(before) <= Events(after)
    decreases |after|
  {
    if |before| < |after| {
      var n := |after| - 1;
      EventsExtend(before, after[..n]);
    } else {
      assert before == after;
    }
  }

  lemma InSequenceGrows(before: seq<Batch>, b: Batch)
    requires InSequence(before) && b.first == Count(before) + 1
    ensures InSequence(before + [b])
  {
    hide Count;
    forall i | 0 <= i <= |before| ensures (before + [b])[i].first == Count((before + [b])[..i]) + 1 {
      assert (before + [b])[..i] == before[..i];
      assert before[..|before|] == before;
    }
  }

  lemma NoFrames(crc: Checksum)
    ensures LogBytes(crc, []) == MAGIC && ReadFrame(crc, []).Short?
  {
  }

  // ---------------------------------------------------------------- when a publish is taken

  /** What a decoded publish request can hold. */
  predicate Decoded(records: seq<Record>) {
    ValidBatch(records) && |EncodeRecords(records)| <= MAX_FRAME - 5
  }

  /** The batch fits the history and the sequence range. */
  ghost predicate HistoryFits(limits: Limits, s: State, records: seq<Record>) {
    Retained(s.batches) + RetainedOf(records) <= limits.retained && Count(s.batches) + |records| <= MAX_U64
  }

  /** On disk, its frame fits the log budget behind the log there is. */
  ghost predicate FileFits(crc: Checksum, limits: Limits, s: State, records: seq<Record>) {
    s.wal.Some? ==>
      |LogBytes(crc, s.batches)| + |Frame(crc, Batch(Count(s.batches) + 1, records))| <= limits.wal
  }

  /** The file, if there is one, takes the frame. */
  ghost predicate FileTakes(s: State, fault: Fault) {
    s.wal.Some? ==> fault == NoFault
  }

  /** The log grew by exactly these records, under these numbers. */
  ghost predicate Grew(before: seq<Event>, after: seq<Event>, records: seq<Record>) {
    && |after| == |before| + |records| && before <= after
    && forall i :: 0 <= i < |records| ==> after[|before| + i] == Event(|before| + 1 + i, records[i])
  }

  lemma BatchRetains(records: seq<Record>)
    requires records != []
    ensures RetainedOf(records) >= 256
  {
  }

  /** A publish of a batch the broker can decode is taken, in memory and on disk alike, exactly when the
      store is not poisoned, the batch fits, and the file takes it; then the log grows by exactly the
      records and the receipt says so. Otherwise the log stays, and the code says which of these failed. */
  lemma PublishDecides(crc: Checksum, limits: Limits, s: State, records: seq<Record>, fault: Fault)
    requires InSequence(s.batches) && Decoded(records)
    ensures var (t, reply) := AfterPublish(crc, limits, s, records, fault);
            && (reply.Ok? <==>
                  && !s.poisoned && HistoryFits(limits, s, records) && FileFits(crc, limits, s, records)
                  && FileTakes(s, fault))
            && (reply.Ok? ==>
                  var r := reply.value;
                  && Grew(Events(s.batches), Events(t.batches), records) && r.first == |Events(s.batches)| + 1
                  && r.last == |Events(t.batches)| && r.count == |records| && r.durable == s.wal.Some? && !t.poisoned)
            && (reply.Err? ==> t.batches == s.batches)
            && (s.poisoned ==> t == s && reply == Err(STORAGE))
            && (!s.poisoned && !(HistoryFits(limits, s, records) && FileFits(crc, limits, s, records)) ==>
                  t == s && reply == Err(CAPACITY))
            && (!s.poisoned && HistoryFits(limits, s, records) && FileFits(crc, limits, s, records) ==>
                  FileTakes(s, fault) || (t.poisoned && reply == Err(STORAGE)))
  {
    hide Frames, LogBytes, Events, InSequence, Count, Retained, RetainedOf, ValidRecords, EncodeRecords, RecordBytes;
    BatchRetains(records);
    EventsNumbered(s.batches);
    EventsGrow(s.batches, Batch(Count(s.batches) + 1, records));
    if HistoryFits(limits, s, records) {
      FrameSize(crc, Batch(Count(s.batches) + 1, records));
    }
    hide Frame, BatchBytes;
  }

  /** What a publish leaves on disk: a prefix of the frame behind what was there, all of it and synced if the
      publish was taken, and nothing at all if it was refused before the file was touched. */
  lemma PublishWrites(crc: Checksum, limits: Limits, s: State, records: seq<Record>, fault: Fault)
    requires s.wal.Some?
    ensures var (t, reply) := AfterPublish(crc, limits, s, records, fault);
            var frame := Frame(crc, Batch(Count(s.batches) + 1, records));
            && t.wal.Some? && s.wal.value.file <= t.wal.value.file <= s.wal.value.file + frame
            && (reply.Ok? ==> t.wal.value.file == s.wal.value.file + frame && t.wal.value.synced == |t.wal.value.file|)
            && (reply.Err? ==> t.wal.value.synced == s.wal.value.synced)
            && (reply == Err(CAPACITY) ==> t.wal == s.wal)
  {
    hide Frames, Frame, LogBytes, Count, Retained, RetainedOf, BatchBytes;
  }

  // ---------------------------------------------------------------- the store

  class Store {
    const crc: Checksum
    const maxRetainedBytes: nat
    const maxWalBytes: nat
    var events: seq<Event>
    var retainedBytes: nat
    var poisoned: bool
    var coalescedRecords: nat
    /** The log file, absent in memory mode, and the length it is known to have. */
    var wal: Option<Disk>
    var bytes: nat
    ghost var batches: seq<Batch>

    ghost predicate Valid()
      reads this
    {
      && events == Events(batches) && InSequence(batches)
      && retainedBytes == Retained(batches)
      && (wal.Some? ==> bytes == |LogBytes(crc, batches)|)
    }

    ghost function View(): State
      reads this
    {
      State(batches, poisoned, wal)
    }

    ghost function Limited(): Limits {
      Limits(maxRetainedBytes, maxWalBytes)
    }

    constructor Memory(crc: Checksum, limits: Limits)
      ensures Valid() && View() == State([], false, None)
      ensures this.crc == crc && Limited() == limits
    {
      this.crc := crc;
      maxRetainedBytes, maxWalBytes := limits.retained, limits.wal;
      events, retainedBytes, poisoned, coalescedRecords := [], 0, false, 0;
      wal, bytes, batches := None, 0, [];
    }

    /** The numbers of a batch, and its place in memory. */
    method Commit(first: nat, records: seq<Record>, size: nat)
      requires events == Events(batches) && InSequence(batches) && retainedBytes == Retained(batches)
      requires first == Count(batches) + 1 && size == RetainedOf(records)
      modifies `events, `retainedBytes, `batches
      ensures batches == old(batches) + [Batch(first, records)]
      ensures events == Events(batches) && InSequence(batches) && retainedBytes == Retained(batches)
    {
      EventsGrow(batches, Batch(first, records));
      InSequenceGrows(batches, Batch(first, records));
      events := events + Numbering(first, records);
      retainedBytes := retainedBytes + size;
      batches := batches + [Batch(first, records)];
    }

    /** `Wal::append`, past the capacity check: the frame is built, written and synced. */
    method AppendFrame(first: nat, records: seq<Record>, fault: Fault) returns (ok: bool)
      requires wal.Some?
      modifies `wal, `bytes
      ensures wal == Some(AfterAppend(old(wal).value, Frame(crc, Batch(first, records)), fault))
      ensures ok <==> fault == NoFault
      ensures bytes == if ok then old(bytes) + |Frame(crc, Batch(first, records))| else old(bytes)
    {
      var body := Scalar(first, 8) + EncodeRecords(records);
      var frame := Scalar(|body|, 4) + Scalar(crc(body), 4);
      frame := frame + Scalar(crc(frame), 4);
      frame := frame + body;
      assert frame == Frame(crc, Batch(first, records));
      var written := match fault
                     case WriteFails(n) => if n < |frame| then frame[..n] else frame
                     case _ => frame;
      var file := wal.value.file + written;
      wal := Some(wal.value.(file := file));
      if fault != NoFault {
        return false;
      }
      wal := Some(wal.value.(synced := |file|));
      bytes := bytes + |frame|;
      ok := true;
    }

    method Publish(records: seq<Record>, fault: Fault) returns (r: Result<Receipt>)
      requires Valid()
      modifies this
      ensures Valid()
      ensures (View(), r) == AfterPublish(crc, Limited(), old(View()), records, fault)
      ensures Decoded(records) ==> (r.Ok? <==>
                && !old(poisoned) && HistoryFits(Limited(), old(View()), records)
                && FileFits(crc, Limited(), old(View()), records) && FileTakes(old(View()), fault))
      ensures Decoded(records) && r.Ok? ==> Grew(old(events), events, records) && r.value.first == |old(events)| + 1
      ensures Decoded(records) && r.Err? ==> events == old(events)
    {
      hide Frame, Frames, Events, InSequence, Count, Retained, RetainedOf, RecordBytes, AfterAppend, Decoded,
        HistoryFits, FileFits, Grew;
      if Decoded(records) {
        PublishDecides(crc, Limited(), View(), records, fault);
      }
      EventsNumbered(batches);
      if poisoned {
        return Err(STORAGE);
      }
      var size := RetainedOf(records);
      if size > Saturating(maxRetainedBytes, retainedBytes) {
        return Err(CAPACITY);
      }
      var last := |events| + |records|;
      if last > MAX_U64 {
        return Err(CAPACITY);
      }
      var first := |events| + 1;
      if wal.Some? {
        if BatchBytes(records) > Saturating(maxWalBytes, bytes) {
          return Err(CAPACITY);
        }
        FramesAppend(crc, batches, Batch(first, records));
        var ok := AppendFrame(first, records, fault);
        if !ok {
          poisoned := true;
          return Err(STORAGE);
        }
      }
      Commit(first, records, size);
      r := Ok(Receipt(first, last, |records|, wal.Some?));
    }

    /** Recovery's reading of one frame, piece by piece from the file. */
    method NextFrame(file: seq<byte>, position: nat) returns (r: Reading)
      requires position <= |file|
      ensures r == ReadFrame(crc, file[position..])
    {
      hide ParseRecords, ParseNumber, Number;
      ghost var data := file[position..];
      if |file| - position < HEADER_BYTES {
        return Short;
      }
      var header := file[position..position + HEADER_BYTES];
      assert header == data[..HEADER_BYTES];
      assert header[..8] == data[..8] && header[8..12] == data[8..12];
      assert header[..4] == data[..4] && header[4..8] == data[4..8];
      if crc(header[..8]) != Number(header[8..12]) {
        return Damaged(STORAGE);
      }
      var bodyLength := Number(header[..4]);
      var expected := Number(header[4..8]);
      if !(19 <= bodyLength <= MAX_FRAME + 3) {
        return Damaged(STORAGE);
      }
      var end := position + HEADER_BYTES + bodyLength;
      if end > |file| {
        return Short;
      }
      var body := file[position + HEADER_BYTES..end];
      assert body == data[HEADER_BYTES..HEADER_BYTES + bodyLength];
      if crc(body) != expected {
        return Damaged(STORAGE);
      }
      var batch := DecodeBody(body);
      r := if batch.Some? then Whole(batch.value, HEADER_BYTES + bodyLength) else Damaged(STORAGE);
    }

    method DecodeBody(body: seq<byte>) returns (r: Option<Batch>)
      ensures r == ReadBody(body)
    {
      hide ParseRecords, ParseNumber;
      var reader := new Reader(body);
      var first := reader.Unsigned(8);
      if first.Err? {
        return None;
      }
      var records := reader.DecodeRecords();
      if records.Err? {
        return None;
      }
      var ended := reader.Finish();
      r := if ended then Some(Batch(first.value, records.value)) else None;
    }

    /** `Store::disk` with `Wal::open`, on a store just made by `Memory`: the loop replays every whole
        frame and cuts off a torn one, and fails on anything else. */
    method Recover(disk: Disk) returns (r: Result<bool>)
      requires Valid() && View() == State([], false, None)
      modifies this
      ensures match Opened(crc, Limited(), disk)
              case Err(code) => r == Err(code)
              case Ok(s) => r == Ok(true) && Valid() && View() == s
    {
      hide ReadFrame, Frames, Frame, Legal, Events, InSequence, Retained, RetainedOf, Count;
      if |disk.file| > maxWalBytes {
        return Err(CAPACITY);
      }
      var d := if disk.file == [] then Disk(MAGIC, |MAGIC|) else disk;
      if |d.file| < |MAGIC| || d.file[..|MAGIC|] != MAGIC {
        return Err(STORAGE);
      }
      var length := |d.file|;
      var position := |MAGIC|;
      ghost var whole := Replay(crc, maxRetainedBytes, d.file[position..], []);
      NoFrames(crc);
      while position < length
        invariant |MAGIC| <= position <= length == |d.file|
        invariant Valid() && !poisoned && wal.None? && position == |LogBytes(crc, batches)|
        invariant whole == Replay(crc, maxRetainedBytes, d.file[position..], batches)
      {
        var reading := NextFrame(d.file, position);
        if reading.Damaged? {
          return Err(reading.code);
        }
        if reading.Short? {
          length := position;
          d := Disk(d.file[..position], position);
          break;
        }
        var b := reading.batch;
        EventsNumbered(batches);
        if b.first != |events| + 1 {
          return Err(STORAGE);
        }
        var size := RetainedOf(b.records);
        if size > Saturating(maxRetainedBytes, retainedBytes) {
          return Err(CAPACITY);
        }
        ReadFrameExact(crc, d.file[position..], b, reading.length);
        FramesAppend(crc, batches, b);
        assert d.file[position..][reading.length..] == d.file[position + reading.length..];
        Commit(b.first, b.records, size);
        position := position + reading.length;
      }
      NoFrames(crc);
      assert d.file[length..] == [];
      wal, bytes := Some(d), length;
      r := Ok(true);
    }

    /** `Store::fetch`: the scan over the events in memory changes nothing but a counter. */
    method Fetch(q: Query) returns (r: Result<Page>)
      requires Valid() && EventLog.Valid(q)
      modifies `coalescedRecords
      ensures Valid() && View() == old(View())
      ensures r == Answer(Events(batches), q)
    {
      EventsNumbered(batches);
      var coalesced;
      r, coalesced := FetchScan.Fetch(events, q);
      coalescedRecords := coalescedRecords + coalesced;
    }
  }
}
