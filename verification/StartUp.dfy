/** Start-up: exactly which files it accepts, what it makes of them, and which code it gives otherwise. */
module StartUp {
  import opened Basics
  import opened Codes
  import opened EventLog
  import opened Protocol
  import opened Wal
  import opened Store

  /** The file is this log and a torn frame behind it. */
  ghost predicate Holds(crc: Checksum, limits: Limits, file: seq<byte>, batches: seq<Batch>, torn: seq<byte>) {
    Lawful(limits.retained, batches) && file == LogBytes(crc, batches) + torn && ReadFrame(crc, torn).Short?
  }

  /** The file starts with a log that fits and a legal next batch that the retained budget has no room for. */
  ghost predicate Overflows(crc: Checksum, limits: Limits, file: seq<byte>) {
    exists batches, b :: OverflowsAt(crc, limits.retained, batches, b) && LogBytes(crc, batches + [b]) <= file
  }

  ghost predicate OverflowsAt(crc: Checksum, budget: nat, batches: seq<Batch>, b: Batch) {
    && Lawful(budget, batches) && Legal(b) && b.first == Count(batches) + 1
    && RetainedOf(b.records) > Saturating(budget, Retained(batches))
  }

  /** What the process starts from: an empty file gets its magic first. */
  ghost function Found(disk: Disk): Disk {
    if disk.file == [] then Disk(MAGIC, |MAGIC|) else disk
  }

  /** Start-up accepts exactly the files within the budget that hold a lawful log and at most a torn frame
      behind it; it recovers exactly that log, and leaves exactly its bytes, synced if it had to cut. */
  lemma OpenAccepts(crc: Checksum, limits: Limits, disk: Disk, batches: seq<Batch>, torn: seq<byte>)
    requires |disk.file| <= limits.wal && Holds(crc, limits, Found(disk).file, batches, torn)
    ensures var log := LogBytes(crc, batches);
            Opened(crc, limits, disk)
            == Ok(State(batches, false, Some(Disk(log, if torn == [] then Found(disk).synced else |log|))))
  {
    hide Frames, ReadFrame, Lawful, Replay;
    EmptyFrames(crc);
    assert batches[..0] == [];
    ReplayComplete(crc, limits.retained, batches, 0, torn);
    var file := Found(disk).file;
    assert file[|MAGIC|..] == Frames(crc, batches)[|Frames(crc, [])|..] + torn && MAGIC <= file;
    assert file[..|file| - |torn|] == LogBytes(crc, batches);
    assert torn == [] ==> file == LogBytes(crc, batches);
  }

  /** No other file is accepted. A file over the budget, or lawful up to a batch that the retained budget
      has no room for, is refused as such; any other, a wrong or short magic first of all, as damaged. */
  lemma OpenDecides(crc: Checksum, limits: Limits, disk: Disk)
    ensures Opened(crc, limits, disk).Ok?
            <==> |disk.file| <= limits.wal
                 && exists batches, torn :: Holds(crc, limits, Found(disk).file, batches, torn)
    ensures Opened(crc, limits, disk).Err? ==>
              Opened(crc, limits, disk)
              == Err(if |disk.file| > limits.wal || Overflows(crc, limits, Found(disk).file) then CAPACITY else STORAGE)
    ensures |disk.file| <= limits.wal && !(MAGIC <= Found(disk).file) ==> Opened(crc, limits, disk) == Err(STORAGE)
  {
    hide Frames, ReadFrame, Lawful, Replay, Overflows, Holds;
    var file := Found(disk).file;
    if |disk.file| <= limits.wal {
      if exists batches, torn :: Holds(crc, limits, file, batches, torn) {
        var batches, torn :| Holds(crc, limits, file, batches, torn);
        OpenAccepts(crc, limits, disk, batches, torn);
      }
      if MAGIC <= file {
        ReplayDecides(crc, limits, file);
      } else {
        NoMagicNoOverflow(crc, limits, file);
      }
    }
  }

  lemma ReplayDecides(crc: Checksum, limits: Limits, file: seq<byte>)
    requires MAGIC <= file
    ensures var r := Replay(crc, limits.retained, file[|MAGIC|..], []);
            && (r.Replayed? ==> exists batches, torn :: Holds(crc, limits, file, batches, torn))
            && (r.Refused? ==> r.code == if Overflows(crc, limits, file) then CAPACITY else STORAGE)
  {
    hide Frames, ReadFrame, Lawful, Replay, OverflowsAt, Holds;
    var data := file[|MAGIC|..];
    NothingReplayed(crc, limits);
    assert Frames(crc, []) + data == data && MAGIC + data == file;
    var r := Replay(crc, limits.retained, data, []);
    if r.Replayed? {
      ReplaySound(crc, limits.retained, data, []);
      HoldsReplayed(crc, limits, file);
    } else {
      if r.code != STORAGE {
        var batches, b := RefusedSound(crc, limits.retained, data, []);
        assert LogBytes(crc, batches + [b]) <= file;
      }
      if Overflows(crc, limits, file) {
        var batches, b :| OverflowsAt(crc, limits.retained, batches, b) && LogBytes(crc, batches + [b]) <= file;
        OverflowRefused(crc, limits.retained, batches, b, data);
      }
    }
  }

  /** A replay that refuses for lack of room has met the batch there is no room for. */
  lemma {:induction false} RefusedSound(crc: Checksum, budget: nat, data: seq<byte>, before: seq<Batch>)
    returns (batches: seq<Batch>, b: Batch)
    requires Lawful(budget, before) && Replay(crc, budget, data, before).Refused?
    ensures var code := Replay(crc, budget, data, before).code;
            || code == STORAGE
            || (&& code == CAPACITY && OverflowsAt(crc, budget, batches, b)
                && Frames(crc, batches + [b]) <= Frames(crc, before) + data)
    decreases |data|
  {
    hide Frames, Frame, Lawful, Legal, Count, Retained, RetainedOf, ReadFrame;
    batches, b := before, Batch(0, []);
    DamageIsStorage(crc, data);
    if ReadFrame(crc, data).Whole? {
      var n := ReadFrame(crc, data).length;
      b := ReadFrame(crc, data).batch;
      ReadFrameExact(crc, data, b, n);
      FrameMoves(crc, before, data, b, n);
      if Follows(budget, before, b) {
        LawfulExtends(budget, before, b);
        batches, b := RefusedSound(crc, budget, data[n..], before + [b]);
      }
    }
  }

  lemma DamageIsStorage(crc: Checksum, data: seq<byte>)
    ensures ReadFrame(crc, data).Damaged? ==> ReadFrame(crc, data).code == STORAGE
  {
    hide ReadBody, Number;
  }

  /** And where there is such a batch, replay comes to it. */
  lemma OverflowRefused(crc: Checksum, budget: nat, batches: seq<Batch>, b: Batch, data: seq<byte>)
    requires OverflowsAt(crc, budget, batches, b) && LogBytes(crc, batches + [b]) <= MAGIC + data
    ensures Replay(crc, budget, data, []) == Refused(CAPACITY)
  {
    hide Frames, Frame, Lawful, Legal, ReadFrame, Count, Retained, RetainedOf, Replay;
    var frames, frame := Frames(crc, batches), Frame(crc, b);
    FramesAppend(crc, batches, b);
    assert frames + frame <= data by {
      assert (MAGIC + data)[|MAGIC|..] == data;
    }
    var rest := data[|frames|..];
    assert data == frames + rest && frame <= rest;
    EmptyFrames(crc);
    assert batches[..0] == [] && frames[|Frames(crc, [])|..] == frames;
    ReplayPasses(crc, budget, batches, 0, rest);
    OverflowHere(crc, budget, batches, b, rest);
  }

  lemma EmptyFrames(crc: Checksum)
    ensures Frames(crc, []) == []
  {
  }

  lemma OverflowHere(crc: Checksum, budget: nat, batches: seq<Batch>, b: Batch, rest: seq<byte>)
    requires OverflowsAt(crc, budget, batches, b) && Frame(crc, b) <= rest
    ensures Replay(crc, budget, rest, batches) == Refused(CAPACITY)
  {
    hide Frame, Lawful, Legal, ReadFrame, Count, Retained, RetainedOf;
    FramePrefixReads(crc, rest, b);
  }

  /** Replay passes over the frames of a lawful log, whatever comes behind. */
  lemma {:induction false} ReplayPasses(crc: Checksum, budget: nat, batches: seq<Batch>, n: nat, rest: seq<byte>)
    requires Lawful(budget, batches) && n <= |batches|
    ensures Frames(crc, batches[..n]) <= Frames(crc, batches)
    ensures Replay(crc, budget, Frames(crc, batches)[|Frames(crc, batches[..n])|..] + rest, batches[..n])
         == Replay(crc, budget, rest, batches)
    decreases |batches| - n
  {
    hide Frames, Replay, Lawful;
    FramesPrefix(crc, batches, n);
    if n == |batches| {
      assert batches[..n] == batches;
      assert Frames(crc, batches)[|Frames(crc, batches)|..] + rest == rest;
    } else {
      ReplayPasses(crc, budget, batches, n + 1, rest);
      ReplayNext(crc, budget, batches, n, rest);
    }
  }

  lemma NothingReplayed(crc: Checksum, limits: Limits)
    ensures Frames(crc, []) == [] && Lawful(limits.retained, [])
  {
  }

  lemma HoldsReplayed(crc: Checksum, limits: Limits, file: seq<byte>)
    requires MAGIC <= file && Replay(crc, limits.retained, file[|MAGIC|..], []).Replayed?
    requires var r := Replay(crc, limits.retained, file[|MAGIC|..], []);
             var data := file[|MAGIC|..];
             && Lawful(limits.retained, r.batches) && data == Frames(crc, r.batches) + data[|data| - r.left..]
             && ReadFrame(crc, data[|data| - r.left..]).Short?
    ensures exists batches, torn :: Holds(crc, limits, file, batches, torn)
  {
    hide Frames, ReadFrame, Lawful, Replay;
    var r := Replay(crc, limits.retained, file[|MAGIC|..], []);
    var data := file[|MAGIC|..];
    assert file == MAGIC + data;
    assert Holds(crc, limits, file, r.batches, data[|data| - r.left..]);
  }

  lemma NoMagicNoOverflow(crc: Checksum, limits: Limits, file: seq<byte>)
    requires !(MAGIC <= file)
    ensures !Overflows(crc, limits, file)
  {
    hide Frames, OverflowsAt;
    forall batches, b ensures !(LogBytes(crc, batches + [b]) <= file) {
      assert MAGIC <= LogBytes(crc, batches + [b]);
    }
  }
}
